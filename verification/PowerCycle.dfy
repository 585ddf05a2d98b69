/**
 The Redfish power cycle: force off, wait for off, restore, wait for on, with a deferred restoration
 and a bounded, deduplicated evidence log. What the machine answers is given as parameters.
 */
module PowerCycle {

  import opened Options

  const MAX_ENTRIES: nat := 512
  const OBSERVE: string := "observe-system"

  datatype Entry = Entry(observedAt: int, operation: string, path: string, statusCode: nat, powerState: string,
                         error: string)

  /** What happened on the wire, in order: a reset was requested, or a system answer was read. */
  datatype Event = Posted(resetType: string) | Observed(powerState: string)

  // ---------------------------------------------------------------------------------------
  // The machine's answers.
  // ---------------------------------------------------------------------------------------

  datatype System = System(powerState: string, target: string, allowable: seq<string>, targetSHA256: string)

  /** A system read: no answer, a status other than 200, a body that does not decode, or a system. */
  datatype Reading = NoAnswer(error: string) | BadStatus(code: nat) | Undecodable | Answered(system: System)

  datatype Poll = Poll(reading: Reading, at: int)

  datatype Reset = Lost(error: string, at: int) | Replied(code: nat, at: int)

  predicate Accepting(code: nat) { code == 200 || code == 202 || code == 204 }

  // ---------------------------------------------------------------------------------------
  // The evidence log.
  // ---------------------------------------------------------------------------------------

  predicate Equivalent(a: Entry, b: Entry) {
    a.operation == b.operation && a.path == b.path && a.statusCode == b.statusCode && a.powerState == b.powerState
    && a.error == b.error
  }

  /** At most 512 entries, and no observation directly repeats the one before it. */
  ghost predicate GoodLog(entries: seq<Entry>) {
    && |entries| <= MAX_ENTRIES
    && forall i | 0 < i < |entries| && entries[i].operation == OBSERVE :: !Equivalent(entries[i - 1], entries[i])
  }

  predicate Repeats(entries: seq<Entry>, entry: Entry) {
    entries != [] && entry.operation == OBSERVE && Equivalent(entries[|entries| - 1], entry)
  }

  /** The last entry is an observation of this state. */
  predicate LastObserves(entries: seq<Entry>, state: string) {
    entries != [] && entries[|entries| - 1].operation == OBSERVE && entries[|entries| - 1].powerState == state
  }

  // ---------------------------------------------------------------------------------------
  // Traces.
  // ---------------------------------------------------------------------------------------

  predicate IsRestore(e: Event) { e == Posted("On") || e == Posted("ForceOn") }

  ghost predicate RestoredAfter(trace: seq<Event>, i: int) {
    exists j :: i < j < |trace| && j >= 0 && IsRestore(trace[j])
  }

  /** Every forced power-off is followed by an attempt to switch the machine on again. */
  ghost predicate AlwaysRestored(trace: seq<Event>) {
    forall i | 0 <= i < |trace| && trace[i] == Posted("ForceOff") :: RestoredAfter(trace, i)
  }

  /** Since then there were only reads. */
  ghost predicate OnlyReads(before: seq<Event>, after: seq<Event>) {
    var holds := before <= after && forall i | |before| <= i < |after| :: after[i].Observed?;
    holds
  }

  lemma ReadsMore(before: seq<Event>, after: seq<Event>, after': seq<Event>)
    requires OnlyReads(before, after) && OnlyReads(after, after')
    ensures OnlyReads(before, after')
  {
    forall i | |before| <= i < |after'| ensures after'[i].Observed? {
      assert i < |after| ==> after'[i] == after[i];
    }
  }

  /** Forced off, then seen off, then asked to switch on, then seen on. */
  ghost predicate Cycled(trace: seq<Event>, a: int, b: int, c: int, d: int) {
    && 0 <= a < b < c < d < |trace|
    && trace[a] == Posted("ForceOff") && trace[b] == Observed("Off") && IsRestore(trace[c])
    && trace[d] == Observed("On")
  }

  datatype Response = Response(acceptedAt: int, powerLostAt: int, powerRestoredAt: int)

  /** The three times are those of entries at these positions. */
  ghost predicate Witnesses(entries: seq<Entry>, r: Response, p: int, q: int, s: int) {
    && 0 <= p < q < s < |entries|
    && entries[p].operation == "reset-ForceOff" && Accepting(entries[p].statusCode)
    && entries[p].observedAt == r.acceptedAt
    && entries[q].operation == OBSERVE && entries[q].powerState == "Off" && entries[q].observedAt == r.powerLostAt
    && entries[s].operation == OBSERVE && entries[s].powerState == "On" && entries[s].observedAt == r.powerRestoredAt
  }

  // ---------------------------------------------------------------------------------------
  // The log as a function of what was read and answered, and when a cycle succeeds.
  // ---------------------------------------------------------------------------------------

  /** There is room for the entry, or it repeats the last one. */
  predicate Fits(entries: seq<Entry>, entry: Entry) { Repeats(entries, entry) || |entries| < 512 }

  function Appended(entries: seq<Entry>, entry: Entry): seq<Entry> {
    if !Repeats(entries, entry) && |entries| < 512 then entries + [entry] else entries
  }

  function ReadEntry(uri: string, poll: Poll): Option<Entry> {
    match poll.reading
    case NoAnswer(error) => Some(Entry(poll.at, OBSERVE, uri, 0, "", error))
    case BadStatus(code) => Some(Entry(poll.at, OBSERVE, uri, code, "", "unexpected HTTP status"))
    case Undecodable => None
    case Answered(system) => Some(Entry(poll.at, OBSERVE, uri, 200, system.powerState, ""))
  }

  function AfterRead(uri: string, entries: seq<Entry>, poll: Poll): seq<Entry> {
    if ReadEntry(uri, poll).Some? then Appended(entries, ReadEntry(uri, poll).value) else entries
  }

  ghost function AfterReads(uri: string, entries: seq<Entry>, polls: seq<Poll>): seq<Entry> {
    if polls == [] then entries
    else AfterRead(uri, AfterReads(uri, entries, polls[..|polls| - 1]), polls[|polls| - 1])
  }

  /** The read is answered, is logged and shows this state. */
  ghost predicate Shows(uri: string, entries: seq<Entry>, poll: Poll, state: string) {
    poll.reading.Answered? && poll.reading.system.powerState == state && Fits(entries, ReadEntry(uri, poll).value)
  }

  /** None of the first polls shows this state. */
  ghost predicate Unseen(uri: string, entries: seq<Entry>, state: string, polls: seq<Poll>, n: nat) {
    var holds :=
      n <= |polls| && forall k | 0 <= k < n :: !Shows(uri, AfterReads(uri, entries, polls[..k]), polls[k], state);
    holds
  }

  /** The first of the polls that shows this state. */
  ghost predicate FirstSeen(uri: string, entries: seq<Entry>, state: string, polls: seq<Poll>, i: nat) {
    var holds :=
      && i < |polls| && Unseen(uri, entries, state, polls, i)
      && Shows(uri, AfterReads(uri, entries, polls[..i]), polls[i], state);
    holds
  }

  /** The polls were read up to the first that shows this state, or all of them in vain. */
  ghost predicate Waited(uri: string, entries: seq<Entry>, state: string, polls: seq<Poll>, seen: bool,
                         entries': seq<Entry>)
  {
    var holds :=
      if seen
      then exists i :: FirstSeen(uri, entries, state, polls, i) && entries' == AfterReads(uri, entries, polls[..i + 1])
      else Unseen(uri, entries, state, polls, |polls|) && entries' == AfterReads(uri, entries, polls);
    holds
  }

  lemma ReadsOn(uri: string, entries: seq<Entry>, polls: seq<Poll>, i: nat)
    requires i < |polls|
    ensures AfterReads(uri, entries, polls[..i + 1]) == AfterRead(uri, AfterReads(uri, entries, polls[..i]), polls[i])
  {
    assert polls[..i + 1][..i] == polls[..i];
  }

  lemma UnseenOn(uri: string, entries: seq<Entry>, state: string, polls: seq<Poll>, i: nat)
    requires i < |polls| && Unseen(uri, entries, state, polls, i)
    requires !Shows(uri, AfterReads(uri, entries, polls[..i]), polls[i], state)
    ensures Unseen(uri, entries, state, polls, i + 1)
  {
  }

  lemma WaitedInVain(uri: string, entries: seq<Entry>, state: string, polls: seq<Poll>)
    requires Unseen(uri, entries, state, polls, |polls|)
    ensures Waited(uri, entries, state, polls, false, AfterReads(uri, entries, polls[..|polls|]))
  {
    assert polls[..|polls|] == polls;
  }

  lemma WaitedEnough(uri: string, entries: seq<Entry>, state: string, polls: seq<Poll>, i: nat)
    requires i < |polls| && Unseen(uri, entries, state, polls, i)
    requires Shows(uri, AfterReads(uri, entries, polls[..i]), polls[i], state)
    ensures Waited(uri, entries, state, polls, true, AfterReads(uri, entries, polls[..i + 1]))
  {
    assert FirstSeen(uri, entries, state, polls, i);
  }

  lemma NeverSeen(uri: string, entries: seq<Entry>, state: string, polls: seq<Poll>, entries': seq<Entry>)
    requires Waited(uri, entries, state, polls, false, entries')
    ensures forall i :: !FirstSeen(uri, entries, state, polls, i)
  {
  }

  function ResetEntry(path: string, resetType: string, reset: Reset): Entry {
    Entry(reset.at, "reset-" + resetType, path, if reset.Lost? then 0 else reset.code, "",
          if reset.Lost? then reset.error else "")
  }

  /** The reset was answered with one of the three codes by which a machine takes it on. */
  predicate TakenOn(reset: Reset) { reset.Replied? && (reset.code == 200 || reset.code == 202 || reset.code == 204) }

  /** The plain request if the machine offers it. */
  function OnTypeOf(system: System): string { if "On" in system.allowable then "On" else "ForceOn" }

  /** Off is asked for, seen, on is asked for and seen, each before its deadline and with room in the log. */
  ghost predicate CycleSucceeds(uri: string, entries: seq<Entry>, env: Environment, target: string, onType: string) {
    var holds :=
      && TakenOn(env.off) && |entries| < 512
      && exists i :: OffAndOn(uri, entries + [ResetEntry(target, "ForceOff", env.off)], env, target, onType, i);
    holds
  }

  ghost predicate OffAndOn(uri: string, asked: seq<Entry>, env: Environment, target: string, onType: string, i: nat) {
    && FirstSeen(uri, asked, "Off", env.offPolls, i)
    && ComesBack(uri, AfterReads(uri, asked, env.offPolls[..i + 1]), env, target, onType)
  }

  ghost predicate ComesBack(uri: string, off: seq<Entry>, env: Environment, target: string, onType: string) {
    var holds :=
      && TakenOn(env.on) && |off| < 512
      && exists k :: FirstSeen(uri, off + [ResetEntry(target, onType, env.on)], "On", env.onPolls, k);
    holds
  }

  lemma OneFirstSeen(uri: string, entries: seq<Entry>, state: string, polls: seq<Poll>, i: nat, k: nat)
    requires FirstSeen(uri, entries, state, polls, i) && FirstSeen(uri, entries, state, polls, k)
    ensures i == k
  {
  }

  /** Once the machine was seen off, the rest decides. */
  lemma OffDecides(uri: string, entries: seq<Entry>, env: Environment, target: string, onType: string, off: seq<Entry>)
    requires TakenOn(env.off) && |entries| < 512
    requires Waited(uri, entries + [ResetEntry(target, "ForceOff", env.off)], "Off", env.offPolls, true, off)
    ensures CycleSucceeds(uri, entries, env, target, onType) <==> ComesBack(uri, off, env, target, onType)
  {
    var asked := entries + [ResetEntry(target, "ForceOff", env.off)];
    var i :| FirstSeen(uri, asked, "Off", env.offPolls, i) && off == AfterReads(uri, asked, env.offPolls[..i + 1]);
    forall k | OffAndOn(uri, asked, env, target, onType, k) ensures k == i {
      OneFirstSeen(uri, asked, "Off", env.offPolls, i, k);
    }
    if ComesBack(uri, off, env, target, onType) {
      assert OffAndOn(uri, asked, env, target, onType, i);
    }
  }

  lemma NotSeenOff(uri: string, entries: seq<Entry>, env: Environment, target: string, onType: string, off: seq<Entry>)
    requires Waited(uri, entries + [ResetEntry(target, "ForceOff", env.off)], "Off", env.offPolls, false, off)
    ensures !CycleSucceeds(uri, entries, env, target, onType)
  {
    NeverSeen(uri, entries + [ResetEntry(target, "ForceOff", env.off)], "Off", env.offPolls, off);
  }

  lemma OnDecides(uri: string, off: seq<Entry>, env: Environment, target: string, onType: string, seen: bool,
                  on: seq<Entry>)
    requires TakenOn(env.on) && |off| < 512
    requires Waited(uri, off + [ResetEntry(target, onType, env.on)], "On", env.onPolls, seen, on)
    ensures ComesBack(uri, off, env, target, onType) <==> seen
  {
    if !seen {
      NeverSeen(uri, off + [ResetEntry(target, onType, env.on)], "On", env.onPolls, on);
    }
  }

  lemma {:induction false} ReadsBound(uri: string, entries: seq<Entry>, polls: seq<Poll>)
    ensures |AfterReads(uri, entries, polls)| <= |entries| + |polls|
  {
    if polls == [] {
    } else {
      ReadsBound(uri, entries, polls[..|polls| - 1]);
    }
  }

  predicate Reads(poll: Poll, state: string) { poll.reading.Answered? && poll.reading.system.powerState == state }

  /** With room for all of them, some poll is the first to show a state exactly if some poll reads it. */
  lemma SeenIffRead(uri: string, entries: seq<Entry>, state: string, polls: seq<Poll>)
    requires |entries| + |polls| <= 512
    ensures (exists i :: FirstSeen(uri, entries, state, polls, i)) <==>
              exists i :: 0 <= i < |polls| && Reads(polls[i], state)
  {
    for i := 0 to |polls|
      invariant Unseen(uri, entries, state, polls, i) && forall k | 0 <= k < i :: !Reads(polls[k], state)
    {
      ReadsBound(uri, entries, polls[..i]);
      if Reads(polls[i], state) {
        assert FirstSeen(uri, entries, state, polls, i);
        return;
      }
    }
    NeverSeen(uri, entries, state, polls, AfterReads(uri, entries, polls));
  }

  /**
   With fewer polls than the log has room for, a cycle succeeds exactly if both requests are taken on and
   the machine is read as off after the one and as on after the other.
   */
  lemma ShortCycleSucceedsIff(uri: string, entries: seq<Entry>, env: Environment, target: string, onType: string)
    requires |entries| + |env.offPolls| + |env.onPolls| + 2 <= 512
    ensures CycleSucceeds(uri, entries, env, target, onType) <==>
              && TakenOn(env.off) && TakenOn(env.on)
              && (exists i :: 0 <= i < |env.offPolls| && Reads(env.offPolls[i], "Off"))
              && (exists i :: 0 <= i < |env.onPolls| && Reads(env.onPolls[i], "On"))
  {
    var asked := entries + [ResetEntry(target, "ForceOff", env.off)];
    SeenIffRead(uri, asked, "Off", env.offPolls);
    if TakenOn(env.off) && exists i :: FirstSeen(uri, asked, "Off", env.offPolls, i) {
      var i :| FirstSeen(uri, asked, "Off", env.offPolls, i);
      var off := AfterReads(uri, asked, env.offPolls[..i + 1]);
      ReadsBound(uri, asked, env.offPolls[..i + 1]);
      OffDecides(uri, entries, env, target, onType, off);
      SeenIffRead(uri, off + [ResetEntry(target, onType, env.on)], "On", env.onPolls);
    }
  }

  /** Everything the outside decides: the answers, the polls that fit before each deadline, and the evidence writes. */
  datatype Environment = Environment(
    outputExists: bool, first: Poll, off: Reset, offPolls: seq<Poll>, on: Reset, onPolls: seq<Poll>,
    restore: Reset, restorePolls: seq<Poll>, writeSucceeds: bool, deferredWriteSucceeds: bool)

  /** What follows begins with the forced power-off and has no other. */
  ghost predicate ForcesOffOnce(before: seq<Event>, after: seq<Event>) {
    var holds :=
      && before < after && after[|before|] == Posted("ForceOff")
      && forall i | |before| < i < |after| :: after[i] != Posted("ForceOff");
    holds
  }

  /** A request and the reads that follow it. */
  ghost predicate AsksAndReads(before: seq<Event>, after: seq<Event>, resetType: string) {
    var holds := OnlyReads(before + [Posted(resetType)], after);
    holds
  }

  ghost predicate SeesLast(before: seq<Event>, after: seq<Event>, state: string) {
    var holds := |after| > |before| + 1 && after[|after| - 1] == Observed(state);
    holds
  }

  lemma AsksOnce(before: seq<Event>, after: seq<Event>)
    requires AsksAndReads(before, after, "ForceOff")
    ensures ForcesOffOnce(before, after)
  {
    assert after[|before|] == (before + [Posted("ForceOff")])[|before|];
    assert forall i | 0 <= i < |before| :: after[i] == (before + [Posted("ForceOff")])[i];
  }

  ghost predicate CycledSince(before: seq<Event>, after: seq<Event>) {
    var holds := exists b, c, d :: Cycled(after, |before|, b, c, d);
    holds
  }

  lemma AsksTwice(before: seq<Event>, off: seq<Event>, on: seq<Event>, onType: string)
    requires AsksAndReads(before, off, "ForceOff") && AsksAndReads(off, on, onType) && IsRestore(Posted(onType))
    ensures ForcesOffOnce(before, on)
    ensures SeesLast(before, off, "Off") && SeesLast(off, on, "On") ==> CycledSince(before, on)
  {
    AsksOnce(before, off);
    assert on[|off|] == (off + [Posted(onType)])[|off|];
    assert forall i | 0 <= i < |off| :: on[i] == (off + [Posted(onType)])[i] == off[i];
    if SeesLast(before, off, "Off") && SeesLast(off, on, "On") {
      assert Cycled(on, |before|, |off| - 1, |off|, |on| - 1);
    }
  }

  /** The reset is logged where the log ended, and the wanted state at its end now, at these times. */
  ghost predicate LogsOff(before: seq<Entry>, after: seq<Entry>, target: string, reset: Reset, askedAt: int,
                          seenAt: int)
  {
    var holds :=
      && before <= after && |after| > |before| + 1 && LastObserves(after, "Off") && TakenOn(reset)
      && after[|before|] == ResetEntry(target, "ForceOff", reset) && after[|before|].observedAt == askedAt
      && after[|after| - 1].observedAt == seenAt;
    holds
  }

  ghost predicate LogsOn(before: seq<Entry>, after: seq<Entry>, seenAt: int) {
    var holds :=
      before <= after && |after| > |before| && LastObserves(after, "On") && after[|after| - 1].observedAt == seenAt;
    holds
  }

  lemma LogWitnesses(before: seq<Entry>, off: seq<Entry>, on: seq<Entry>, target: string, reset: Reset, r: Response)
    requires LogsOff(before, off, target, reset, r.acceptedAt, r.powerLostAt) && LogsOn(off, on, r.powerRestoredAt)
    ensures Witnessed(on, r)
  {
    assert on[|before|] == off[|before|] && on[|off| - 1] == off[|off| - 1];
    assert Witnesses(on, r, |before|, |off| - 1, |on| - 1);
  }

  ghost predicate Witnessed(entries: seq<Entry>, r: Response) {
    var holds := exists p, q, t :: Witnesses(entries, r, p, q, t);
    holds
  }

  class Adapter {
    const systemURI: string
    var entries: seq<Entry>
    var archive: Option<(seq<Entry>, bool)>
    ghost var trace: seq<Event>

    constructor (systemURI: string)
      ensures this.systemURI == systemURI && entries == [] && archive == None && trace == []
    {
      this.systemURI := systemURI;
      entries, archive, trace := [], None, [];
    }

    method AppendEvidence(entry: Entry) returns (ok: bool)
      requires GoodLog(entries)
      modifies `entries
      ensures GoodLog(entries)
      ensures Repeats(old(entries), entry) ==> ok && entries == old(entries)
      ensures !Repeats(old(entries), entry) ==> (ok <==> |old(entries)| < MAX_ENTRIES)
      ensures !Repeats(old(entries), entry) ==> entries == old(entries) + if ok then [entry] else []
      ensures (ok <==> Fits(old(entries), entry)) && entries == Appended(old(entries), entry)
    {
      if entries != [] && entry.operation == OBSERVE {
        var previous := entries[|entries| - 1];
        if previous.operation == entry.operation && previous.path == entry.path
           && previous.statusCode == entry.statusCode
           && previous.powerState == entry.powerState && previous.error == entry.error {
          return true;
        }
      }
      if |entries| >= MAX_ENTRIES {
        return false;
      }
      entries := entries + [entry];
      ok := true;
    }

    /** An answered read is in the log afterwards as its last entry, whether it was appended or already there. */
    method GetSystem(poll: Poll) returns (r: Option<System>)
      requires GoodLog(entries)
      modifies `entries, `trace
      ensures GoodLog(entries) && old(entries) <= entries
      ensures trace == old(trace) + if poll.reading.Answered? then [Observed(poll.reading.system.powerState)] else []
      ensures r.Some? ==> poll.reading == Answered(r.value) && LastObserves(entries, r.value.powerState)
      ensures entries == AfterRead(systemURI, old(entries), poll)
      ensures r.Some? <==> poll.reading.Answered? && Fits(old(entries), ReadEntry(systemURI, poll).value)
    {
      match poll.reading {
        case NoAnswer(error) =>
          var _ := AppendEvidence(Entry(poll.at, OBSERVE, systemURI, 0, "", error));
          r := None;
        case BadStatus(code) =>
          var _ := AppendEvidence(Entry(poll.at, OBSERVE, systemURI, code, "", "unexpected HTTP status"));
          r := None;
        case Undecodable =>
          r := None;
        case Answered(system) =>
          var ok := AppendEvidence(Entry(poll.at, OBSERVE, systemURI, 200, system.powerState, ""));
          trace := trace + [Observed(system.powerState)];
          r := if ok then Some(system) else None;
      }
    }

    /** A reset request is always attempted; it is accepted only once its entry is in the log. */
    method PostReset(path: string, resetType: string, reset: Reset) returns (r: Option<int>)
      requires GoodLog(entries)
      modifies `entries, `trace
      ensures GoodLog(entries) && old(entries) <= entries
      ensures trace == old(trace) + [Posted(resetType)]
      ensures r.Some? ==>
                && |entries| == |old(entries)| + 1 && r.value == entries[|entries| - 1].observedAt
                && entries[|entries| - 1].operation == "reset-" + resetType
                && Accepting(entries[|entries| - 1].statusCode)
      ensures entries == Appended(old(entries), ResetEntry(path, resetType, reset))
      ensures r.Some? <==> TakenOn(reset) && |old(entries)| < 512
      ensures r.Some? ==> r.value == reset.at && entries == old(entries) + [ResetEntry(path, resetType, reset)]
    {
      trace := trace + [Posted(resetType)];
      assert ("reset-" + resetType)[0] == 'r';
      if reset.Lost? {
        var _ := AppendEvidence(Entry(reset.at, "reset-" + resetType, path, 0, "", reset.error));
        return None;
      }
      var ok := AppendEvidence(Entry(reset.at, "reset-" + resetType, path, reset.code, "", ""));
      if !ok || !Accepting(reset.code) {
        return None;
      }
      r := Some(reset.at);
    }

    /** The polling loop; the polls given are those made before the context ends. */
    method WaitPowerState(want: string, polls: seq<Poll>) returns (r: Option<int>)
      requires GoodLog(entries)
      modifies `entries, `trace
      ensures GoodLog(entries) && old(entries) <= entries
      ensures OnlyReads(old(trace), trace)
      ensures r.Some? ==> LastObserves(entries, want) && r.value == entries[|entries| - 1].observedAt
      ensures r.Some? ==> |trace| > |old(trace)| && trace[|trace| - 1] == Observed(want)
      ensures Waited(systemURI, old(entries), want, polls, r.Some?, entries)
    {
      for i := 0 to |polls|
        invariant GoodLog(entries) && old(entries) <= entries
        invariant OnlyReads(old(trace), trace)
        invariant entries == AfterReads(systemURI, old(entries), polls[..i])
        invariant Unseen(systemURI, old(entries), want, polls, i)
      {
        ReadsOn(systemURI, old(entries), polls, i);
        ghost var before := trace;
        var system := GetSystem(polls[i]);
        ReadsMore(old(trace), before, trace);
        if system.Some? && system.value.powerState == want {
          WaitedEnough(systemURI, old(entries), want, polls, i);
          return Some(entries[|entries| - 1].observedAt);
        }
        UnseenOn(systemURI, old(entries), want, polls, i);
      }
      WaitedInVain(systemURI, old(entries), want, polls);
      r := None;
    }

    /** Asks for the forced power-off and waits until it is seen. */
    method SwitchOff(env: Environment, target: string) returns (r: Option<(int, int)>)
      requires GoodLog(entries)
      modifies `entries, `trace
      ensures GoodLog(entries) && old(entries) <= entries
      ensures AsksAndReads(old(trace), trace, "ForceOff") && (r.Some? ==> SeesLast(old(trace), trace, "Off"))
      ensures r.Some? ==> LogsOff(old(entries), entries, target, env.off, r.value.0, r.value.1)
      ensures r.Some? ==>
                && TakenOn(env.off) && |old(entries)| < 512
                && Waited(systemURI, old(entries) + [ResetEntry(target, "ForceOff", env.off)], "Off", env.offPolls,
                          true, entries)
      ensures r.None? ==> forall onType :: !CycleSucceeds(systemURI, old(entries), env, target, onType)
    {
      ghost var was := entries;
      var accepted := PostReset(target, "ForceOff", env.off);
      if accepted.None? {
        return None;
      }
      assert entries[|was|].operation == "reset-ForceOff" && ("reset-ForceOff")[0] == 'r';
      var lost := WaitPowerState("Off", env.offPolls);
      if lost.None? {
        forall onType ensures !CycleSucceeds(systemURI, was, env, target, onType) {
          NotSeenOff(systemURI, was, env, target, onType, entries);
        }
        return None;
      }
      r := Some((accepted.value, lost.value));
    }

    /** Asks for power again and waits until it is seen. */
    method SwitchOn(env: Environment, target: string, onType: string) returns (r: Option<int>)
      requires GoodLog(entries) && IsRestore(Posted(onType))
      modifies `entries, `trace
      ensures GoodLog(entries) && old(entries) <= entries
      ensures AsksAndReads(old(trace), trace, onType) && (r.Some? ==> SeesLast(old(trace), trace, "On"))
      ensures r.Some? ==> LogsOn(old(entries), entries, r.value)
      ensures r.Some? <==> ComesBack(systemURI, old(entries), env, target, onType)
    {
      ghost var was := entries;
      var asked := PostReset(target, onType, env.on);
      if asked.None? {
        return None;
      }
      r := WaitPowerState("On", env.onPolls);
      OnDecides(systemURI, was, env, target, onType, r.Some?, entries);
    }

    /** The steps after `offIssued` is set, up to the observation that power is back. */
    method Cycle(env: Environment, target: string, onType: string) returns (r: Option<Response>)
      requires GoodLog(entries) && IsRestore(Posted(onType))
      modifies `entries, `trace
      ensures GoodLog(entries) && old(entries) <= entries && ForcesOffOnce(old(trace), trace)
      ensures r.Some? ==> CycledSince(old(trace), trace) && Witnessed(entries, r.value)
      ensures r.Some? <==> CycleSucceeds(systemURI, old(entries), env, target, onType)
    {
      ghost var began, was := trace, entries;
      var off := SwitchOff(env, target);
      AsksOnce(began, trace);
      if off.None? {
        return None;
      }
      OffDecides(systemURI, was, env, target, onType, entries);
      ghost var wentOff, seen := trace, entries;
      var on := SwitchOn(env, target, onType);
      AsksTwice(began, wentOff, trace, onType);
      if on.None? {
        return None;
      }
      r := Some(Response(off.value.0, off.value.1, on.value));
      LogWitnesses(was, seen, entries, target, env.off, r.value);
    }

    /** An exclusive create: only the first write of a run can leave a file. */
    method WriteEvidence(successful: bool, succeeds: bool) returns (ok: bool)
      modifies `archive
      ensures ok <==> succeeds && old(archive) == None
      ensures archive == if ok then Some((entries, successful)) else old(archive)
    {
      ok := succeeds && archive == None;
      if ok {
        archive := Some((entries, successful));
      }
    }

    /** The deferred restoration after a cycle that failed, and the evidence of it. */
    method RestorePower(env: Environment, target: string, onType: string, ghost before: nat)
      requires GoodLog(entries) && IsRestore(Posted(onType)) && before < |trace| && archive == None
      requires forall i | 0 <= i < |trace| && trace[i] == Posted("ForceOff") :: i == before
      modifies `entries, `trace, `archive
      ensures GoodLog(entries) && AlwaysRestored(trace)
      ensures archive.Some? ==> archive.value == (entries, false)
    {
      ghost var cycled := trace;
      var _ := PostReset(target, onType, env.restore);
      var _ := WaitPowerState("On", env.restorePolls);
      ReadsRestore(cycled, trace, before, onType);
      var _ := WriteEvidence(false, env.deferredWriteSucceeds);
    }

    /**
     The whole command. Whatever the machine and the disk do: a forced power-off is followed by an
     attempt to restore power; success means that the machine was seen off and then on again, in that
     order, after the forced power-off, and that the returned times are those of the logged entries;
     and on failure the archived evidence, if any, includes the restoration.
     */
    method ExecutePowerCycle(env: Environment, approvedSHA256: string, safe: string -> bool)
      returns (r: Option<Response>)
      requires entries == [] && trace == [] && archive == None
      modifies `entries, `trace, `archive
      ensures GoodLog(entries) && AlwaysRestored(trace)
      ensures r.Some? ==> exists a, b, c, d :: Cycled(trace, a, b, c, d)
      ensures r.Some? ==> exists p, q, t :: Witnesses(entries, r.value, p, q, t)
      ensures r.Some? ==> archive == Some((entries, true))
      ensures archive.Some? ==> archive.value.0 == entries
      ensures archive.Some? && archive.value.1 ==> exists a, b, c, d :: Cycled(trace, a, b, c, d)
      ensures r.Some? <==> Succeeds(env, approvedSHA256, safe)
    {
      if env.outputExists {
        return None;
      }
      var first := GetSystem(env.first);
      var onType, ready := CheckTarget(first, approvedSHA256, safe);
      if !ready {
        var _ := WriteEvidence(false, env.deferredWriteSucceeds);
        return None;
      }
      ghost var before := |trace|;
      r := Cycle(env, first.value.target, onType);
      if r.None? {
        RestorePower(env, first.value.target, onType, before);
        return None;
      }
      SucceededIsRestored(trace, before);
      var ok := WriteEvidence(true, env.writeSucceeds);
      if !ok {
        var _ := WriteEvidence(true, env.deferredWriteSucceeds);
        r := None;
      }
    }

    /** The approved machine, on, with its own safe reset action that can force it off and switch it on again. */
    predicate Switchable(system: System, approvedSHA256: string, safe: string -> bool) {
      && system.targetSHA256 == approvedSHA256 && system.powerState == "On"
      && system.target == systemURI + "/Actions/ComputerSystem.Reset" && safe(system.target)
      && "ForceOff" in system.allowable && ("On" in system.allowable || "ForceOn" in system.allowable)
    }

    /**
     No earlier evidence is in the way, the first reading shows the approved machine ready to be switched,
     the cycle succeeds from there, and the evidence is written.
     */
    ghost predicate Succeeds(env: Environment, approvedSHA256: string, safe: string -> bool) {
      && !env.outputExists && env.first.reading.Answered?
      && var system := env.first.reading.system;
      && Switchable(system, approvedSHA256, safe) && env.writeSucceeds
      && CycleSucceeds(systemURI, AfterRead(systemURI, [], env.first), env, system.target, OnTypeOf(system))
    }

    /** The checks before anything is switched: identity, initial state, and an advertised, safe reset action. */
    method CheckTarget(system: Option<System>, approvedSHA256: string, safe: string -> bool)
      returns (onType: string, ready: bool)
      ensures ready <==> system.Some? && Switchable(system.value, approvedSHA256, safe)
      ensures ready ==> onType in system.value.allowable && IsRestore(Posted(onType))
      ensures ready ==> onType == OnTypeOf(system.value)
    {
      onType := "On";
      if system.None? || system.value.targetSHA256 != approvedSHA256 || system.value.powerState != "On" {
        return onType, false;
      }
      var action := system.value;
      if action.target != systemURI + "/Actions/ComputerSystem.Reset" || !safe(action.target)
         || "ForceOff" !in action.allowable {
        return onType, false;
      }
      if onType !in action.allowable {
        onType := "ForceOn";
      }
      ready := onType in action.allowable;
    }
  }

  /** A restoration and reads after the only forced power-off. */
  lemma ReadsRestore(before: seq<Event>, after: seq<Event>, off: nat, onType: string)
    requires off < |before| && AsksAndReads(before, after, onType) && IsRestore(Posted(onType))
    requires forall i | 0 <= i < |before| && before[i] == Posted("ForceOff") :: i == off
    ensures AlwaysRestored(after)
  {
    assert after[|before|] == Posted(onType);
    assert forall i | 0 <= i < |before| :: after[i] == before[i];
    RestoredAtEnd(after, off, |before|);
  }

  lemma RestoredAtEnd(trace: seq<Event>, before: nat, j: nat)
    requires before < j < |trace| && IsRestore(trace[j])
    requires forall i | 0 <= i < |trace| && trace[i] == Posted("ForceOff") :: i < j
    ensures AlwaysRestored(trace)
  {
    forall i | 0 <= i < |trace| && trace[i] == Posted("ForceOff") ensures RestoredAfter(trace, i) {
      assert i < j < |trace| && IsRestore(trace[j]);
    }
  }

  lemma SucceededIsRestored(trace: seq<Event>, before: nat)
    requires exists b, c, d :: Cycled(trace, before, b, c, d)
    requires forall i | 0 <= i < |trace| && trace[i] == Posted("ForceOff") :: i == before
    ensures AlwaysRestored(trace)
  {
    var b, c, d :| Cycled(trace, before, b, c, d);
    RestoredAtEnd(trace, before, c);
  }
}
