/**
 Reservations of the history agent: what is executed was reserved durably, in every run; and exactly
 how long a reservation fixes the run and the request of its operation.
 */
module AgentReservations {

  import opened HistoryWire
  import opened Options
  import opened AgentProtocol
  import opened AgentSafety
  import opened AgentRuns
  import opened AgentTheorems

  // ---------------------------------------------------------------------------------------
  // A running handler remembers only reservations that are on disk for good.
  // ---------------------------------------------------------------------------------------

  ghost predicate Remembers(m: Memory, j: Journal, reserved: set<Request>) {
    var holds :=
      && (forall op | op in m.digests ::
            && m.digests[op].Sha256? && m.digests[op].request.operationID == op
            && m.digests[op].request in reserved && Reserved(j, m.digests[op].request))
      && (if m.runID == "" then m.digests == map[] else Bound(j, m.runID));
    holds
  }

  ghost predicate Ready(s: State) {
    (s.up ==> Remembers(s.memory, s.journal, s.reserved)) && forall q | q in s.executed :: q in s.reserved
  }

  lemma RemembersKept(m: Memory, m': Memory, j: Journal, j': Journal, reserved: set<Request>, reserved': set<Request>)
    requires Remembers(m, j, reserved) && Keeps(j, j') && reserved <= reserved'
    requires m'.digests == m.digests && m'.runID == m.runID
    ensures Remembers(m', j', reserved')
  {
    forall op | op in m'.digests ensures Reserved(j', m'.digests[op].request) {
      assert Reserved(j, m.digests[op].request);
    }
  }

  lemma RemembersReserved(m: Memory, m': Memory, j: Journal, j': Journal, reserved: set<Request>, q: Request)
    requires Remembers(m, j, reserved) && Keeps(j, j') && Reserved(j', q) && q.runID != ""
    requires m'.digests == m.digests[q.operationID := Sha256(q)] && m'.runID == q.runID
    ensures Remembers(m', j', reserved + {q})
  {
    forall op | op in m'.digests && op != q.operationID ensures Reserved(j', m'.digests[op].request) {
      assert Reserved(j, m.digests[op].request);
    }
  }

  /** A first section that reserves or fails to. */
  lemma BindsReady(c: Config, m: Memory, j: Journal, t: nat, q: Request, m': Memory, j': Journal, d: Decision,
                   reserved: set<Request>)
    requires BindsAndReserves(c, m, j, t, q, m', j', d) && (m.runID == "" || m.runID == q.runID) && q.runID != ""
    requires Remembers(m, j, reserved) && Keeps(j, j')
    ensures d == Proceed ==> Reserved(j', q) && m'.runID == q.runID
    ensures Remembers(m', j', if d == Proceed then reserved + {q} else reserved)
  {
    if d == Proceed {
      assert Lookup(j'.requests, q.operationID) == Some(Complete(q, true));
      RemembersReserved(m, m', j, j', reserved, q);
    } else if m'.runID == m.runID {
      RemembersKept(m, m', j, j', reserved, reserved);
    }
  }

  lemma SectionReady(c: Config, m: Memory, j: Journal, t: nat, q: Request, m': Memory, j': Journal, d: Decision,
                     reserved: set<Request>)
    requires FirstSection(c, m, j, t, q, m', j', d) && Remembers(m, j, reserved) && q.runID != ""
    ensures Remembers(m', j', if d == Proceed then reserved + {q} else reserved)
    ensures d == Proceed ==> Reserved(j', q) && m'.runID == q.runID
  {
    SectionKeepsFiles(c, m, j, t, q, m', j', d);
    if j' == j && m'.digests == m.digests && m'.runID == m.runID {
      RemembersKept(m, m', j, j', reserved, if d == Proceed then reserved + {q} else reserved);
      if d == Proceed {
        assert Reserved(j, m.digests[q.operationID].request);
      }
    } else {
      BindsReady(c, m, j, t, q, m', j', d, reserved);
    }
  }

  lemma DecideReady(s: State, t: nat, m: Memory, j: Journal, d: Decision, s': State)
    requires Locks(s) && Ready(s) && Decides(s, t, m, j, d, s')
    ensures Ready(s')
  {
    assert GoodThread(s.memory, t, s.threads[t]);
    SectionReady(s.config, s.memory, s.journal, t, s.threads[t].request, m, j, d, s.reserved);
  }

  /** A result is written beside the reservations. */
  lemma PersistReady(s: State, t: nat, files: map<string, File<Fragment>>, ok: bool, s': State)
    requires Ready(s) && PersistsResult(s, t, files, ok, s')
    ensures Ready(s')
  {
    forall op | op in s.memory.digests ensures Reserved(s'.journal, s.memory.digests[op].request) {
      assert Reserved(s.journal, s.memory.digests[op].request);
    }
  }

  lemma ExecuteReady(s: State, a: Step, s': State)
    requires Locks(s) && Ready(s) && Next(s, a, s') && a.Execute?
    ensures Ready(s')
    ensures var q := s.threads[a.thread].request;
            q in s.reserved && Reserved(s.journal, q) && s'.executed == s.executed + [q]
  {
    var th := s.threads[a.thread];
    assert GoodThread(s.memory, a.thread, th);
    assert s.memory.digests[th.request.operationID].request == th.request;
  }

  lemma RestartReady(s: State, c: Config, m: Memory, s': State)
    requires Ready(s) && Restarts(s, c, m, s')
    ensures Ready(s')
  {
    LoadBacks(c, s.journal, m);
    forall op | op in m.digests ensures Reserved(s'.journal, m.digests[op].request) {
      assert m.digests[op].request in Reservations(m);
    }
  }

  lemma OtherReady(s: State, a: Step, s': State)
    requires Ready(s) && Next(s, a, s')
    requires a.Call? || a.End? || a.Wake? || a.Cancel? || a.Reread? || a.Crash? || a.LosePower?
    ensures Ready(s')
  {
  }

  lemma NextReady(s: State, a: Step, s': State)
    requires Locks(s) && Ready(s) && Next(s, a, s')
    ensures Ready(s')
  {
    match a
    case Decide(t, m, j, d) => DecideReady(s, t, m, j, d, s');
    case Execute(_, _, _, _, _) => ExecuteReady(s, a, s');
    case PersistResult(t, files, ok) => PersistReady(s, t, files, ok, s');
    case Restart(c, m) => RestartReady(s, c, m, s');
    case _ => OtherReady(s, a, s');
  }

  lemma {:induction false} RunReady(states: seq<State>, steps: seq<Step>, k: nat)
    requires IsRun(states, steps) && k < |states|
    ensures Locks(states[k]) && Ready(states[k])
  {
    RunLocks(states, steps, k);
    if k == 0 {
    } else {
      RunReady(states, steps, k - 1);
      NextReady(states[k - 1], steps[k - 1], states[k]);
    }
  }

  /** In every run, every call of the executor follows a durable reservation of exactly the request it executes. */
  lemma ExecutionFollowsReservation(states: seq<State>, steps: seq<Step>, k: nat)
    requires IsRun(states, steps) && k < |steps| && steps[k].Execute?
    ensures steps[k].thread in states[k].threads
    ensures var q := states[k].threads[steps[k].thread].request;
            && q in states[k].reserved && Reserved(states[k].journal, q)
            && states[k + 1].executed == states[k].executed + [q]
  {
    RunReady(states, steps, k);
    assert Next(states[k], steps[k], states[k + 1]);
    ExecuteReady(states[k], steps[k], states[k + 1]);
  }

  // ---------------------------------------------------------------------------------------
  // What one step without a power loss does to reservations, run and request files.
  // ---------------------------------------------------------------------------------------

  /** A complete identity file with this run. */
  ghost predicate Names(j: Journal, run: string) {
    j.identity.Some? && j.identity.value.Complete? && j.identity.value.content.runID == run
  }

  /** The request is in the journal, whether or not its write was reported. */
  ghost predicate Filed(j: Journal, q: Request) {
    q.operationID in j.requests && j.requests[q.operationID].Complete? && j.requests[q.operationID].content == q
  }

  ghost predicate Admits(reserved: set<Request>, reserved': set<Request>, up': bool, m': Memory, j': Journal) {
    var holds :=
      && reserved <= reserved'
      && forall q | q in reserved' && q !in reserved :: up' && q.runID == m'.runID != "" && Reserved(j', q);
    holds
  }

  ghost predicate KeepsRun(up: bool, m: Memory, j: Journal, up': bool, m': Memory, j': Journal) {
    var holds :=
      && (up' && up ==> m'.runID == m.runID || m.runID == "")
      && (up' && !up ==> j == EMPTY_JOURNAL || Bound(j', m'.runID))
      && (forall run :: Names(j', run) ==> Names(j, run) || (up && m.runID == ""));
    holds
  }

  ghost predicate KeepsFiles(j: Journal, j': Journal) {
    var holds :=
      && (forall q :: Filed(j, q) ==> Filed(j', q))
      && (j != EMPTY_JOURNAL ==> j' != EMPTY_JOURNAL);
    holds
  }

  ghost predicate Carries(s: State, s': State) {
    && Admits(s.reserved, s'.reserved, s'.up, s'.memory, s'.journal)
    && KeepsRun(s.up, s.memory, s.journal, s'.up, s'.memory, s'.journal)
    && KeepsFiles(s.journal, s'.journal)
  }

  lemma WriteFiles(j: Journal, q: Request, ok: bool, j': Journal)
    requires WritesAt(j.requests, q.operationID, q, ok, j'.requests)
             && (j'.identity == j.identity || j.identity == None)
    requires j'.results == j.results && (j'.identity == None ==> j.identity == None)
    ensures KeepsFiles(j, j')
  {
    forall p | Filed(j, p) ensures Filed(j', p) {
      assert p.operationID == q.operationID ==> Lookup(j.requests, q.operationID) != None;
    }
    if j' == EMPTY_JOURNAL {
      assert j.requests == map[];
    }
  }

  lemma SectionFiles(c: Config, m: Memory, j: Journal, t: nat, q: Request, m': Memory, j': Journal, d: Decision)
    requires FirstSection(c, m, j, t, q, m', j', d)
    ensures KeepsFiles(j, j') && KeepsRun(true, m, j, true, m', j')
  {
    if j' == j {
    } else if j'.requests == j.requests {
    } else {
      WriteFiles(j, q, d == Proceed, j');
    }
  }

  lemma DecideCarries(s: State, t: nat, m: Memory, j: Journal, d: Decision, s': State)
    requires Locks(s) && Ready(s) && Decides(s, t, m, j, d, s')
    ensures Carries(s, s')
  {
    assert GoodThread(s.memory, t, s.threads[t]);
    SectionReady(s.config, s.memory, s.journal, t, s.threads[t].request, m, j, d, s.reserved);
    SectionFiles(s.config, s.memory, s.journal, t, s.threads[t].request, m, j, d);
  }

  lemma RestartCarries(s: State, c: Config, m: Memory, s': State)
    requires Restarts(s, c, m, s')
    ensures Carries(s, s')
  {
    LoadBacks(c, s.journal, m);
    forall q | q in Reservations(m) ensures q.runID == m.runID != "" && Reserved(s'.journal, q) {
      var op :| op in m.digests && m.digests[op].Sha256? && m.digests[op].request == q;
      assert LoadsRequest(c, m.runID, op, s.journal.requests[op]);
    }
    SettlingFiles(s.journal);
  }

  lemma SettlingFiles(j: Journal)
    ensures KeepsFiles(j, SettleAll(j)) && forall run :: Names(SettleAll(j), run) <==> Names(j, run)
  {
    if j.requests != map[] {
      var name :| name in j.requests;
      assert name in SettleAll(j).requests;
    }
    if j.results != map[] {
      var name :| name in j.results;
      assert name in SettleAll(j).results;
    }
  }

  lemma OtherCarries(s: State, a: Step, s': State)
    requires Next(s, a, s')
    requires a.Call? || a.End? || a.Wake? || a.Cancel? || a.Reread? || a.Crash? || a.Execute? || a.PersistResult?
    ensures Carries(s, s')
  {
    if a.PersistResult? && s'.journal == EMPTY_JOURNAL {
      assert s.journal.results == map[];
    }
  }

  lemma NextCarries(s: State, a: Step, s': State)
    requires Locks(s) && Ready(s) && Next(s, a, s') && !a.LosePower?
    ensures Carries(s, s')
  {
    match a
    case Decide(t, m, j, d) => DecideCarries(s, t, m, j, d, s');
    case Restart(c, m) => RestartCarries(s, c, m, s');
    case _ => OtherCarries(s, a, s');
  }

  // ---------------------------------------------------------------------------------------
  // One run.
  // ---------------------------------------------------------------------------------------

  /** Everything reserved belongs to this run, and nothing on disk or in memory names another. */
  ghost predicate InRun(s: State, run: string) {
    && run != "" && (forall q | q in s.reserved :: q.runID == run) && (forall r :: Names(s.journal, r) ==> r == run)
    && (s.up ==> s.memory.runID == run) && s.journal != EMPTY_JOURNAL
  }

  ghost predicate Single(s: State) {
    var holds := forall q | q in s.reserved :: InRun(s, q.runID);
    holds
  }

  lemma CarriesSingle(s: State, s': State)
    requires Single(s) && Carries(s, s')
    ensures Single(s')
  {
    forall q | q in s'.reserved ensures InRun(s', q.runID) {
      if s.reserved == {} {
        FirstInRun(s, s', q);
      } else {
        var p :| p in s.reserved;
        StaysInRun(s, s', p.runID);
      }
    }
  }

  lemma FirstInRun(s: State, s': State, q: Request)
    requires s.reserved == {} && Carries(s, s') && q in s'.reserved
    ensures InRun(s', q.runID)
  {
    assert Reserved(s'.journal, q);
  }

  lemma StaysInRun(s: State, s': State, run: string)
    requires InRun(s, run) && Carries(s, s')
    ensures InRun(s', run)
  {
    if s'.up {
      assert s'.memory.runID == run by {
        assert !s.up ==> Names(s'.journal, s'.memory.runID);
      }
    }
  }

  /** A power loss that leaves something in the directory once an operation has been reserved. */
  ghost predicate LeavesFiles(s: State, a: Step) {
    a.LosePower? && s.reserved != {} ==> a.journal != EMPTY_JOURNAL
  }

  lemma PowerLossSingle(s: State, a: Step, s': State)
    requires Single(s) && Next(s, a, s') && a.LosePower? && LeavesFiles(s, a)
    ensures Single(s')
  {
    forall q | q in s'.reserved ensures InRun(s', q.runID) {
      assert InRun(s, q.runID);
      assert forall r :: Names(s'.journal, r) ==> Names(s.journal, r);
    }
  }

  lemma NextSingle(s: State, a: Step, s': State)
    requires Locks(s) && Ready(s) && Single(s) && Next(s, a, s') && LeavesFiles(s, a)
    ensures Single(s')
  {
    if a.LosePower? {
      PowerLossSingle(s, a, s');
    } else {
      NextCarries(s, a, s');
      CarriesSingle(s, s');
    }
  }

  ghost predicate NeverEmptied(states: seq<State>, steps: seq<Step>, n: nat)
    requires |steps| <= |states|
  {
    forall k | 0 <= k < n && k < |steps| :: LeavesFiles(states[k], steps[k])
  }

  lemma {:induction false} RunSingle(states: seq<State>, steps: seq<Step>, k: nat)
    requires IsRun(states, steps) && k < |states| && NeverEmptied(states, steps, k)
    ensures Single(states[k])
  {
    if k == 0 {
    } else {
      RunSingle(states, steps, k - 1);
      RunReady(states, steps, k - 1);
      NextSingle(states[k - 1], steps[k - 1], states[k]);
    }
  }

  /**
   Over all crashes, power losses and restarts every reservation belongs to one run, provided that no
   power loss leaves the directory empty after a reservation. Only reserved requests are executed.
   */
  lemma OneRun(states: seq<State>, steps: seq<Step>)
    requires IsRun(states, steps) && NeverEmptied(states, steps, |steps|)
    ensures forall q, q' | q in Last(states).reserved && q' in Last(states).reserved :: q.runID == q'.runID
    ensures forall q | q in Last(states).executed :: q in Last(states).reserved
  {
    RunSingle(states, steps, |steps|);
    RunReady(states, steps, |steps|);
    forall q, q' | q in Last(states).reserved && q' in Last(states).reserved ensures q.runID == q'.runID {
      assert InRun(Last(states), q.runID);
    }
  }

  /** No continuation without a power loss reserves a request of another run. */
  ghost predicate RunStands(states: seq<State>, steps: seq<Step>, run: string)
    requires states != []
  {
    forall states', steps' {:trigger Extends(states, steps, states', steps')} |
      IsRun(states', steps') && Extends(states, steps, states', steps') ::
      forall q | q in Last(states').reserved :: q.runID == run
  }

  /** An agent with an empty directory binds whatever run comes first. */
  lemma EmptyDirectoryRebinds(states: seq<State>, steps: seq<Step>, c: Config, p: Request, now: int)
    returns (states': seq<State>, steps': seq<Step>)
    requires IsRun(states, steps) && Last(states).journal == EMPTY_JOURNAL && Acceptable(c, p) && ValidAt(p, now)
    ensures IsRun(states', steps') && ExtendsFrom(states, steps, states', steps', now)
    ensures Last(states').reserved == Last(states).reserved + {p}
  {
    var states1, steps1 := Stops(states, steps, now);
    assert SettleAll(EMPTY_JOURNAL) == EMPTY_JOURNAL && Reservations(FRESH) == {};
    var states2, steps2 := StartsAndIsCalled(states1, steps1, c, FRESH, p, now);
    states', steps' := Begins(states2, steps2, Last(states1).nextThread, p, now);
    ExtendsTransitive(states, steps, states1, steps1, states2, steps2, now);
    ExtendsTransitive(states, steps, states2, steps2, states', steps', now);
  }

  lemma ExtensionNeverEmptied(states: seq<State>, steps: seq<Step>, states': seq<State>, steps': seq<Step>)
    requires IsRun(states, steps) && IsRun(states', steps') && Extends(states, steps, states', steps')
    requires steps != [] && NeverEmptied(states, steps, |steps| - 1) && Last(states).journal != EMPTY_JOURNAL
    ensures NeverEmptied(states', steps', |steps'|)
  {
    var n := |steps| - 1;
    assert Next(states[n], steps[n], states[n + 1]);
    forall k | 0 <= k < |steps'| ensures LeavesFiles(states'[k], steps'[k]) {
      if k < n {
        assert states'[k] == states[k] && steps'[k] == steps[k];
        assert LeavesFiles(states[k], steps[k]);
      } else if k == n {
        assert states'[k] == states[k] && steps'[k] == steps[k];
      }
    }
  }

  /**
   Once an operation is reserved, its run stands until the next power loss if and only if the
   directory is not empty: from an empty one some continuation reserves in another run.
   */
  lemma RunStandsIffNotEmpty(states: seq<State>, steps: seq<Step>, q: Request, c: Config, p: Request, now: int)
    requires IsRun(states, steps) && steps != [] && NeverEmptied(states, steps, |steps| - 1)
    requires q in Last(states).reserved && Acceptable(c, p) && ValidAt(p, now) && p.runID != q.runID
    ensures RunStands(states, steps, q.runID) <==> Last(states).journal != EMPTY_JOURNAL
  {
    if Last(states).journal == EMPTY_JOURNAL {
      var states', steps' := EmptyDirectoryRebinds(states, steps, c, p, now);
      assert Extends(states, steps, states', steps') && p in Last(states').reserved;
    } else {
      forall states', steps' | IsRun(states', steps') && Extends(states, steps, states', steps')
        ensures forall x | x in Last(states').reserved :: x.runID == q.runID
      {
        ExtensionNeverEmptied(states, steps, states', steps');
        OneRun(states', steps');
        assert states'[|steps|] == states[|steps|];
        HistoryOnlyGrows(states', steps', |steps|, |steps'|);
      }
    }
  }

  // ---------------------------------------------------------------------------------------
  // The condition can fail: identity and request may both be files whose writes reported errors.
  // ---------------------------------------------------------------------------------------

  ghost function Bare(c: Config, run: string, settled: bool): Journal {
    Journal(Some(Complete(IdentityOf(c, run), settled)), map[], map[])
  }

  ghost function WithRequest(c: Config, q: Request, settled: bool): Journal {
    Journal(Some(Complete(IdentityOf(c, q.runID), true)), map[q.operationID := Complete(q, settled)], map[])
  }

  ghost predicate Down(s: State, j: Journal, r: ReadBack, reserved: set<Request>) {
    !s.up && s.journal == j && s.readBack == r && s.reserved == reserved
  }

  /** A started and called agent whose first section fails, leaving this journal, and which then stops. */
  lemma FailsAndStops(states0: seq<State>, steps0: seq<Step>, n: nat, q: Request, j: Journal, m: Memory, now: int)
    returns (states: seq<State>, steps: seq<Step>)
    requires IsRun(states0, steps0)
    requires var s := Last(states0);
             && s.up && s.threads == map[n := Entered(q)]
             && FirstSection(s.config, s.memory, s.journal, n, q, m, j, Refuse)
    ensures IsRun(states, steps) && Down(Last(states), j, Last(states0).readBack, Last(states0).reserved)
  {
    var s := Last(states0);
    var s' := s.(memory := m, journal := j, threads := map[]);
    assert s.threads - {n} == map[];
    assert Decides(s, n, m, j, Refuse, s');
    states, steps := Then(states0, steps0, Decide(n, m, j, Refuse), s', now);
    assert Crashes(s', Stopped(s'));
    states, steps := Then(states, steps, Crash, Stopped(s'), now);
  }

  /** The identity is written completely, but its write reports an error. */
  lemma UnsyncedIdentity(c: Config, q: Request, now: int) returns (states: seq<State>, steps: seq<Step>)
    requires Acceptable(c, q) && ValidAt(q, now)
    ensures IsRun(states, steps) && Down(Last(states), Bare(c, q.runID, false), NOTHING_READ, {})
  {
    var s0 := State(false, c, FRESH, map[], 0, EMPTY_JOURNAL, NOTHING_READ, [], {}, [], [], true);
    states, steps := [s0], [];
    states, steps := StartsAndIsCalled(states, steps, c, FRESH, q, now);
    assert Reservations(FRESH) == {} && SettleAll(EMPTY_JOURNAL) == EMPTY_JOURNAL;
    assert AlsoReading(NOTHING_READ, EMPTY_JOURNAL) == NOTHING_READ;
    assert FirstSection(c, FRESH, EMPTY_JOURNAL, 0, q, FRESH, Bare(c, q.runID, false), Refuse);
    states, steps := FailsAndStops(states, steps, 0, q, Bare(c, q.runID, false), FRESH, now);
  }

  /** A restart reads it back; then the request is written, and its write reports an error as well. */
  lemma UnsyncedRequest(states0: seq<State>, steps0: seq<Step>, c: Config, q: Request, now: int)
    returns (states: seq<State>, steps: seq<Step>)
    requires IsRun(states0, steps0) && Acceptable(c, q) && ValidAt(q, now)
    requires Down(Last(states0), Bare(c, q.runID, false), NOTHING_READ, {})
    ensures IsRun(states, steps) && Down(Last(states), WithRequest(c, q, false), ReadBack(true, {}, {}), {})
  {
    var m, n := Memory(q.runID, map[], map[], map[]), Last(states0).nextThread;
    BareLoads(c, q.runID, m);
    states, steps := StartsAndIsCalled(states0, steps0, c, m, q, now);
    RequestFails(c, q, m, n);
    states, steps := FailsAndStops(states, steps, n, q, WithRequest(c, q, false), m, now);
  }

  lemma BareLoads(c: Config, run: string, m: Memory)
    requires IsLowerHex(run, 16) && m == Memory(run, map[], map[], map[])
    ensures Loads(c, Bare(c, run, false), m) && Reservations(m) == {}
    ensures SettleAll(Bare(c, run, false)) == Bare(c, run, true)
    ensures AlsoReading(NOTHING_READ, Bare(c, run, false)) == ReadBack(true, {}, {})
  {
    var j := Bare(c, run, false);
    assert Unsettled(j.requests) == {} && Unsettled(j.results) == {};
  }

  lemma RequestFails(c: Config, q: Request, m: Memory, n: nat)
    requires m == Memory(q.runID, map[], map[], map[]) && q.runID != ""
    ensures FirstSection(c, m, Bare(c, q.runID, true), n, q, m, WithRequest(c, q, false), Refuse)
  {
    assert WritesAt(Bare(c, q.runID, true).requests, q.operationID, q, false, WithRequest(c, q, false).requests);
  }

  /** The next restart reads back the request, which thereby is reserved. */
  lemma ReadsBack(states0: seq<State>, steps0: seq<Step>, c: Config, q: Request)
    returns (states: seq<State>, steps: seq<Step>)
    requires IsRun(states0, steps0) && Acceptable(c, q)
    requires Down(Last(states0), WithRequest(c, q, false), ReadBack(true, {}, {}), {})
    ensures IsRun(states, steps) && Last(states).reserved == {q} && Last(states).journal == WithRequest(c, q, true)
    ensures Last(states).readBack == ReadBack(true, {q.operationID}, {})
  {
    var a, s := RestartReadsBack(Last(states0), c, q);
    states, steps := Then(states0, steps0, a, s, 0);
  }

  lemma RestartReadsBack(s: State, c: Config, q: Request) returns (a: Step, s': State)
    requires Acceptable(c, q) && Down(s, WithRequest(c, q, false), ReadBack(true, {}, {}), {})
    ensures Next(s, a, s') && s'.reserved == {q} && s'.journal == WithRequest(c, q, true)
    ensures s'.readBack == ReadBack(true, {q.operationID}, {})
  {
    var m := Memory(q.runID, map[], Digests(q), map[]);
    RequestLoads(c, q, m);
    RequestSettles(c, q);
    a := Restart(c, m);
    s' := s.(up := true, config := c, memory := m, threads := map[], reserved := s.reserved + Reservations(m),
             journal := SettleAll(s.journal), readBack := AlsoReading(s.readBack, s.journal));
    assert Restarts(s, c, m, s');
  }

  /** Then a power loss empties the directory. */
  lemma IsEmptied(states0: seq<State>, steps0: seq<Step>, c: Config, q: Request)
    returns (states: seq<State>, steps: seq<Step>)
    requires IsRun(states0, steps0) && Last(states0).journal == WithRequest(c, q, true)
    requires Last(states0).readBack == ReadBack(true, {q.operationID}, {})
    ensures IsRun(states, steps) && Last(states).reserved == Last(states0).reserved
    ensures Last(states).journal == EMPTY_JOURNAL
  {
    var s := Last(states0);
    EverythingMayGo(c, q, s.readBack);
    var s' := Stopped(s).(journal := EMPTY_JOURNAL, readBack := NOTHING_READ,
                          clean := s.clean && SurvivesPowerLoss(s.journal, NOTHING_READ, EMPTY_JOURNAL));
    assert LosesPower(s, EMPTY_JOURNAL, s');
    states, steps := Then(states0, steps0, LosePower(EMPTY_JOURNAL), s', 0);
  }

  lemma RequestLoads(c: Config, q: Request, m: Memory)
    requires Acceptable(c, q) && m == Memory(q.runID, map[], Digests(q), map[])
    ensures Loads(c, WithRequest(c, q, false), m) && Reservations(m) == {q}
  {
    var j := WithRequest(c, q, false);
    assert LoadsRequest(c, q.runID, q.operationID, j.requests[q.operationID]);
    assert m.digests == map name | name in j.requests :: Sha256(j.requests[name].content);
  }

  lemma RequestSettles(c: Config, q: Request)
    ensures SettleAll(WithRequest(c, q, false)) == WithRequest(c, q, true)
    ensures AlsoReading(ReadBack(true, {}, {}), WithRequest(c, q, false)) == ReadBack(true, {q.operationID}, {})
  {
    var j := WithRequest(c, q, false);
    assert Unsettled(j.requests) == {q.operationID} && Unsettled(j.results) == {};
  }

  lemma EverythingMayGo(c: Config, q: Request, r: ReadBack)
    requires r == ReadBack(true, {q.operationID}, {})
    ensures SurvivesPowerLoss(WithRequest(c, q, true), r, EMPTY_JOURNAL)
  {
  }

  /** For any two acceptable requests, also of different runs, some run of the agent reserves both. */
  lemma TwoRuns(c: Config, q: Request, p: Request, now: int, later: int)
    returns (states: seq<State>, steps: seq<Step>)
    requires Acceptable(c, q) && Acceptable(c, p) && ValidAt(q, now) && ValidAt(p, later)
    ensures IsRun(states, steps) && Last(states).reserved == {q, p}
  {
    states, steps := UnsyncedIdentity(c, q, now);
    states, steps := UnsyncedRequest(states, steps, c, q, now);
    states, steps := ReadsBack(states, steps, c, q);
    states, steps := IsEmptied(states, steps, c, q);
    states, steps := EmptyDirectoryRebinds(states, steps, c, p, later);
  }

  // ---------------------------------------------------------------------------------------
  // One request per operation.
  // ---------------------------------------------------------------------------------------

  /** A power loss that keeps the files of reserved requests. */
  ghost predicate KeepsRequests(s: State, a: Step) {
    a.LosePower? ==> forall q | q in s.reserved && Filed(s.journal, q) :: Filed(a.journal, q)
  }

  ghost predicate AllFiled(reserved: set<Request>, j: Journal) {
    var holds := forall q | q in reserved :: Filed(j, q);
    holds
  }

  lemma NextFiled(s: State, a: Step, s': State)
    requires Locks(s) && Ready(s) && AllFiled(s.reserved, s.journal) && Next(s, a, s') && KeepsRequests(s, a)
    ensures AllFiled(s'.reserved, s'.journal)
  {
    if a.LosePower? {
      assert s'.reserved == s.reserved && s'.journal == a.journal;
    } else {
      NextCarries(s, a, s');
      CarriesFiled(s.reserved, s'.reserved, s.journal, s'.up, s'.memory, s'.journal);
    }
  }

  lemma CarriesFiled(reserved: set<Request>, reserved': set<Request>, j: Journal, up': bool, m': Memory, j': Journal)
    requires AllFiled(reserved, j) && Admits(reserved, reserved', up', m', j') && KeepsFiles(j, j')
    ensures AllFiled(reserved', j')
  {
    forall q | q in reserved' ensures Filed(j', q) {
      assert q in reserved ==> Filed(j, q);
      assert q !in reserved ==> Reserved(j', q);
    }
  }

  lemma {:induction false} RunFiled(states: seq<State>, steps: seq<Step>, k: nat)
    requires IsRun(states, steps) && k < |states| && forall i | 0 <= i < k :: KeepsRequests(states[i], steps[i])
    ensures AllFiled(states[k].reserved, states[k].journal)
  {
    if k == 0 {
    } else {
      RunFiled(states, steps, k - 1);
      RunReady(states, steps, k - 1);
      NextFiled(states[k - 1], steps[k - 1], states[k]);
    }
  }

  /**
   There is one reserved request per operation ID, and it is on disk, provided that no power loss takes
   away the file of a reserved request.
   */
  lemma OneRequestPerOperation(states: seq<State>, steps: seq<Step>)
    requires IsRun(states, steps) && forall k | 0 <= k < |steps| :: KeepsRequests(states[k], steps[k])
    ensures forall q | q in Last(states).reserved :: Filed(Last(states).journal, q)
    ensures forall q, q' | q in Last(states).reserved && q' in Last(states).reserved
                        && q.operationID == q'.operationID :: q == q'
  {
    RunFiled(states, steps, |steps|);
    forall q, q' | q in Last(states).reserved && q' in Last(states).reserved && q.operationID == q'.operationID
      ensures q == q'
    {
      assert Filed(Last(states).journal, q) && Filed(Last(states).journal, q');
    }
  }

  /** Everything reserved under the operation ID is this request. */
  ghost predicate Only(reserved: set<Request>, q: Request) {
    forall p | p in reserved && p.operationID == q.operationID :: p == q
  }

  /** No continuation without a power loss, from this time on, reserves another request for the operation. */
  ghost predicate RequestStands(states: seq<State>, steps: seq<Step>, q: Request, now: int)
    requires states != []
  {
    forall states', steps' {:trigger ExtendsFrom(states, steps, states', steps', now)} |
      IsRun(states', steps') && ExtendsFrom(states, steps, states', steps', now) :: Only(Last(states').reserved, q)
  }

  lemma {:induction false} FiledStands(states: seq<State>, steps: seq<Step>, b: nat, k: nat, q: Request)
    requires IsRun(states, steps) && b <= k < |states| && (forall i | b <= i < k :: !steps[i].LosePower?)
    requires Filed(states[b].journal, q) && Only(states[b].reserved, q)
    ensures Filed(states[k].journal, q) && Only(states[k].reserved, q)
    decreases k
  {
    if k == b {
    } else {
      FiledStands(states, steps, b, k - 1, q);
      RunReady(states, steps, k - 1);
      NextCarries(states[k - 1], steps[k - 1], states[k]);
      OnlyStays(states[k - 1], states[k], q);
    }
  }

  lemma OnlyStays(s: State, s': State, q: Request)
    requires Carries(s, s') && Filed(s.journal, q) && Only(s.reserved, q)
    ensures Filed(s'.journal, q) && Only(s'.reserved, q)
  {
    forall p | p in s'.reserved && p.operationID == q.operationID ensures p == q {
      assert p !in s.reserved ==> Reserved(s'.journal, p);
    }
  }

  /** Room for a request under its operation ID in what a restart restores. */
  ghost predicate HasRoom(c: Config, m: Memory, p: Request) {
    && Acceptable(c, p) && (m.runID == "" || m.runID == p.runID)
    && (p.operationID in m.digests || |m.digests| < MAX_RESERVATIONS)
  }

  /** Once the file is gone, some continuation reserves another request for the operation. */
  lemma UnfiledFalls(states: seq<State>, steps: seq<Step>, q: Request, c: Config, m: Memory, p: Request, now: int)
    returns (states': seq<State>, steps': seq<Step>)
    requires IsRun(states, steps) && !Filed(Last(states).journal, q) && Loads(c, Last(states).journal, m)
    requires p != q && p.operationID == q.operationID && HasRoom(c, m, p) && ValidAt(p, now)
    ensures IsRun(states', steps') && ExtendsFrom(states, steps, states', steps', now)
    ensures !Only(Last(states').reserved, q)
  {
    var op := q.operationID;
    var states1, steps1 := Stops(states, steps, now);
    var states2, steps2 := StartsAndIsCalled(states1, steps1, c, m, p, now);
    ExtendsTransitive(states, steps, states1, steps1, states2, steps2, now);
    if op in m.digests {
      assert LoadsRequest(c, m.runID, op, Last(states).journal.requests[op]);
      assert m.digests[op].request in Reservations(m);
      states', steps' := states2, steps2;
    } else {
      ServedLoads(c, Last(states).journal, m, p);
      RestoredMemory(c, Last(states).journal, m);
      states', steps' := Begins(states2, steps2, Last(states1).nextThread, p, now);
      assert p in Last(states').reserved;
      ExtendsTransitive(states, steps, states2, steps2, states', steps', now);
    }
  }

  /**
   A reserved request stands until the next power loss if and only if its file is on disk, whenever the
   journal still loads and has room for another request under its ID.
   */
  lemma RequestStandsIffFiled(states: seq<State>, steps: seq<Step>, q: Request, c: Config, m: Memory, p: Request,
                              now: int)
    requires IsRun(states, steps) && q in Last(states).reserved && Only(Last(states).reserved, q)
    requires Loads(c, Last(states).journal, m)
    requires p != q && p.operationID == q.operationID && HasRoom(c, m, p) && ValidAt(p, now)
    ensures RequestStands(states, steps, q, now) <==> Filed(Last(states).journal, q)
  {
    if Filed(Last(states).journal, q) {
      forall states', steps' | IsRun(states', steps') && ExtendsFrom(states, steps, states', steps', now)
        ensures Only(Last(states').reserved, q)
      {
        assert states'[|steps|] == states[|steps|];
        FiledStands(states', steps', |steps|, |steps'|, q);
      }
    } else {
      var states', steps' := UnfiledFalls(states, steps, q, c, m, p, now);
    }
  }

  /** Both conditions hold in every clean run. */
  lemma CleanKeepsRequests(states: seq<State>, steps: seq<Step>, k: nat)
    requires IsRun(states, steps) && k < |steps| && states[k + 1].clean
    ensures KeepsRequests(states[k], steps[k]) && LeavesFiles(states[k], steps[k])
  {
    var s, a := states[k], steps[k];
    RunDurable(states, steps, k);
    assert Next(s, a, states[k + 1]);
    if a.LosePower? {
      PowerLossKeeps(s.journal, a.journal);
      forall q | q in s.reserved ensures Filed(a.journal, q) {
        assert Reserved(s.journal, q);
        assert Lookup(a.journal.requests, q.operationID) == Some(Complete(q, true));
      }
    }
  }
}
