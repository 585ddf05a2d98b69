/**
 The controller's wave loop: for every wave it spawns one goroutine per operation, waits until all
 of them have stamped their invocation, releases them together and collects their results. All
 stamps come from one atomic counter. A schedule is any interleaving of the atomic actions.
 */
module ControllerWaves {

  import opened Permutations

  /** The operation identifiers of each wave. */
  type Plan = seq<seq<string>>

  datatype Thread =
    | Starting
    | NonceFailed
    | Stamped(invoke: nat)
    | Broken
    | Armed(invoke: nat)
    | Executing(invoke: nat)
    | Returned(invoke: nat, ret: nat, succeeded: bool)
    | SentResult(invoke: nat, ret: nat)
    | SentError(stamps: nat)

  datatype Result = Completed(index: nat, invoke: nat, ret: nat) | Errored(index: nat)

  datatype Phase = Spawning | Arming | Collecting | Finished | Aborted

  datatype Event = Invocation(wave: nat, index: nat) | Response(wave: nat, index: nat)

  datatype Entry = Entry(wave: nat, index: nat, invoke: nat, ret: nat)

  /** `log` is a history variable: the event stamped with ordinal `x` is `log[x - 1]`. */
  datatype State = State(
    wave: nat, phase: Phase, threads: seq<Thread>, unarmed: int, dispatched: bool,
    results: seq<Result>, received: set<nat>, events: nat, record: seq<Entry>, log: seq<Event>)

  datatype Action =
    | Spawn
    | SpawnedAll
    | FailNonce(thread: nat)
    | Stamp(thread: nat)
    | Arm(thread: nat)
    | Release
    | Proceed(thread: nat)
    | Return(thread: nat, succeeded: bool)
    | Send(thread: nat)
    | Receive
    | NextWave

  // ---------------------------------------------------------------------------------------
  // The step relation.
  // ---------------------------------------------------------------------------------------

  function Enter(plan: Plan, wave: nat, events: nat, record: seq<Entry>, log: seq<Event>): State {
    if wave < |plan|
    then State(wave, Spawning, [], |plan[wave]|, false, [], {}, events, record, log)
    else State(wave, Finished, [], 0, false, [], {}, events, record, log)
  }

  function Init(plan: Plan): State { Enter(plan, 0, 0, [], []) }

  predicate At(s: State, i: nat, t: Thread) { i < |s.threads| && s.threads[i] == t }

  predicate Enabled(plan: Plan, s: State, a: Action) {
    match a
    case Spawn => s.phase == Spawning && s.wave < |plan| && |s.threads| < |plan[s.wave]|
    case SpawnedAll => s.phase == Spawning && s.wave < |plan| && |s.threads| == |plan[s.wave]|
    case FailNonce(i) => At(s, i, Starting)
    case Stamp(i) => At(s, i, Starting)
    case Arm(i) => i < |s.threads| && (s.threads[i].Stamped? || s.threads[i].NonceFailed?)
    case Release => s.phase == Arming && s.unarmed == 0
    case Proceed(i) => i < |s.threads| && s.threads[i].Armed? && s.dispatched
    case Return(i, _) => i < |s.threads| && s.threads[i].Executing?
    case Send(i) => i < |s.threads| && (s.threads[i].Returned? || s.threads[i].Broken?)
    case Receive => s.phase == Collecting && s.wave < |plan| && |s.received| < |plan[s.wave]| && |s.results| > 0
    case NextWave => s.phase == Collecting && s.wave < |plan| && |s.received| == |plan[s.wave]|
  }

  function Become(s: State, i: nat, t: Thread): State
    requires i < |s.threads|
  {
    s.(threads := s.threads[i := t])
  }

  function StampEvent(s: State, e: Event): State {
    s.(events := s.events + 1, log := s.log + [e])
  }

  function Apply(plan: Plan, s: State, a: Action): State
    requires Enabled(plan, s, a)
  {
    match a
    case Spawn => s.(threads := s.threads + [Starting])
    case SpawnedAll => s.(phase := Arming)
    case FailNonce(i) => Become(s, i, NonceFailed)
    case Stamp(i) => StampEvent(Become(s, i, Stamped(s.events + 1)), Invocation(s.wave, i))
    case Arm(i) =>
      Become(s, i, if s.threads[i].Stamped? then Armed(s.threads[i].invoke) else Broken).(unarmed := s.unarmed - 1)
    case Release => s.(dispatched := true, phase := Collecting)
    case Proceed(i) => Become(s, i, Executing(s.threads[i].invoke))
    case Return(i, ok) =>
      StampEvent(Become(s, i, Returned(s.threads[i].invoke, s.events + 1, ok)), Response(s.wave, i))
    case Send(i) =>
      var t := s.threads[i];
      if t.Returned? && t.succeeded
      then Become(s, i, SentResult(t.invoke, t.ret)).(results := s.results + [Completed(i, t.invoke, t.ret)])
      else Become(s, i, SentError(if t.Returned? then 2 else 0)).(results := s.results + [Errored(i)])
    case Receive =>
      var r, rest := s.results[0], s.results[1..];
      if r.Errored? then s.(results := rest, phase := Aborted)
      else s.(results := rest, received := s.received + {r.index},
              record := s.record + [Entry(s.wave, r.index, r.invoke, r.ret)])
    case NextWave => Enter(plan, s.wave + 1, s.events, s.record, s.log)
  }

  /** `s` is reached by the schedule `actions`. */
  ghost predicate Reaches(plan: Plan, actions: seq<Action>, s: State) {
    if actions == [] then s == Init(plan)
    else
      var last := actions[|actions| - 1];
      exists p :: Reaches(plan, actions[..|actions| - 1], p) && Enabled(plan, p, last) && s == Apply(plan, p, last)
  }

  // ---------------------------------------------------------------------------------------
  // The invariant.
  // ---------------------------------------------------------------------------------------

  ghost function Total(plan: Plan, w: nat): nat
    requires w <= |plan|
  {
    if w == 0 then 0 else Total(plan, w - 1) + |plan[w - 1]|
  }

  predicate Stamps(log: seq<Event>, ordinal: nat, e: Event) { 1 <= ordinal <= |log| && log[ordinal - 1] == e }

  /** What the state of a goroutine says about the stamps it has taken. */
  ghost predicate Linked(log: seq<Event>, wave: nat, i: nat, t: Thread) {
    var inv, res := Invocation(wave, i), Response(wave, i);
    match t
    case Starting => inv !in log && res !in log
    case NonceFailed => inv !in log && res !in log
    case Broken => inv !in log && res !in log
    case Stamped(v) => Stamps(log, v, inv) && res !in log
    case Armed(v) => Stamps(log, v, inv) && res !in log
    case Executing(v) => Stamps(log, v, inv) && res !in log
    case Returned(v, r, _) => Stamps(log, v, inv) && Stamps(log, r, res)
    case SentResult(v, r) => Stamps(log, v, inv) && Stamps(log, r, res)
    case SentError(_) => true
  }

  function StampsTaken(t: Thread): nat {
    match t
    case Stamped(_) => 1
    case Armed(_) => 1
    case Executing(_) => 1
    case Returned(_, _, _) => 2
    case SentResult(_, _) => 2
    case SentError(n) => n
    case _ => 0
  }

  predicate Pending(t: Thread) { t.Starting? || t.NonceFailed? || t.Stamped? }

  predicate BeforeDispatch(t: Thread) { !(t.Executing? || t.Returned? || t.SentResult?) }

  ghost function StampCount(threads: seq<Thread>): nat {
    if threads == [] then 0 else StampCount(threads[..|threads| - 1]) + StampsTaken(threads[|threads| - 1])
  }

  ghost function PendingCount(threads: seq<Thread>): nat {
    if threads == [] then 0
    else PendingCount(threads[..|threads| - 1]) + (if Pending(threads[|threads| - 1]) then 1 else 0)
  }

  ghost predicate GoodEvent(plan: Plan, wave: nat, e: Event) {
    e.wave < |plan| && e.wave <= wave && e.index < |plan[e.wave]|
  }

  /** Two events of the log, the first before the second. */
  ghost predicate InOrder(e: Event, f: Event) {
    e != f && e.wave <= f.wave && (e.wave == f.wave && e.Response? ==> f.Response?)
  }

  /** The log so far: waves in turn, in each wave all invocations before all responses, no event twice. */
  ghost predicate OrderedLog(plan: Plan, log: seq<Event>, wave: nat) {
    var holds :=
      && (forall p {:trigger GoodEvent(plan, wave, log[p])} | 0 <= p < |log| :: GoodEvent(plan, wave, log[p]))
      && (forall p, q {:trigger InOrder(log[p], log[q])} | 0 <= p < q < |log| :: InOrder(log[p], log[q]));
    holds
  }

  ghost predicate Recorded(log: seq<Event>, e: Entry) {
    Stamps(log, e.invoke, Invocation(e.wave, e.index)) && Stamps(log, e.ret, Response(e.wave, e.index))
  }

  predicate HasEntry(record: seq<Entry>, wave: nat, index: nat) {
    exists k :: 0 <= k < |record| && record[k].wave == wave && record[k].index == index
  }

  ghost predicate GoodRecord(plan: Plan, wave: nat, record: seq<Entry>, received: set<nat>, log: seq<Event>)
    requires wave <= |plan|
  {
    var holds :=
      && (forall k | 0 <= k < |record| :: Recorded(log, record[k]))
      && (forall k, l | 0 <= k < l < |record| :: record[k].wave != record[l].wave || record[k].index != record[l].index)
      && (forall k | 0 <= k < |record| :: record[k].wave <= wave)
      && (forall w, i | 0 <= w < wave && 0 <= i < |plan[w]| :: HasEntry(record, w, i))
      && (forall i: nat :: i in received <==> HasEntry(record, wave, i))
      && |record| == Total(plan, wave) + |received|;
    holds
  }

  ghost predicate Describes(threads: seq<Thread>, received: set<nat>, r: Result) {
    && r.index < |threads| && r.index !in received
    && (r.Completed? ==> threads[r.index] == SentResult(r.invoke, r.ret))
    && (r.Errored? ==> threads[r.index].SentError?)
  }

  /** Sent results wait in the channel until they are received. */
  ghost predicate GoodResults(threads: seq<Thread>, results: seq<Result>, received: set<nat>) {
    var holds :=
      && (forall k | 0 <= k < |results| :: Describes(threads, received, results[k]))
      && (forall k, l | 0 <= k < l < |results| :: results[k].index != results[l].index)
      && (forall i | i in received :: i < |threads| && threads[i].SentResult?);
    holds
  }

  ghost predicate GoodCounts(size: nat, phase: Phase, threads: seq<Thread>, unarmed: int) {
    && |threads| <= size
    && (phase != Spawning ==> |threads| == size)
    && unarmed == PendingCount(threads) + size - |threads|
  }

  /** Nothing returns before the barrier opens, and it opens only when every goroutine is armed. */
  ghost predicate GoodBarrier(phase: Phase, dispatched: bool, threads: seq<Thread>, wave: nat, log: seq<Event>) {
    var holds :=
      && (dispatched <==> phase == Collecting || phase == Aborted)
      && (forall i | 0 <= i < |threads| :: if dispatched then !Pending(threads[i]) else BeforeDispatch(threads[i]))
      && (!dispatched ==> forall p | 0 <= p < |log| && log[p].wave == wave :: log[p].Invocation?);
    holds
  }

  ghost predicate GoodLinks(threads: seq<Thread>, wave: nat, log: seq<Event>) {
    var holds :=
      && (forall i | 0 <= i < |threads| :: Linked(log, wave, i, threads[i]))
      && (forall p | 0 <= p < |log| && log[p].wave == wave :: log[p].index < |threads|);
    holds
  }

  ghost predicate Consistent(plan: Plan, s: State) {
    && s.wave <= |plan|
    && (s.phase == Finished <==> s.wave == |plan|)
    && s.events == |s.log|
    && OrderedLog(plan, s.log, s.wave)
    && GoodRecord(plan, s.wave, s.record, s.received, s.log)
    && (s.wave < |plan| ==> GoodCounts(|plan[s.wave]|, s.phase, s.threads, s.unarmed))
    && GoodBarrier(s.phase, s.dispatched, s.threads, s.wave, s.log)
    && GoodLinks(s.threads, s.wave, s.log)
    && GoodResults(s.threads, s.results, s.received)
    && |s.log| == 2 * Total(plan, s.wave) + StampCount(s.threads)
    && (s.wave == |plan| ==> s.threads == [] && s.received == {})
  }

  /** `Consistent`, kept whole so that proofs pass it on without taking it apart. */
  ghost predicate Inv(plan: Plan, s: State) {
    var holds := Consistent(plan, s);
    holds
  }

  // ---------------------------------------------------------------------------------------
  // Every action keeps the invariant.
  // ---------------------------------------------------------------------------------------

  lemma {:induction false} CountsUpdate(threads: seq<Thread>, i: nat, t: Thread)
    requires i < |threads|
    ensures StampCount(threads[i := t]) == StampCount(threads) - StampsTaken(threads[i]) + StampsTaken(t)
    ensures PendingCount(threads[i := t]) ==
            PendingCount(threads) - (if Pending(threads[i]) then 1 else 0) + (if Pending(t) then 1 else 0)
  {
    var n := |threads|;
    if i == n - 1 {
      assert threads[i := t][..n - 1] == threads[..n - 1];
    } else {
      CountsUpdate(threads[..n - 1], i, t);
      assert threads[i := t][..n - 1] == threads[..n - 1][i := t];
    }
  }

  lemma {:induction false} NonePending(threads: seq<Thread>, i: nat)
    requires PendingCount(threads) == 0 && i < |threads|
    ensures !Pending(threads[i])
  {
    if i < |threads| - 1 { NonePending(threads[..|threads| - 1], i); }
  }

  lemma {:induction false} AllStamped(threads: seq<Thread>)
    requires forall i | 0 <= i < |threads| :: threads[i].SentResult?
    ensures StampCount(threads) == 2 * |threads|
  {
    if threads != [] { AllStamped(threads[..|threads| - 1]); }
  }

  lemma LogGrows(plan: Plan, log: seq<Event>, wave: nat, e: Event)
    requires OrderedLog(plan, log, wave) && e !in log
    requires wave < |plan| && e.wave == wave && e.index < |plan[wave]|
    requires e.Invocation? ==> forall p | 0 <= p < |log| && log[p].wave == wave :: log[p].Invocation?
    ensures OrderedLog(plan, log + [e], wave)
  {
    var longer := log + [e];
    forall p | 0 <= p < |longer| ensures GoodEvent(plan, wave, longer[p]) {
      assert p < |log| ==> GoodEvent(plan, wave, log[p]);
    }
    forall p, q | 0 <= p < q < |longer| ensures InOrder(longer[p], longer[q]) {
      assert GoodEvent(plan, wave, log[p]);
      assert q < |log| ==> InOrder(log[p], log[q]);
    }
  }

  lemma LinkKept(log: seq<Event>, wave: nat, i: nat, t: Thread, e: Event)
    requires Linked(log, wave, i, t) && (e.wave != wave || e.index != i)
    ensures Linked(log + [e], wave, i, t)
  {
    var inv, res := Invocation(wave, i), Response(wave, i);
    assert inv in log + [e] <==> inv in log;
    assert res in log + [e] <==> res in log;
  }

  lemma RecordKept(plan: Plan, wave: nat, record: seq<Entry>, received: set<nat>, log: seq<Event>, e: Event)
    requires wave <= |plan| && GoodRecord(plan, wave, record, received, log)
    ensures GoodRecord(plan, wave, record, received, log + [e])
  {
    forall k | 0 <= k < |record|
      ensures Recorded(log + [e], record[k])
    {
      assert Recorded(log, record[k]);
    }
  }

  lemma LinksKept(threads: seq<Thread>, wave: nat, log: seq<Event>, i: nat, t: Thread, e: Event)
    requires GoodLinks(threads, wave, log) && i < |threads| && e.wave == wave && e.index == i
    requires Linked(log + [e], wave, i, t)
    ensures GoodLinks(threads[i := t], wave, log + [e])
  {
    forall j | 0 <= j < |threads| && j != i
      ensures Linked(log + [e], wave, j, threads[j])
    {
      LinkKept(log, wave, j, threads[j], e);
    }
  }

  lemma ThreadReplaced(phase: Phase, dispatched: bool, threads: seq<Thread>, wave: nat, log: seq<Event>, i: nat,
                       t: Thread)
    requires GoodLinks(threads, wave, log) && GoodBarrier(phase, dispatched, threads, wave, log)
    requires i < |threads| && Linked(log, wave, i, t)
    requires if dispatched then !Pending(t) else BeforeDispatch(t)
    ensures GoodLinks(threads[i := t], wave, log) && GoodBarrier(phase, dispatched, threads[i := t], wave, log)
  {
  }

  lemma ResultsKept(threads: seq<Thread>, results: seq<Result>, received: set<nat>, i: nat, t: Thread)
    requires GoodResults(threads, results, received) && i < |threads|
    requires !threads[i].SentResult? && !threads[i].SentError?
    ensures GoodResults(threads[i := t], results, received)
  {
    forall k | 0 <= k < |results|
      ensures Describes(threads[i := t], received, results[k])
    {
      assert Describes(threads, received, results[k]);
    }
  }

  lemma SpawnKeeps(plan: Plan, s: State)
    requires Consistent(plan, s) && Enabled(plan, s, Spawn)
    ensures Consistent(plan, Apply(plan, s, Spawn))
  {
    var s' := Apply(plan, s, Spawn);
    var n := |s.threads|;
    assert s'.threads[..n] == s.threads;
    assert Invocation(s.wave, n) !in s.log && Response(s.wave, n) !in s.log;
    assert GoodLinks(s'.threads, s.wave, s.log);
    forall k | 0 <= k < |s.results| ensures Describes(s'.threads, s.received, s.results[k]) {
      assert Describes(s.threads, s.received, s.results[k]);
    }
    assert GoodResults(s'.threads, s.results, s.received);
  }

  lemma SpawnedAllKeeps(plan: Plan, s: State)
    requires Consistent(plan, s) && Enabled(plan, s, SpawnedAll)
    ensures Consistent(plan, Apply(plan, s, SpawnedAll))
  {
  }

  lemma FailNonceKeeps(plan: Plan, s: State, i: nat)
    requires Consistent(plan, s) && Enabled(plan, s, FailNonce(i))
    ensures Consistent(plan, Apply(plan, s, FailNonce(i)))
  {
    CountsUpdate(s.threads, i, NonceFailed);
    ResultsKept(s.threads, s.results, s.received, i, NonceFailed);
    assert Linked(s.log, s.wave, i, s.threads[i]);
  }

  /** A goroutine takes a stamp. */
  lemma EventKeeps(plan: Plan, s: State, i: nat, t: Thread, e: Event)
    requires Consistent(plan, s) && s.wave < |plan| && i < |s.threads| && !s.threads[i].SentResult?
             && !s.threads[i].SentError?
    requires e.wave == s.wave && e.index == i && e !in s.log && Linked(s.log + [e], s.wave, i, t)
    requires StampsTaken(t) == StampsTaken(s.threads[i]) + 1 && Pending(t) == Pending(s.threads[i])
    requires if s.dispatched then !Pending(t) && e.Response? else BeforeDispatch(t) && e.Invocation?
    ensures Consistent(plan, StampEvent(Become(s, i, t), e))
  {
    CountsUpdate(s.threads, i, t);
    LogGrows(plan, s.log, s.wave, e);
    RecordKept(plan, s.wave, s.record, s.received, s.log, e);
    LinksKept(s.threads, s.wave, s.log, i, t, e);
    ResultsKept(s.threads, s.results, s.received, i, t);
    BarrierKept(s.phase, s.dispatched, s.threads, s.wave, s.log, i, t, e);
  }

  lemma StampKeeps(plan: Plan, s: State, i: nat)
    requires Consistent(plan, s) && Enabled(plan, s, Stamp(i))
    ensures Consistent(plan, Apply(plan, s, Stamp(i)))
  {
    assert Linked(s.log, s.wave, i, s.threads[i]);
    EventKeeps(plan, s, i, Stamped(s.events + 1), Invocation(s.wave, i));
  }

  lemma BarrierKept(phase: Phase, dispatched: bool, threads: seq<Thread>, wave: nat, log: seq<Event>, i: nat, t: Thread,
                    e: Event)
    requires GoodBarrier(phase, dispatched, threads, wave, log) && i < |threads|
    requires if dispatched then !Pending(t) else BeforeDispatch(t) && e.Invocation?
    ensures GoodBarrier(phase, dispatched, threads[i := t], wave, log + [e])
  {
  }

  lemma ArmKeeps(plan: Plan, s: State, i: nat)
    requires Consistent(plan, s) && Enabled(plan, s, Arm(i))
    ensures Consistent(plan, Apply(plan, s, Arm(i)))
  {
    var t := Apply(plan, s, Arm(i)).threads[i];
    assert Linked(s.log, s.wave, i, s.threads[i]);
    ThreadReplaced(s.phase, s.dispatched, s.threads, s.wave, s.log, i, t);
    CountsUpdate(s.threads, i, t);
    ResultsKept(s.threads, s.results, s.received, i, t);
  }

  lemma ReleaseKeeps(plan: Plan, s: State)
    requires Consistent(plan, s) && Enabled(plan, s, Release)
    ensures Consistent(plan, Apply(plan, s, Release))
  {
    forall i | 0 <= i < |s.threads| ensures !Pending(s.threads[i]) { NonePending(s.threads, i); }
  }

  lemma ProceedKeeps(plan: Plan, s: State, i: nat)
    requires Consistent(plan, s) && Enabled(plan, s, Proceed(i))
    ensures Consistent(plan, Apply(plan, s, Proceed(i)))
  {
    var t := Executing(s.threads[i].invoke);
    assert Linked(s.log, s.wave, i, s.threads[i]);
    ThreadReplaced(s.phase, s.dispatched, s.threads, s.wave, s.log, i, t);
    CountsUpdate(s.threads, i, t);
    ResultsKept(s.threads, s.results, s.received, i, t);
  }

  lemma ReturnKeeps(plan: Plan, s: State, i: nat, ok: bool)
    requires Consistent(plan, s) && Enabled(plan, s, Return(i, ok))
    ensures Consistent(plan, Apply(plan, s, Return(i, ok)))
  {
    assert Linked(s.log, s.wave, i, s.threads[i]);
    EventKeeps(plan, s, i, Returned(s.threads[i].invoke, s.events + 1, ok), Response(s.wave, i));
  }

  lemma SentKeeps(plan: Plan, s: State, i: nat, t: Thread, r: Result)
    requires Consistent(plan, s) && i < |s.threads| && (s.threads[i].Returned? || s.threads[i].Broken?)
    requires r.index == i && (r.Completed? ==> t == SentResult(r.invoke, r.ret)) && (r.Errored? ==> t.SentError?)
    requires Linked(s.log, s.wave, i, t) && StampsTaken(t) == StampsTaken(s.threads[i]) && !Pending(t)
    requires s.dispatched || BeforeDispatch(t)
    ensures Consistent(plan, Become(s, i, t).(results := s.results + [r]))
  {
    ThreadReplaced(s.phase, s.dispatched, s.threads, s.wave, s.log, i, t);
    CountsUpdate(s.threads, i, t);
    ResultSent(s.threads, s.results, s.received, i, t, r);
  }

  lemma SendKeeps(plan: Plan, s: State, i: nat)
    requires Consistent(plan, s) && Enabled(plan, s, Send(i))
    ensures Consistent(plan, Apply(plan, s, Send(i)))
  {
    var t := s.threads[i];
    assert Linked(s.log, s.wave, i, t);
    if t.Returned? && t.succeeded {
      SentKeeps(plan, s, i, SentResult(t.invoke, t.ret), Completed(i, t.invoke, t.ret));
    } else {
      SentKeeps(plan, s, i, SentError(if t.Returned? then 2 else 0), Errored(i));
    }
  }

  lemma ResultSent(threads: seq<Thread>, results: seq<Result>, received: set<nat>, i: nat, t: Thread, r: Result)
    requires GoodResults(threads, results, received) && i < |threads|
    requires !threads[i].SentResult? && !threads[i].SentError?
    requires r.index == i && (r.Completed? ==> t == SentResult(r.invoke, r.ret)) && (r.Errored? ==> t.SentError?)
    ensures GoodResults(threads[i := t], results + [r], received)
  {
    ResultsKept(threads, results, received, i, t);
    forall k | 0 <= k < |results| ensures results[k].index != i {
      assert Describes(threads, received, results[k]);
    }
  }

  lemma ReceiveKeeps(plan: Plan, s: State)
    requires Consistent(plan, s) && Enabled(plan, s, Receive)
    ensures Consistent(plan, Apply(plan, s, Receive))
  {
    var r := s.results[0];
    assert Describes(s.threads, s.received, r);
    if r.Completed? {
      assert Linked(s.log, s.wave, r.index, s.threads[r.index]);
      EntryRecorded(plan, s.wave, s.record, s.received, s.log, Entry(s.wave, r.index, r.invoke, r.ret));
    }
    ResultReceived(s.threads, s.results, s.received);
  }

  lemma ResultReceived(threads: seq<Thread>, results: seq<Result>, received: set<nat>)
    requires GoodResults(threads, results, received) && |results| > 0
    ensures GoodResults(threads, results[1..], received)
    ensures results[0].Completed? ==> GoodResults(threads, results[1..], received + {results[0].index})
  {
    forall k | 0 <= k < |results| - 1
      ensures Describes(threads, received, results[1..][k]) && results[1..][k].index != results[0].index
    {
      assert Describes(threads, received, results[k + 1]);
    }
    assert Describes(threads, received, results[0]);
  }

  lemma EntryRecorded(plan: Plan, wave: nat, record: seq<Entry>, received: set<nat>, log: seq<Event>, e: Entry)
    requires wave <= |plan| && GoodRecord(plan, wave, record, received, log)
    requires e.wave == wave && e.index !in received && Recorded(log, e)
    ensures GoodRecord(plan, wave, record + [e], received + {e.index}, log)
  {
    forall w, i
      ensures HasEntry(record + [e], w, i) <==> HasEntry(record, w, i) || (w == wave && i == e.index)
    {
      EntryAdded(record, e, w, i);
    }
    assert !HasEntry(record, wave, e.index);
  }

  lemma EntryAdded(record: seq<Entry>, e: Entry, w: nat, i: nat)
    ensures HasEntry(record + [e], w, i) <==> HasEntry(record, w, i) || (w == e.wave && i == e.index)
  {
    var longer := record + [e];
    if HasEntry(record, w, i) {
      var k :| 0 <= k < |record| && record[k].wave == w && record[k].index == i;
      assert longer[k] == record[k];
    }
    if w == e.wave && i == e.index { assert longer[|record|] == e; }
    if HasEntry(longer, w, i) {
      var k :| 0 <= k < |longer| && longer[k].wave == w && longer[k].index == i;
      assert k < |record| ==> record[k] == longer[k];
    }
  }

  lemma NextWaveKeeps(plan: Plan, s: State)
    requires Inv(plan, s) && Enabled(plan, s, NextWave)
    ensures Inv(plan, Enter(plan, s.wave + 1, s.events, s.record, s.log))
  {
    WaveCloses(plan, s.wave, s.threads, s.results, s.record, s.received, s.log);
  }

  lemma WaveCloses(plan: Plan, wave: nat, threads: seq<Thread>, results: seq<Result>, record: seq<Entry>,
                   received: set<nat>, log: seq<Event>)
    requires wave < |plan| && |threads| == |plan[wave]| == |received|
    requires OrderedLog(plan, log, wave) && GoodRecord(plan, wave, record, received, log)
    requires GoodResults(threads, results, received)
    requires |log| == 2 * Total(plan, wave) + StampCount(threads)
    ensures Inv(plan, Enter(plan, wave + 1, |log|, record, log))
  {
    assert GoodRecord(plan, wave + 1, record, {}, log) && StampCount(threads) == 2 * |threads| by {
      WaveCollected(|plan[wave]|, threads, received);
      AllStamped(threads);
      RecordClosed(plan, wave, record, received, log);
    }
    LogClosed(plan, log, wave);
    EnterHolds(plan, wave + 1, record, log);
  }

  lemma LogClosed(plan: Plan, log: seq<Event>, wave: nat)
    requires OrderedLog(plan, log, wave)
    ensures OrderedLog(plan, log, wave + 1)
    ensures forall p | 0 <= p < |log| :: log[p].wave < wave + 1
  {
    forall p | 0 <= p < |log| ensures GoodEvent(plan, wave + 1, log[p]) && log[p].wave < wave + 1 {
      assert GoodEvent(plan, wave, log[p]);
    }
  }

  /** When as many results as goroutines have been received, every goroutine has succeeded. */
  lemma WaveCollected(size: nat, threads: seq<Thread>, received: set<nat>)
    requires |threads| == size && |received| == size
    requires forall i | i in received :: i < |threads| && threads[i].SentResult?
    ensures received == Below(size)
    ensures forall i | 0 <= i < |threads| :: threads[i].SentResult?
  {
    assert received <= Below(size);
    SubsetSize(received, Below(size));
    forall i | 0 <= i < |threads| ensures threads[i].SentResult? {
      assert i in received;
    }
  }

  lemma RecordClosed(plan: Plan, wave: nat, record: seq<Entry>, received: set<nat>, log: seq<Event>)
    requires wave < |plan| && GoodRecord(plan, wave, record, received, log)
    requires received == Below(|plan[wave]|)
    ensures GoodRecord(plan, wave + 1, record, {}, log)
  {
    var next := wave + 1;
    forall i: nat
      ensures !HasEntry(record, next, i)
    {
    }
    forall w, i | 0 <= w < next && 0 <= i < |plan[w]|
      ensures HasEntry(record, w, i)
    {
      if w == wave { assert i in received; }
    }
  }

  lemma EnterHolds(plan: Plan, wave: nat, record: seq<Entry>, log: seq<Event>)
    requires wave <= |plan| && OrderedLog(plan, log, wave) && GoodRecord(plan, wave, record, {}, log)
    requires |log| == 2 * Total(plan, wave) && forall p | 0 <= p < |log| :: log[p].wave < wave
    ensures Consistent(plan, Enter(plan, wave, |log|, record, log))
  {
    assert GoodResults([], [], {});
    assert GoodLinks([], wave, log);
  }

  lemma InitHolds(plan: Plan)
    ensures Inv(plan, Init(plan))
  {
    assert GoodRecord(plan, 0, [], {}, []);
    EnterHolds(plan, 0, [], []);
  }

  /** The actions of the controller itself. */
  lemma ControllerKeeps(plan: Plan, s: State, a: Action)
    requires Inv(plan, s) && Enabled(plan, s, a)
             && (a.Spawn? || a.SpawnedAll? || a.Release? || a.Receive? || a.NextWave?)
    ensures Inv(plan, Apply(plan, s, a))
  {
    match a
    case Spawn => SpawnKeeps(plan, s);
    case SpawnedAll => SpawnedAllKeeps(plan, s);
    case Release => ReleaseKeeps(plan, s);
    case Receive => ReceiveKeeps(plan, s);
    case NextWave => NextWaveKeeps(plan, s);
  }

  /** The actions of one goroutine up to its invocation stamp. */
  lemma InvocationKeeps(plan: Plan, s: State, a: Action)
    requires Inv(plan, s) && Enabled(plan, s, a) && (a.FailNonce? || a.Stamp? || a.Arm?)
    ensures Inv(plan, Apply(plan, s, a))
  {
    match a
    case FailNonce(i) => FailNonceKeeps(plan, s, i);
    case Stamp(i) => StampKeeps(plan, s, i);
    case Arm(i) => ArmKeeps(plan, s, i);
  }

  /** The actions of one goroutine behind the barrier. */
  lemma ExecutionKeeps(plan: Plan, s: State, a: Action)
    requires Inv(plan, s) && Enabled(plan, s, a) && (a.Proceed? || a.Return? || a.Send?)
    ensures Inv(plan, Apply(plan, s, a))
  {
    match a
    case Proceed(i) => ProceedKeeps(plan, s, i);
    case Return(i, ok) => ReturnKeeps(plan, s, i, ok);
    case Send(i) => SendKeeps(plan, s, i);
  }

  lemma ApplyKeeps(plan: Plan, s: State, a: Action)
    requires Inv(plan, s) && Enabled(plan, s, a)
    ensures Inv(plan, Apply(plan, s, a))
  {
    if a.FailNonce? || a.Stamp? || a.Arm? {
      InvocationKeeps(plan, s, a);
    } else if a.Proceed? || a.Return? || a.Send? {
      ExecutionKeeps(plan, s, a);
    } else {
      ControllerKeeps(plan, s, a);
    }
  }

  lemma {:induction false} EveryScheduleKeeps(plan: Plan, actions: seq<Action>, s: State)
    requires Reaches(plan, actions, s)
    ensures Inv(plan, s)
    decreases |actions|
  {
    if actions == [] {
      InitHolds(plan);
    } else {
      var front, last := actions[..|actions| - 1], actions[|actions| - 1];
      var p :| Reaches(plan, front, p) && Enabled(plan, p, last) && s == Apply(plan, p, last);
      EveryScheduleKeeps(plan, front, p);
      ApplyKeeps(plan, p, last);
    }
  }

  // ---------------------------------------------------------------------------------------
  // Completed runs.
  // ---------------------------------------------------------------------------------------

  /** Every planned operation is recorded, and recorded once. */
  ghost predicate RecordsPlan(plan: Plan, record: seq<Entry>) {
    && |record| == Total(plan, |plan|)
    && (forall k | 0 <= k < |record| :: record[k].wave < |plan| && record[k].index < |plan[record[k].wave]|)
    && (forall k, l | 0 <= k < l < |record| :: record[k].wave != record[l].wave || record[k].index != record[l].index)
    && (forall w, i | 0 <= w < |plan| && 0 <= i < |plan[w]| :: HasEntry(record, w, i))
  }

  /** In a wave every invocation precedes every response; waves do not overlap. */
  ghost predicate WavesSeparate(record: seq<Entry>) {
    forall e, f | e in record && f in record ::
      && (e.wave == f.wave ==> e.invoke < f.ret)
      && (e.wave < f.wave ==> e.ret < f.invoke)
  }

  ghost predicate UsesOrdinal(record: seq<Entry>, x: nat) {
    exists e :: e in record && (e.invoke == x || e.ret == x)
  }

  /** The ordinals of the record are 1..bound, each used exactly once. */
  ghost predicate UsesOrdinals(record: seq<Entry>, bound: nat) {
    && (forall e | e in record :: 1 <= e.invoke <= bound && 1 <= e.ret <= bound)
    && (forall e, f | e in record && f in record :: e.invoke != f.ret)
    && (forall e, f | e in record && f in record && (e.invoke == f.invoke || e.ret == f.ret) :: e == f)
    && (forall x | 1 <= x <= bound :: UsesOrdinal(record, x))
  }

  lemma EntryOfEvent(plan: Plan, s: State, x: nat) returns (e: Entry)
    requires Inv(plan, s) && s.phase == Finished && 1 <= x <= |s.log|
    ensures e in s.record && (e.invoke == x || e.ret == x)
  {
    var event := s.log[x - 1];
    assert GoodEvent(plan, s.wave, event);
    assert HasEntry(s.record, event.wave, event.index);
    var k :| 0 <= k < |s.record| && s.record[k].wave == event.wave && s.record[k].index == event.index;
    e := s.record[k];
    assert Recorded(s.log, e);
    DistinctOrdinals(plan, s.wave, s.log, e.invoke, x);
    DistinctOrdinals(plan, s.wave, s.log, e.ret, x);
  }

  lemma DistinctOrdinals(plan: Plan, wave: nat, log: seq<Event>, x: nat, y: nat)
    requires OrderedLog(plan, log, wave) && 1 <= x <= |log| && 1 <= y <= |log|
    ensures x != y ==> log[x - 1] != log[y - 1]
  {
    if x < y { assert InOrder(log[x - 1], log[y - 1]); }
    if y < x { assert InOrder(log[y - 1], log[x - 1]); }
  }

  lemma FinishedCovers(plan: Plan, s: State)
    requires Inv(plan, s) && s.phase == Finished
    ensures RecordsPlan(plan, s.record)
  {
    forall k | 0 <= k < |s.record|
      ensures s.record[k].wave < |plan| && s.record[k].index < |plan[s.record[k].wave]|
    {
      assert Recorded(s.log, s.record[k]);
      assert GoodEvent(plan, s.wave, s.log[s.record[k].invoke - 1]);
    }
  }

  lemma FinishedSeparates(plan: Plan, s: State, e: Entry, f: Entry)
    requires Inv(plan, s) && s.phase == Finished && e in s.record && f in s.record
    ensures e.wave == f.wave ==> e.invoke < f.ret
    ensures e.wave < f.wave ==> e.ret < f.invoke
    ensures e.invoke != f.ret
    ensures e.invoke == f.invoke || e.ret == f.ret ==> e == f
    ensures 1 <= e.invoke <= |s.log| && 1 <= e.ret <= |s.log|
  {
    assert Recorded(s.log, e) && Recorded(s.log, f);
    var log := s.log;
    if f.ret < e.invoke { assert InOrder(log[f.ret - 1], log[e.invoke - 1]); }
    if f.invoke < e.ret { assert InOrder(log[f.invoke - 1], log[e.ret - 1]); }
    if e.invoke == f.invoke || e.ret == f.ret {
      SameEntry(plan, s.wave, log, e, f);
    }
  }

  lemma SameEntry(plan: Plan, wave: nat, log: seq<Event>, e: Entry, f: Entry)
    requires Recorded(log, e) && Recorded(log, f) && (e.invoke == f.invoke || e.ret == f.ret)
             && OrderedLog(plan, log, wave)
    ensures e == f
  {
    DistinctOrdinals(plan, wave, log, e.invoke, f.invoke);
    DistinctOrdinals(plan, wave, log, e.ret, f.ret);
  }

  /**
   For every schedule that completes: the record covers the plan, waves are separated, and the
   ordinals used are exactly 1..2N.
   */
  lemma CompletedRun(plan: Plan, actions: seq<Action>, s: State)
    requires Reaches(plan, actions, s) && s.phase == Finished
    ensures RecordsPlan(plan, s.record)
    ensures WavesSeparate(s.record)
    ensures UsesOrdinals(s.record, 2 * Total(plan, |plan|))
  {
    EveryScheduleKeeps(plan, actions, s);
    FinishedCovers(plan, s);
    forall e, f | e in s.record && f in s.record
      ensures e.wave == f.wave ==> e.invoke < f.ret
      ensures e.wave < f.wave ==> e.ret < f.invoke
      ensures e.invoke != f.ret
      ensures e.invoke == f.invoke || e.ret == f.ret ==> e == f
      ensures 1 <= e.invoke <= |s.log| && 1 <= e.ret <= |s.log|
    {
      FinishedSeparates(plan, s, e, f);
    }
    assert |s.log| == 2 * Total(plan, |plan|);
    forall x | 1 <= x <= 2 * Total(plan, |plan|)
      ensures UsesOrdinal(s.record, x)
    {
      var e := EntryOfEvent(plan, s, x);
    }
  }
}
