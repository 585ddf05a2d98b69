/** The controller's wave loop is never stuck, always ends, and can always complete unless something failed. */
module ControllerProgress {

  import opened ControllerWaves
  import opened Permutations

  // ---------------------------------------------------------------------------------------
  // Whatever was sent is in the channel or has been received.
  // ---------------------------------------------------------------------------------------

  predicate Sent(t: Thread) { t.SentResult? || t.SentError? }

  ghost predicate Queued(results: seq<Result>, i: nat) {
    exists k :: 0 <= k < |results| && results[k].index == i
  }

  ghost predicate GoodQueue(phase: Phase, threads: seq<Thread>, results: seq<Result>, received: set<nat>) {
    var holds :=
      phase != Aborted ==>
        forall i | 0 <= i < |threads| && Sent(threads[i]) :: i in received || Queued(results, i);
    holds
  }

  lemma UnsentKeepsQueue(phase: Phase, threads: seq<Thread>, results: seq<Result>, received: set<nat>, i: nat,
                         t: Thread)
    requires GoodQueue(phase, threads, results, received) && i < |threads| && !Sent(t)
    ensures GoodQueue(phase, threads[i := t], results, received)
  {
  }

  lemma SendKeepsQueue(phase: Phase, threads: seq<Thread>, results: seq<Result>, received: set<nat>, i: nat, t: Thread,
                       r: Result)
    requires GoodQueue(phase, threads, results, received) && i < |threads| && r.index == i
    ensures GoodQueue(phase, threads[i := t], results + [r], received)
  {
    var longer := results + [r];
    assert longer[|results|] == r;
    forall j | Queued(results, j) ensures Queued(longer, j) {
      var k :| 0 <= k < |results| && results[k].index == j;
      assert longer[k] == results[k];
    }
  }

  lemma ReceiveKeepsQueue(phase: Phase, threads: seq<Thread>, results: seq<Result>, received: set<nat>)
    requires GoodQueue(phase, threads, results, received) && results != []
    ensures GoodQueue(phase, threads, results[1..], received + {results[0].index})
  {
    forall j | Queued(results, j) && j != results[0].index ensures Queued(results[1..], j) {
      var k :| 0 <= k < |results| && results[k].index == j;
      assert results[1..][k - 1] == results[k];
    }
  }

  ghost predicate HasQueue(s: State) { GoodQueue(s.phase, s.threads, s.results, s.received) }

  lemma ApplyKeepsQueue(plan: Plan, s: State, a: Action)
    requires HasQueue(s) && Enabled(plan, s, a)
    ensures HasQueue(Apply(plan, s, a))
  {
    match a
    case Spawn =>
    case SpawnedAll =>
    case Release =>
    case NextWave =>
    case Receive =>
      ReceiveKeepsQueue(s.phase, s.threads, s.results, s.received);
    case Send(i) =>
      var s' := Apply(plan, s, a);
      SendKeepsQueue(s.phase, s.threads, s.results, s.received, i, s'.threads[i], s'.results[|s.results|]);
    case FailNonce(i) => UnsentKeepsQueue(s.phase, s.threads, s.results, s.received, i, NonceFailed);
    case Stamp(i) => UnsentKeepsQueue(s.phase, s.threads, s.results, s.received, i, Stamped(s.events + 1));
    case Arm(i) =>
      UnsentKeepsQueue(s.phase, s.threads, s.results, s.received, i, Apply(plan, s, a).threads[i]);
    case Proceed(i) =>
      UnsentKeepsQueue(s.phase, s.threads, s.results, s.received, i, Executing(s.threads[i].invoke));
    case Return(i, ok) =>
      UnsentKeepsQueue(s.phase, s.threads, s.results, s.received, i, Apply(plan, s, a).threads[i]);
  }

  lemma {:induction false} EveryScheduleQueues(plan: Plan, actions: seq<Action>, s: State)
    requires Reaches(plan, actions, s)
    ensures HasQueue(s)
    decreases |actions|
  {
    if actions == [] {
    } else {
      var front, last := actions[..|actions| - 1], actions[|actions| - 1];
      var p :| Reaches(plan, front, p) && Enabled(plan, p, last) && s == Apply(plan, p, last);
      EveryScheduleQueues(plan, front, p);
      ApplyKeepsQueue(plan, p, last);
    }
  }

  // ---------------------------------------------------------------------------------------
  // No deadlock.
  // ---------------------------------------------------------------------------------------

  /** An action by which nothing fails. */
  predicate Favourable(a: Action) { !a.FailNonce? && (a.Return? ==> a.succeeded) }

  lemma {:induction false} SomePending(threads: seq<Thread>) returns (i: nat)
    requires PendingCount(threads) > 0
    ensures i < |threads| && Pending(threads[i])
  {
    var last := |threads| - 1;
    if Pending(threads[last]) {
      i := last;
    } else {
      i := SomePending(threads[..last]);
    }
  }

  lemma SomeUnreceived(size: nat, received: set<nat>) returns (i: nat)
    requires |received| < size
    ensures i < size && i !in received
  {
    if Below(size) <= received {
      SubsetSize(Below(size), received);
    }
    i :| i in Below(size) && i !in received;
  }

  /** A goroutine that has not sent can act once the barrier is open. */
  lemma DispatchedActs(plan: Plan, s: State, i: nat) returns (a: Action)
    requires i < |s.threads| && s.dispatched && !Pending(s.threads[i]) && !Sent(s.threads[i])
    ensures Enabled(plan, s, a) && Favourable(a)
  {
    var t := s.threads[i];
    a := if t.Armed? then Proceed(i) else if t.Executing? then Return(i, true) else Send(i);
  }

  lemma CollectingActs(plan: Plan, s: State) returns (a: Action)
    requires Inv(plan, s) && HasQueue(s) && s.phase == Collecting
    ensures Enabled(plan, s, a) && Favourable(a)
  {
    var size := |plan[s.wave]|;
    if |s.received| >= size {
      assert s.received <= Below(size);
      SubsetSize(s.received, Below(size));
      a := NextWave;
    } else if s.results != [] {
      a := Receive;
    } else {
      var i := SomeUnreceived(size, s.received);
      a := DispatchedActs(plan, s, i);
    }
  }

  /** In every reachable state that is neither finished nor aborted something can happen, and need not fail. */
  lemma NeverStuck(plan: Plan, actions: seq<Action>, s: State) returns (a: Action)
    requires Reaches(plan, actions, s) && s.phase != Finished && s.phase != Aborted
    ensures Enabled(plan, s, a) && Favourable(a)
  {
    EveryScheduleKeeps(plan, actions, s);
    EveryScheduleQueues(plan, actions, s);
    if s.phase == Spawning {
      a := if |s.threads| < |plan[s.wave]| then Spawn else SpawnedAll;
    } else if s.phase == Collecting {
      a := CollectingActs(plan, s);
    } else if s.unarmed == 0 {
      a := Release;
    } else {
      var i := SomePending(s.threads);
      a := if s.threads[i].Starting? then Stamp(i) else Arm(i);
    }
  }

  // ---------------------------------------------------------------------------------------
  // Every schedule ends.
  // ---------------------------------------------------------------------------------------

  /** The number of actions that a goroutine and its result can still take. */
  function Weight(t: Thread): nat {
    match t
    case Starting => 6
    case NonceFailed => 5
    case Stamped(_) => 5
    case Armed(_) => 4
    case Executing(_) => 3
    case Returned(_, _, _) => 2
    case Broken => 2
    case SentResult(_, _) => 0
    case SentError(_) => 0
  }

  ghost function Weights(threads: seq<Thread>): nat {
    if threads == [] then 0 else Weights(threads[..|threads| - 1]) + Weight(threads[|threads| - 1])
  }

  lemma {:induction false} WeightsUpdate(threads: seq<Thread>, i: nat, t: Thread)
    requires i < |threads|
    ensures Weights(threads[i := t]) == Weights(threads) - Weight(threads[i]) + Weight(t)
  {
    var n := |threads|;
    if i == n - 1 {
      assert threads[i := t][..n - 1] == threads[..n - 1];
    } else {
      WeightsUpdate(threads[..n - 1], i, t);
      assert threads[i := t][..n - 1] == threads[..n - 1][i := t];
    }
  }

  /** Seven actions for each operation of these waves and three for each wave. */
  ghost function Ahead(plan: Plan, w: nat): nat
    decreases |plan| - w
  {
    if w >= |plan| then 0 else 7 * |plan[w]| + 3 + Ahead(plan, w + 1)
  }

  function PhaseWork(phase: Phase): nat {
    match phase
    case Spawning => 3
    case Arming => 2
    case Collecting => 1
    case _ => 0
  }

  ghost function Work(plan: Plan, s: State): int {
    if s.wave >= |plan| then 0
    else
      PhaseWork(s.phase) + 7 * (|plan[s.wave]| - |s.threads|) + Weights(s.threads) + |s.results|
        + Ahead(plan, s.wave + 1)
  }

  /** No more goroutines than operations; and an action needs a wave that is not yet over. */
  ghost predicate Shaped(plan: Plan, s: State, a: Action) {
    s.wave < |plan| && |s.threads| <= |plan[s.wave]| && (a.NextWave? ==> |s.threads| == |plan[s.wave]|)
  }

  lemma EnabledIsShaped(plan: Plan, s: State, a: Action)
    requires Inv(plan, s) && Enabled(plan, s, a)
    ensures Shaped(plan, s, a)
  {
  }

  /** A goroutine moves on. */
  lemma ThreadWorks(plan: Plan, s: State, a: Action, i: nat)
    requires Shaped(plan, s, a) && Enabled(plan, s, a) && i < |s.threads|
    requires (a.FailNonce? || a.Stamp? || a.Arm? || a.Proceed? || a.Return? || a.Send?) && a.thread == i
    ensures 0 <= Work(plan, Apply(plan, s, a)) < Work(plan, s)
  {
    WeightsUpdate(s.threads, i, Apply(plan, s, a).threads[i]);
  }

  lemma ControllerWorks(plan: Plan, s: State, a: Action)
    requires Shaped(plan, s, a) && Enabled(plan, s, a)
    requires a.Spawn? || a.SpawnedAll? || a.Release? || a.Receive? || a.NextWave?
    ensures 0 <= Work(plan, Apply(plan, s, a)) < Work(plan, s)
  {
    if a.Spawn? {
      assert Apply(plan, s, a).threads[..|s.threads|] == s.threads;
    }
  }

  lemma ApplyWorks(plan: Plan, s: State, a: Action)
    requires Inv(plan, s) && Enabled(plan, s, a)
    ensures 0 <= Work(plan, Apply(plan, s, a)) < Work(plan, s)
  {
    EnabledIsShaped(plan, s, a);
    if a.Spawn? || a.SpawnedAll? || a.Release? || a.Receive? || a.NextWave? {
      ControllerWorks(plan, s, a);
    } else {
      ThreadWorks(plan, s, a, a.thread);
    }
  }

  lemma {:induction false} AheadCounts(plan: Plan, w: nat)
    requires w <= |plan|
    ensures 7 * Total(plan, w) + 3 * w + Ahead(plan, w) == Ahead(plan, 0)
  {
    if w == 0 {
    } else {
      AheadCounts(plan, w - 1);
    }
  }

  /** No schedule takes more than seven actions for each operation and three for each wave. */
  lemma {:induction false} EveryScheduleEnds(plan: Plan, actions: seq<Action>, s: State)
    requires Reaches(plan, actions, s)
    ensures 0 <= Work(plan, s) <= 7 * Total(plan, |plan|) + 3 * |plan| - |actions|
    decreases |actions|
  {
    if actions == [] {
      AheadCounts(plan, |plan|);
    } else {
      var front, last := actions[..|actions| - 1], actions[|actions| - 1];
      var p :| Reaches(plan, front, p) && Enabled(plan, p, last) && s == Apply(plan, p, last);
      EveryScheduleEnds(plan, front, p);
      EveryScheduleKeeps(plan, front, p);
      ApplyWorks(plan, p, last);
    }
  }

  // ---------------------------------------------------------------------------------------
  // Completion.
  // ---------------------------------------------------------------------------------------

  predicate HealthyThread(t: Thread) {
    !t.NonceFailed? && !t.Broken? && !t.SentError? && (t.Returned? ==> t.succeeded)
  }

  /** Nothing has failed in this wave so far. */
  ghost predicate Healthy(s: State) {
    && s.phase != Aborted && (forall i | 0 <= i < |s.threads| :: HealthyThread(s.threads[i]))
    && (forall k | 0 <= k < |s.results| :: s.results[k].Completed?)
  }

  lemma FavourableKeepsHealth(plan: Plan, s: State, a: Action)
    requires Healthy(s) && Enabled(plan, s, a) && Favourable(a)
    ensures Healthy(Apply(plan, s, a))
  {
    if a.Receive? {
      assert forall k | 0 <= k < |s.results| - 1 :: s.results[1..][k] == s.results[k + 1];
    }
  }

  lemma OneMoreAction(plan: Plan, actions: seq<Action>, s: State, a: Action)
    requires Reaches(plan, actions, s) && Enabled(plan, s, a)
    ensures Reaches(plan, actions + [a], Apply(plan, s, a))
  {
    var longer := actions + [a];
    assert longer[..|longer| - 1] == actions && longer[|longer| - 1] == a;
    assert Reaches(plan, longer[..|longer| - 1], s);
  }

  /** From every reachable state in which nothing has failed, some schedule completes the plan. */
  lemma {:induction false} CanComplete(plan: Plan, actions: seq<Action>, s: State)
    returns (actions': seq<Action>, s': State)
    requires Reaches(plan, actions, s) && Healthy(s)
    ensures actions <= actions' && Reaches(plan, actions', s') && s'.phase == Finished
    decreases Work(plan, s)
  {
    if s.phase == Finished {
      actions', s' := actions, s;
    } else {
      var a := NeverStuck(plan, actions, s);
      EveryScheduleKeeps(plan, actions, s);
      ApplyWorks(plan, s, a);
      FavourableKeepsHealth(plan, s, a);
      OneMoreAction(plan, actions, s, a);
      actions', s' := CanComplete(plan, actions + [a], Apply(plan, s, a));
    }
  }

  /** Every plan has a schedule that completes it. */
  lemma EveryPlanCompletes(plan: Plan) returns (actions: seq<Action>, s: State)
    ensures Reaches(plan, actions, s) && s.phase == Finished
  {
    actions, s := CanComplete(plan, [], Init(plan));
  }

  // ---------------------------------------------------------------------------------------
  // Failures.
  // ---------------------------------------------------------------------------------------

  /** Something has failed in this wave, and the controller has received it or will have to. */
  ghost predicate Spoiled(s: State) {
    var holds := s.phase == Aborted || exists i :: 0 <= i < |s.threads| && !HealthyThread(s.threads[i]);
    holds
  }

  lemma ReceivedAreHealthy(plan: Plan, s: State)
    requires Inv(plan, s) && Enabled(plan, s, NextWave)
    ensures forall i | 0 <= i < |s.threads| :: s.threads[i].SentResult?
  {
    var size := |plan[s.wave]|;
    assert s.received <= Below(size);
    SubsetSize(s.received, Below(size));
    forall i | 0 <= i < |s.threads| ensures s.threads[i].SentResult? {
      assert i in Below(size);
    }
  }

  /** A failure is never left behind. */
  lemma SpoiledStays(plan: Plan, s: State, a: Action)
    requires Inv(plan, s) && Spoiled(s) && Enabled(plan, s, a)
    ensures Spoiled(Apply(plan, s, a))
  {
    if a.NextWave? {
      ReceivedAreHealthy(plan, s);
    } else if s.phase != Aborted {
      var s' := Apply(plan, s, a);
      var i :| 0 <= i < |s.threads| && !HealthyThread(s.threads[i]);
      assert s'.phase == Aborted || !HealthyThread(s'.threads[i]);
    }
  }

  lemma UnfavourableSpoils(plan: Plan, s: State, a: Action)
    requires Enabled(plan, s, a) && !Favourable(a)
    ensures Spoiled(Apply(plan, s, a))
  {
    assert !HealthyThread(Apply(plan, s, a).threads[a.thread]);
  }

  lemma StepSpoils(plan: Plan, s: State, a: Action)
    requires Inv(plan, s) && Enabled(plan, s, a) && (Spoiled(s) || !Favourable(a))
    ensures Spoiled(Apply(plan, s, a))
  {
    if !Favourable(a) {
      UnfavourableSpoils(plan, s, a);
    } else {
      SpoiledStays(plan, s, a);
    }
  }

  ghost predicate AllFavourable(actions: seq<Action>) {
    var holds := forall k | 0 <= k < |actions| :: Favourable(actions[k]);
    holds
  }

  lemma AllButLast(actions: seq<Action>)
    requires actions != []
    ensures AllFavourable(actions) <==> AllFavourable(actions[..|actions| - 1]) && Favourable(actions[|actions| - 1])
  {
    var front := actions[..|actions| - 1];
    assert forall k | 0 <= k < |front| :: actions[k] == front[k];
  }

  lemma {:induction false} FailureSpoils(plan: Plan, actions: seq<Action>, s: State)
    requires Reaches(plan, actions, s)
    ensures AllFavourable(actions) || Spoiled(s)
    decreases |actions|
  {
    if actions == [] {
    } else {
      AllButLast(actions);
      var front, last := actions[..|actions| - 1], actions[|actions| - 1];
      var p :| Reaches(plan, front, p) && Enabled(plan, p, last) && s == Apply(plan, p, last);
      FailureSpoils(plan, front, p);
      EveryScheduleKeeps(plan, front, p);
      if !AllFavourable(actions) {
        StepSpoils(plan, p, last);
      }
    }
  }

  /** A run completes only if no agent call and no nonce failed: everything recorded was answered. */
  lemma CompletedWithoutFailure(plan: Plan, actions: seq<Action>, s: State)
    requires Reaches(plan, actions, s) && s.phase == Finished
    ensures forall k | 0 <= k < |actions| :: !actions[k].FailNonce? && (actions[k].Return? ==> actions[k].succeeded)
  {
    EveryScheduleKeeps(plan, actions, s);
    FailureSpoils(plan, actions, s);
  }

  lemma {:induction false} FavourableIsHealthy(plan: Plan, actions: seq<Action>, s: State)
    requires Reaches(plan, actions, s) && AllFavourable(actions)
    ensures Healthy(s)
    decreases |actions|
  {
    if actions == [] {
    } else {
      AllButLast(actions);
      var front, last := actions[..|actions| - 1], actions[|actions| - 1];
      var p :| Reaches(plan, front, p) && Enabled(plan, p, last) && s == Apply(plan, p, last);
      FavourableIsHealthy(plan, front, p);
      FavourableKeepsHealth(plan, p, last);
    }
  }

  /** A run aborts only after a failure; it does so by receiving one, and stays aborted. */
  lemma AbortedByFailure(plan: Plan, actions: seq<Action>, s: State, a: Action)
    requires Reaches(plan, actions, s) && Enabled(plan, s, a)
    ensures s.phase == Aborted ==> exists k :: 0 <= k < |actions| && !Favourable(actions[k])
    ensures s.phase == Aborted ==> Apply(plan, s, a).phase == Aborted
    ensures s.phase != Aborted ==>
              (Apply(plan, s, a).phase == Aborted <==> a.Receive? && s.results[0].Errored?)
  {
    if AllFavourable(actions) {
      FavourableIsHealthy(plan, actions, s);
    }
  }

  /**
   A schedule that cannot go on has finished or aborted, and it has finished exactly if nothing in it
   failed.
   */
  lemma EndsFinishedIffNothingFailed(plan: Plan, actions: seq<Action>, s: State)
    requires Reaches(plan, actions, s) && forall a :: !Enabled(plan, s, a)
    ensures s.phase == Finished || s.phase == Aborted
    ensures s.phase == Finished <==> AllFavourable(actions)
  {
    if s.phase == Finished {
      CompletedWithoutFailure(plan, actions, s);
    } else if s.phase != Aborted {
      var a := NeverStuck(plan, actions, s);
    } else if AllFavourable(actions) {
      FavourableIsHealthy(plan, actions, s);
    }
  }
}
