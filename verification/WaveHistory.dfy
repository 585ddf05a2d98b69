/** Real-time orders of the histories that completed controller runs record. */
module WaveHistory {

  import opened AnchorHistory
  import opened ControllerWaves
  import opened RealTimeOrder
  import F = FinalLoad

  ghost predicate IsRecorded(record: seq<Entry>, wave: nat, op: Operation) {
    exists e :: e in record && e.wave == wave && e.invoke == op.invoke && e.ret == op.ret
  }

  /** `ops` lists the recorded operations, in any order, and `waveOf` the wave of each. */
  ghost predicate Lists(record: seq<Entry>, ops: seq<Operation>, waveOf: seq<nat>) {
    && |ops| == |waveOf| == |record|
    && forall a | 0 <= a < |ops| :: IsRecorded(record, waveOf[a], ops[a])
  }

  lemma RecordIsSeparated(record: seq<Entry>, ops: seq<Operation>, waveOf: seq<nat>)
    requires WavesSeparate(record) && Lists(record, ops, waveOf)
    ensures Separated(ops, waveOf)
  {
    forall a, b | 0 <= a < |ops| && 0 <= b < |ops|
      ensures waveOf[a] == waveOf[b] ==> ops[a].invoke < ops[b].ret
      ensures waveOf[a] < waveOf[b] ==> ops[a].ret < ops[b].invoke
    {
      assert IsRecorded(record, waveOf[a], ops[a]) && IsRecorded(record, waveOf[b], ops[b]);
    }
  }

  lemma RecordIsBounded(plan: Plan, record: seq<Entry>, ops: seq<Operation>, waveOf: seq<nat>, a: nat)
    requires RecordsPlan(plan, record) && UsesOrdinals(record, 2 * Total(plan, |plan|)) && Lists(record, ops, waveOf)
    requires a < |ops|
    ensures waveOf[a] < |plan| && ops[a].ret <= 2 * Total(plan, |plan|)
  {
    assert IsRecorded(record, waveOf[a], ops[a]);
  }

  /**
   For every plan and every completed schedule, a total order of the recorded operations respects
   real time exactly when it is a concatenation of per-wave permutations.
   */
  lemma CompletedRunOrders(plan: Plan, actions: seq<Action>, s: State, ops: seq<Operation>, waveOf: seq<nat>,
                           order: seq<nat>)
    requires Reaches(plan, actions, s) && s.phase == Finished
    requires Lists(s.record, ops, waveOf) && IsOrder(|ops|, order)
    ensures RespectsRealTime(ops, order) <==> IsWaveConcatenation(|plan|, waveOf, order)
  {
    CompletedRun(plan, actions, s);
    RecordIsSeparated(s.record, ops, waveOf);
    forall a | 0 <= a < |ops|
      ensures waveOf[a] < |plan|
    {
      RecordIsBounded(plan, s.record, ops, waveOf, a);
    }
    RealTimeIffWaveConcatenation(ops, |plan|, waveOf, order);
  }

  /** After the final load is appended it closes every real-time order of the run. */
  lemma FinalLoadClosesRun(plan: Plan, actions: seq<Action>, s: State, ops: seq<Operation>, waveOf: seq<nat>,
                           final: Operation, order: seq<nat>)
    requires Reaches(plan, actions, s) && s.phase == Finished && Lists(s.record, ops, waveOf)
    requires final.invoke >= 1 && F.EventsAtMost(ops, final.invoke - 1)
    requires IsOrder(|ops| + 1, order) && RespectsRealTime(ops + [final], order)
    ensures order[|ops|] == |ops|
    ensures IsOrder(|ops|, order[..|ops|]) && IsWaveConcatenation(|plan|, waveOf, order[..|ops|])
  {
    F.LatestIsLast(ops, final, order);
    var front := order[..|ops|];
    WithoutLast(ops, final, order);
    CompletedRunOrders(plan, actions, s, ops, waveOf, front);
  }

  lemma WithoutLast(ops: seq<Operation>, final: Operation, order: seq<nat>)
    requires IsOrder(|ops| + 1, order) && RespectsRealTime(ops + [final], order) && order[|ops|] == |ops|
    ensures IsOrder(|ops|, order[..|ops|]) && RespectsRealTime(ops, order[..|ops|])
  {
    var all, front := ops + [final], order[..|ops|];
    forall i | 0 <= i < |ops| ensures front[i] < |ops| { assert order[i] != order[|ops|]; }
    forall i, j | 0 <= i < j < |ops|
      ensures !Precedes(ops[front[j]], ops[front[i]])
    {
      assert all[order[i]] == ops[front[i]] && all[order[j]] == ops[front[j]];
    }
  }
}
