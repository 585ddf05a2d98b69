/** Histories that the controller records from runs of the quorum store, as the qualification would check them. */
module StoreHistory {

  import opened Anchors
  import H = AnchorHistory
  import F = FinalLoad
  import P = ControllerProgress
  import R = RealTimeOrder
  import V = WaveHistory
  import W = ControllerWaves
  import opened LoadInversion
  import opened QuorumRuns

  /**
   When the ordinals were stamped: ordinal `x` just before the store's action number `times[x - 1]`,
   or after all of them.
   */
  ghost predicate IsTiming(actions: seq<Action>, times: seq<nat>) {
    && (forall x | 0 <= x < |times| :: times[x] <= |actions|)
    && (forall x, y | 0 <= x < y < |times| :: times[x] <= times[y])
  }

  /** The operation takes effect in the store between its two stamps, and reports what it learned there. */
  ghost predicate Recorded(actions: seq<Action>, times: seq<nat>, op: H.Operation, start: nat, end: nat) {
    && 1 <= op.invoke < op.ret <= |times| && times[op.invoke - 1] <= start < end < times[op.ret - 1]
    && (|| (op.kind == H.Load && op.outcome == H.Succeeded && exists l, order ::
              Loads(actions, l, order, op.value, start, end))
        || (op.kind == H.Advance && op.outcome == H.Succeeded && exists w ::
              Advances(actions, w, op.value, start, end))
        || (op.kind == H.Advance && op.outcome == H.Failed && exists w :: Begins(actions, w, op.value, start)))
  }

  ghost predicate Loads(actions: seq<Action>, l: nat, order: seq<nat>, v: Value, start: nat, end: nat) {
    start < end < |actions| && actions[start] == BeginLoad(l) && actions[end] == Return(l, order, v)
  }

  ghost predicate Begins(actions: seq<Action>, w: nat, v: Value, start: nat) {
    start < |actions| && actions[start] == BeginAdvance(w, v)
  }

  ghost predicate Advances(actions: seq<Action>, w: nat, v: Value, start: nat, end: nat) {
    Begins(actions, w, v, start) && start < end < |actions| && actions[end] == Acknowledge(w)
  }

  ghost predicate IsRecorded(actions: seq<Action>, times: seq<nat>, op: H.Operation) {
    exists start, end :: Recorded(actions, times, op, start, end)
  }

  /** Every operation of the history is recorded from the run, which starts with empty members. */
  ghost predicate RecordedFrom(actions: seq<Action>, times: seq<nat>, h: H.History) {
    && h.initial == ABSENT && IsTiming(actions, times)
    && forall i | 0 <= i < |h.operations| :: IsRecorded(actions, times, h.operations[i])
  }

  /** A later load that does not keep an earlier load's value refutes linearizability. */
  lemma BackwardLoadsRefute(h: H.History, i: nat, j: nat)
    requires i < |h.operations| && j < |h.operations|
    requires h.operations[i].kind == H.Load && h.operations[i].outcome == H.Succeeded
    requires h.operations[j].kind == H.Load && h.operations[j].outcome == H.Succeeded
    requires H.Precedes(h.operations[i], h.operations[j]) && !Covers(h.operations[j].value, h.operations[i].value)
    ensures !H.Linearizable(h)
  {
    if H.Linearizable(h) {
      F.LoadCoversEarlier(h, j);
    }
  }

  /**
   The controller's record of that run: an acknowledged advance, one that fails, and two loads, each
   in its own wave.
   */
  function InversionHistory(low: Value, high: Value): H.History {
    H.History(ABSENT, [
      H.Operation("a", H.Advance, H.Succeeded, 1, 2, low), H.Operation("b", H.Advance, H.Failed, 3, 4, high),
      H.Operation("c", H.Load, H.Succeeded, 5, 6, high), H.Operation("d", H.Load, H.Succeeded, 7, 8, low)])
  }

  const PLAN: W.Plan := [["a"], ["b"], ["c"], ["d"]]

  const TIMES: seq<nat> := [0, 5, 5, 7, 7, 11, 11, 15]

  lemma InversionIsValid(low: Value, high: Value)
    requires H.ValidValue(low) && H.ValidValue(high) && low.present && high.present
    ensures H.ValidHistory(InversionHistory(low, high))
  {
    var ops := InversionHistory(low, high).operations;
    assert forall i | 0 <= i < 4 :: ops[i].id == ["a", "b", "c", "d"][i];
    assert forall i, j | 0 <= i < j < 4 :: ["a", "b", "c", "d"][i][0] != ["a", "b", "c", "d"][j][0];
  }

  lemma InversionIsRecorded(actions: seq<Action>, low: Value, high: Value)
    requires |actions| == 15
    requires actions[0] == BeginAdvance(0, low) && actions[4] == Acknowledge(0) && actions[5] == BeginAdvance(1, high)
    requires actions[7] == BeginLoad(0) && actions[10] == Return(0, [0, 1], high)
    requires actions[11] == BeginLoad(1) && actions[14] == Return(1, [1, 2], low)
    ensures RecordedFrom(actions, TIMES, InversionHistory(low, high))
  {
    var ops := InversionHistory(low, high).operations;
    assert Advances(actions, 0, low, 0, 4) && Recorded(actions, TIMES, ops[0], 0, 4);
    assert Begins(actions, 1, high, 5) && Recorded(actions, TIMES, ops[1], 5, 6);
    assert Loads(actions, 0, [0, 1], high, 7, 10) && Recorded(actions, TIMES, ops[2], 7, 10);
    assert Loads(actions, 1, [1, 2], low, 11, 14) && Recorded(actions, TIMES, ops[3], 11, 14);
    forall i | 0 <= i < 4 ensures IsRecorded(actions, TIMES, ops[i]) {
      assert i == 0 || i == 1 || i == 2 || i == 3;
    }
  }

  /** Four waves of one operation each leave only one possible record. */
  lemma OneRecord(record: seq<W.Entry>, w: nat) returns (e: W.Entry)
    requires W.RecordsPlan(PLAN, record) && W.WavesSeparate(record) && W.UsesOrdinals(record, 8) && w < 4
    ensures e in record && e.wave == w && e.invoke == 2 * w + 1 && e.ret == 2 * w + 2
  {
    var a := EntryOf(record, 0);
    var b := EntryOf(record, 1);
    var c := EntryOf(record, 2);
    var d := EntryOf(record, 3);
    assert a.invoke < a.ret < b.invoke < b.ret < c.invoke < c.ret < d.invoke < d.ret;
    e := if w == 0 then a else if w == 1 then b else if w == 2 then c else d;
  }

  lemma ScheduleLists(schedule: seq<W.Action>, s: W.State, low: Value, high: Value)
    requires W.Reaches(PLAN, schedule, s) && s.phase == W.Finished
    ensures V.Lists(s.record, InversionHistory(low, high).operations, [0, 1, 2, 3])
  {
    W.CompletedRun(PLAN, schedule, s);
    assert W.Total(PLAN, 4) == W.Total(PLAN, 3) + 1 == W.Total(PLAN, 2) + 2 == W.Total(PLAN, 1) + 3 == 4;
    var ops := InversionHistory(low, high).operations;
    forall w | 0 <= w < 4 ensures V.IsRecorded(s.record, [0, 1, 2, 3][w], ops[w]) {
      var e := OneRecord(s.record, w);
    }
  }

  lemma EntryOf(record: seq<W.Entry>, wave: nat) returns (e: W.Entry)
    requires wave < 4 && W.RecordsPlan(PLAN, record)
    ensures e in record && e.wave == wave
  {
    assert W.HasEntry(record, wave, 0);
    var k :| 0 <= k < |record| && record[k].wave == wave && record[k].index == 0;
    e := record[k];
  }

  /**
   The store can fail its own qualification: for any two different ordered anchors that histories may
   contain, there are a run of the store and a completed schedule of the controller such that what the
   controller records of that run is a valid history that is not linearizable.
   */
  lemma StoreMayFailQualification(low: Value, high: Value)
    returns (states: seq<State>, actions: seq<Action>, schedule: seq<W.Action>, s: W.State, h: H.History)
    requires H.ValidValue(low) && H.ValidValue(high) && low.present && high.present
    requires BeforeOrEqual(low, high) && low != high
    ensures IsRun(states, actions) && RecordedFrom(actions, TIMES, h)
    ensures W.Reaches(PLAN, schedule, s) && s.phase == W.Finished && V.Lists(s.record, h.operations, [0, 1, 2, 3])
    ensures R.Separated(h.operations, [0, 1, 2, 3])
    ensures H.ValidHistory(h) && !H.Linearizable(h)
  {
    states, actions := LoadsMayGoBack(low, high);
    h := InversionHistory(low, high);
    InversionIsRecorded(actions, low, high);
    InversionIsValid(low, high);
    BackwardLoadsRefute(h, 2, 3);
    schedule, s := P.EveryPlanCompletes(PLAN);
    ScheduleLists(schedule, s, low, high);
    W.CompletedRun(PLAN, schedule, s);
    V.RecordIsSeparated(s.record, h.operations, [0, 1, 2, 3]);
  }
}
