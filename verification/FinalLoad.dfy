/**
 The signer's final observation: one more load, stamped after every recorded event. In every
 linearization it comes last, so it certifies everything that was acknowledged before it.
 */
module FinalLoad {

  import opened Anchors
  import opened AnchorHistory
  import opened Permutations

  const MAX_UINT64: nat := 0xFFFF_FFFF_FFFF_FFFF

  const FINAL_LOAD_ID: string := "qualification-final-load"

  datatype Extension = Extended(operations: seq<Operation>) | OrdinalsExhausted

  ghost predicate EventsAtMost(ops: seq<Operation>, bound: nat) {
    forall i | 0 <= i < |ops| :: ops[i].invoke <= bound && ops[i].ret <= bound
  }

  ghost predicate EventsReach(ops: seq<Operation>, bound: nat) {
    exists i :: 0 <= i < |ops| && (ops[i].invoke == bound || ops[i].ret == bound)
  }

  /** The load is refused exactly when two more ordinals do not fit; otherwise it takes the next two. */
  method AppendFinalLoad(ops: seq<Operation>, retained: Value) returns (r: Extension)
    requires EventsAtMost(ops, MAX_UINT64)
    ensures r.OrdinalsExhausted? <==> !EventsAtMost(ops, MAX_UINT64 - 2)
    ensures r.Extended? ==>
              && |r.operations| == |ops| + 1
              && r.operations[..|ops|] == ops
              && var final := r.operations[|ops|];
              && final.(invoke := 0, ret := 0) == Operation(FINAL_LOAD_ID, Load, Succeeded, 0, 0, retained)
              && 1 <= final.invoke && EventsAtMost(ops, final.invoke - 1)
              && (final.invoke == 1 || EventsReach(ops, final.invoke - 1))
              && final.ret == final.invoke + 1
              && EventsAtMost(r.operations, MAX_UINT64)
  {
    var maximum: nat := 0;
    for k := 0 to |ops|
      invariant EventsAtMost(ops[..k], maximum)
      invariant maximum == 0 || EventsReach(ops[..k], maximum)
      invariant maximum <= MAX_UINT64
    {
      assert ops[..k + 1] == ops[..k] + [ops[k]];
      ghost var before := maximum;
      if ops[k].invoke > maximum {
        maximum := ops[k].invoke;
      }
      if ops[k].ret > maximum {
        maximum := ops[k].ret;
      }
      if maximum != before {
        assert ops[..k + 1][k] == ops[k];
      } else if maximum != 0 {
        var i :| 0 <= i < k && (ops[..k][i].invoke == maximum || ops[..k][i].ret == maximum);
        assert ops[..k + 1][i] == ops[..k][i];
      }
    }
    assert ops[..|ops|] == ops;
    if maximum > MAX_UINT64 - 2 {
      return OrdinalsExhausted;
    }
    return Extended(ops + [Operation(FINAL_LOAD_ID, Load, Succeeded, maximum + 1, maximum + 2, retained)]);
  }

  /** An operation invoked after every other one has returned is last in every real-time order. */
  lemma LatestIsLast(ops: seq<Operation>, final: Operation, order: seq<nat>)
    requires IsOrder(|ops| + 1, order) && RespectsRealTime(ops + [final], order)
    requires forall i | 0 <= i < |ops| :: Precedes(ops[i], final)
    ensures order[|ops|] == |ops|
  {
    var n, all := |ops|, ops + [final];
    OrderCovers(n + 1, order);
    assert n in order;
    var k :| 0 <= k < |order| && order[k] == n;
    assert forall j | 0 <= j < n :: all[j] == ops[j];
  }

  lemma ExplainedMovesForward(current: Value, op: Operation, next: Value)
    requires Explains(current, op, next)
    ensures Covers(next, current)
    ensures op.outcome == Succeeded ==> Covers(next, op.value)
  {
  }

  lemma {:induction false} RegisterNeverLoses(h: History, order: seq<nat>, states: seq<Value>, j: nat, k: nat)
    requires IsOrder(|h.operations|, order) && IsRun(h, order, states) && j <= k <= |order|
    ensures Covers(states[k], states[j])
    decreases k
  {
    if j == k {
    } else {
      RegisterNeverLoses(h, order, states, j, k - 1);
      ExplainedMovesForward(states[k - 1], h.operations[order[k - 1]], states[k]);
      CoversTransitive(states[j], states[k - 1], states[k]);
    }
  }

  /**
   In a linearizable history a successful load covers the initial value and every successful operation
   that returned before the load was invoked, wherever the load stands in the history.
   */
  lemma LoadCoversEarlier(h: History, j: nat)
    requires Linearizable(h) && j < |h.operations|
    requires h.operations[j].kind == Load && h.operations[j].outcome == Succeeded
    ensures Covers(h.operations[j].value, h.initial)
    ensures forall i | 0 <= i < |h.operations| && h.operations[i].outcome == Succeeded
            && Precedes(h.operations[i], h.operations[j]) ::
              Covers(h.operations[j].value, h.operations[i].value)
  {
    var ops := h.operations;
    var order, states :| IsLinearization(h, order, states);
    OrderCovers(|ops|, order);
    assert j in order;
    var k :| 0 <= k < |order| && order[k] == j;
    assert Explains(states[k], ops[order[k]], states[k + 1]);
    RegisterNeverLoses(h, order, states, 0, k);
    forall i | 0 <= i < |ops| && ops[i].outcome == Succeeded && Precedes(ops[i], ops[j])
      ensures Covers(ops[j].value, ops[i].value)
    {
      assert i in order;
      var l :| 0 <= l < |order| && order[l] == i;
      assert l <= k;
      if l < k {
        ExplainedMovesForward(states[l], ops[order[l]], states[l + 1]);
        RegisterNeverLoses(h, order, states, l + 1, k);
        CoversTransitive(ops[i].value, states[l + 1], states[k]);
      }
    }
  }

  /**
   If the history with its final load is linearizable, the observed final value covers the initial
   value, every acknowledged advance and every value that any load returned.
   */
  lemma FinalValueCoversHistory(initial: Value, ops: seq<Operation>, final: Operation)
    requires forall i | 0 <= i < |ops| :: Precedes(ops[i], final)
    requires final.kind == Load && final.outcome == Succeeded
    requires Linearizable(History(initial, ops + [final]))
    ensures Covers(final.value, initial)
    ensures forall i | 0 <= i < |ops| && ops[i].outcome == Succeeded :: Covers(final.value, ops[i].value)
  {
    var h := History(initial, ops + [final]);
    LoadCoversEarlier(h, |ops|);
    forall i | 0 <= i < |ops| && ops[i].outcome == Succeeded ensures Covers(final.value, ops[i].value) {
      assert h.operations[i] == ops[i];
    }
  }
}
