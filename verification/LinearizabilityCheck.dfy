/**
 The search of `HistorySearch` seen from outside: completions of the empty placement are exactly
 the linearizations of the history.
 */
module LinearizabilityCheck {

  import opened Anchors
  import opened AnchorHistory
  import opened HistorySearch
  import opened Permutations

  // ---------------------------------------------------------------------------------------
  // Completions, unrolled.
  // ---------------------------------------------------------------------------------------

  ghost function PlacedAfter(placed: set<nat>, moves: seq<Move>, k: nat): set<nat>
    requires k <= |moves|
  {
    if k == 0 then placed else PlacedAfter(placed, moves, k - 1) + {moves[k - 1].index}
  }

  ghost function StateAfter(value: Value, moves: seq<Move>, k: nat): Value
    requires k <= |moves|
  {
    if k == 0 then value else moves[k - 1].next
  }

  ghost predicate AllowedAt(ops: seq<Operation>, placed: set<nat>, value: Value, moves: seq<Move>, k: nat)
    requires k < |moves|
  {
    Allowed(ops, PlacedAfter(placed, moves, k), StateAfter(value, moves, k), moves[k])
  }

  lemma {:induction false} PlacedAfterTail(placed: set<nat>, moves: seq<Move>, k: nat)
    requires 1 <= k <= |moves|
    ensures PlacedAfter(placed, moves, k) == PlacedAfter(placed + {moves[0].index}, moves[1..], k - 1)
  {
    if k > 1 { PlacedAfterTail(placed, moves, k - 1); }
  }

  lemma TailAllowed(ops: seq<Operation>, placed: set<nat>, value: Value, moves: seq<Move>, k: nat)
    requires 1 <= k < |moves|
    ensures AllowedAt(ops, placed, value, moves, k)
       <==> AllowedAt(ops, placed + {moves[0].index}, moves[0].next, moves[1..], k - 1)
  {
    PlacedAfterTail(placed, moves, k);
  }

  lemma {:induction false} CompletionUnrolled(ops: seq<Operation>, placed: set<nat>, value: Value, moves: seq<Move>)
    ensures Completion(ops, placed, value, moves) <==>
              && AllPlaced(ops, PlacedAfter(placed, moves, |moves|))
              && forall k | 0 <= k < |moves| :: AllowedAt(ops, placed, value, moves, k)
    decreases |moves|
  {
    if |moves| == 0 {
    } else {
      var placed', value', rest := placed + {moves[0].index}, moves[0].next, moves[1..];
      CompletionUnrolled(ops, placed', value', rest);
      PlacedAfterTail(placed, moves, |moves|);
      assert AllowedAt(ops, placed, value, moves, 0) <==> Allowed(ops, placed, value, moves[0]);
      forall k | 1 <= k < |moves|
        ensures AllowedAt(ops, placed, value, moves, k) <==> AllowedAt(ops, placed', value', rest, k - 1)
      {
        TailAllowed(ops, placed, value, moves, k);
      }
      if forall k | 0 <= k < |moves| :: AllowedAt(ops, placed, value, moves, k) {
        forall k | 0 <= k < |rest|
          ensures AllowedAt(ops, placed', value', rest, k)
        {
          assert AllowedAt(ops, placed, value, moves, k + 1);
        }
      }
    }
  }

  lemma {:induction false} PlacedAfterMembers(moves: seq<Move>, k: nat, i: nat)
    requires k <= |moves|
    ensures i in PlacedAfter({}, moves, k) <==> exists j :: 0 <= j < k && moves[j].index == i
  {
    if k == 0 {
    } else {
      PlacedAfterMembers(moves, k - 1, i);
      if i == moves[k - 1].index { assert 0 <= k - 1 < k; }
    }
  }

  // ---------------------------------------------------------------------------------------
  // From completions to linearizations and back.
  // ---------------------------------------------------------------------------------------

  ghost function OrderOf(moves: seq<Move>): (order: seq<nat>)
    ensures |order| == |moves|
    ensures forall k | 0 <= k < |moves| :: order[k] == moves[k].index
  {
    seq(|moves|, k requires 0 <= k < |moves| => moves[k].index)
  }

  ghost function StatesOf(value: Value, moves: seq<Move>): (states: seq<Value>)
    ensures |states| == |moves| + 1
    ensures forall k | 0 <= k <= |moves| :: states[k] == StateAfter(value, moves, k)
  {
    seq(|moves| + 1, k requires 0 <= k <= |moves| => StateAfter(value, moves, k))
  }

  lemma CompletionIsOrder(ops: seq<Operation>, value: Value, moves: seq<Move>)
    requires Completion(ops, {}, value, moves)
    ensures IsOrder(|ops|, OrderOf(moves))
    ensures RespectsRealTime(ops, OrderOf(moves))
  {
    CompletionUnrolled(ops, {}, value, moves);
    var order := OrderOf(moves);
    forall i, j | 0 <= i < j < |order|
      ensures order[i] != order[j]
    {
      assert AllowedAt(ops, {}, value, moves, j);
      PlacedAfterMembers(moves, j, order[i]);
    }
    forall i | 0 <= i < |order|
      ensures order[i] < |ops|
    {
      assert AllowedAt(ops, {}, value, moves, i);
    }
    forall i: nat | i < |ops|
      ensures i in order
    {
      PlacedAfterMembers(moves, |moves|, i);
    }
    OrderCovers(|ops|, order);
    forall i, j | 0 <= i < j < |ops|
      ensures !Precedes(ops[order[j]], ops[order[i]])
    {
      assert AllowedAt(ops, {}, value, moves, i);
      PlacedAfterMembers(moves, i, order[j]);
    }
  }

  lemma CompletionIsLinearization(h: History, moves: seq<Move>)
    requires Completion(h.operations, {}, h.initial, moves)
    ensures IsLinearization(h, OrderOf(moves), StatesOf(h.initial, moves))
  {
    CompletionIsOrder(h.operations, h.initial, moves);
    CompletionUnrolled(h.operations, {}, h.initial, moves);
    forall k | 0 <= k < |moves|
      ensures Explains(StatesOf(h.initial, moves)[k], h.operations[OrderOf(moves)[k]],
                       StatesOf(h.initial, moves)[k + 1])
    {
      assert AllowedAt(h.operations, {}, h.initial, moves, k);
    }
  }

  ghost function MovesOf(order: seq<nat>, states: seq<Value>): (moves: seq<Move>)
    requires |states| == |order| + 1
    ensures |moves| == |order|
    ensures forall k | 0 <= k < |order| :: moves[k] == Move(order[k], states[k + 1])
  {
    seq(|order|, k requires 0 <= k < |order| => Move(order[k], states[k + 1]))
  }

  lemma LinearizationAllowed(h: History, order: seq<nat>, states: seq<Value>, k: nat)
    requires IsLinearization(h, order, states) && k < |order|
    requires forall i | 0 <= i < |h.operations| :: h.operations[i].invoke < h.operations[i].ret
    ensures AllowedAt(h.operations, {}, h.initial, MovesOf(order, states), k)
  {
    var ops, moves := h.operations, MovesOf(order, states);
    PlacedAfterMembers(moves, k, order[k]);
    forall i: nat | i < |ops| && Precedes(ops[i], ops[order[k]])
      ensures i in PlacedAfter({}, moves, k)
    {
      PredecessorIsPlaced(ops, order, moves, k, i);
    }
    assert StateAfter(h.initial, moves, k) == states[k];
  }

  lemma PredecessorIsPlaced(ops: seq<Operation>, order: seq<nat>, moves: seq<Move>, k: nat, i: nat)
    requires IsOrder(|ops|, order) && RespectsRealTime(ops, order) && k < |order| == |moves| && i < |ops|
    requires forall l | 0 <= l < |order| :: moves[l].index == order[l]
    requires Precedes(ops[i], ops[order[k]]) && ops[i].invoke < ops[i].ret
    ensures i in PlacedAfter({}, moves, k)
  {
    OrderCovers(|ops|, order);
    assert i in order;
    var l :| 0 <= l < |order| && order[l] == i;
    PredecessorComesFirst(ops, order, l, k);
    assert moves[l].index == i;
    PlacedAfterMembers(moves, k, i);
  }

  lemma PredecessorComesFirst(ops: seq<Operation>, order: seq<nat>, l: nat, k: nat)
    requires IsOrder(|ops|, order) && RespectsRealTime(ops, order) && l < |order| && k < |order|
    requires Precedes(ops[order[l]], ops[order[k]]) && ops[order[l]].invoke < ops[order[l]].ret
    ensures l < k
  {
  }

  lemma LinearizationIsCompletion(h: History, order: seq<nat>, states: seq<Value>)
    requires IsLinearization(h, order, states)
    requires forall i | 0 <= i < |h.operations| :: h.operations[i].invoke < h.operations[i].ret
    ensures Completion(h.operations, {}, h.initial, MovesOf(order, states))
  {
    var moves := MovesOf(order, states);
    forall k | 0 <= k < |moves|
      ensures AllowedAt(h.operations, {}, h.initial, moves, k)
    {
      LinearizationAllowed(h, order, states, k);
    }
    OrderCovers(|h.operations|, order);
    forall i: nat | i < |h.operations|
      ensures i in PlacedAfter({}, moves, |moves|)
    {
      assert i in order;
      var l :| 0 <= l < |order| && order[l] == i;
      assert moves[l].index == i;
      PlacedAfterMembers(moves, |moves|, i);
    }
    CompletionUnrolled(h.operations, {}, h.initial, moves);
  }

  lemma {:induction false} DescriptionAt(ops: seq<Operation>, value: Value, moves: seq<Move>, steps: seq<Step>, k: nat)
    requires Describes(ops, value, moves, steps) && k < |moves|
    ensures moves[k].index < |ops|
    ensures StepOf(ops[moves[k].index], StateAfter(value, moves, k), moves[k].next, steps[k])
    decreases k
  {
    if k == 0 {
    } else {
      DescriptionAt(ops, moves[0].next, moves[1..], steps[1..], k - 1);
      assert moves[1..][k - 1] == moves[k] && steps[1..][k - 1] == steps[k];
    }
  }

  lemma WitnessReports(h: History, moves: seq<Move>, steps: seq<Step>)
    requires Completion(h.operations, {}, h.initial, moves) && Describes(h.operations, h.initial, moves, steps)
    ensures IsLinearization(h, OrderOf(moves), StatesOf(h.initial, moves))
    ensures Reports(h, OrderOf(moves), StatesOf(h.initial, moves), steps)
  {
    CompletionIsLinearization(h, moves);
    forall k | 0 <= k < |moves|
      ensures StepOf(h.operations[moves[k].index], StateAfter(h.initial, moves, k), moves[k].next, steps[k])
    {
      DescriptionAt(h.operations, h.initial, moves, steps, k);
    }
  }

  lemma SearchDecides(h: History)
    requires ValidHistory(h) && !CanFinish(h.operations, {}, h.initial, |h.operations|)
    ensures !Linearizable(h)
  {
    forall order, states | IsLinearization(h, order, states)
      ensures false
    {
      LinearizationIsCompletion(h, order, states);
      CompletionFinishes(h.operations, {}, h.initial, MovesOf(order, states));
    }
  }

  /** The checker's result as a function of the history, down to the number of explored states. */
  ghost function CheckOf(h: History): CheckResult {
    if !ValidHistory(h) then Rejected
    else
      var found := Exploring(h.operations, {}, h.initial, Memo({}, 0), |h.operations|);
      Checked(Check(found.ok, found.memo.explored, found.steps))
  }

  /** What the checker's result means. */
  lemma CheckDecides(h: History)
    requires ValidHistory(h)
    ensures CheckOf(h).check.linearizable <==> Linearizable(h)
    ensures CheckOf(h).check.linearizable ==>
              exists order, states ::
                IsLinearization(h, order, states) && Reports(h, order, states, CheckOf(h).check.linearization)
    ensures !CheckOf(h).check.linearizable ==> CheckOf(h).check.linearization == []
  {
    var n, found := |h.operations|, Exploring(h.operations, {}, h.initial, Memo({}, 0), |h.operations|);
    ExploringAnswers(h.operations, {}, h.initial, Memo({}, 0), n);
    if found.ok {
      var moves := ReportedMoves(h.operations, {}, h.initial, n, found.steps);
      WitnessReports(h, moves, found.steps);
    } else {
      SearchDecides(h);
    }
  }

  /** Rejects malformed histories; on every other history decides linearizability and reports a witness. */
  method CheckAnchorHistory(h: History) returns (r: CheckResult)
    ensures r == CheckOf(h)
    ensures r.Rejected? <==> !ValidHistory(h)
    ensures r.Checked? ==> (r.check.linearizable <==> Linearizable(h))
    ensures r.Checked? && r.check.linearizable ==>
              exists order, states ::
                IsLinearization(h, order, states) && Reports(h, order, states, r.check.linearization)
    ensures r.Checked? && !r.check.linearizable ==> r.check.linearization == []
  {
    var valid := ValidateHistory(h);
    if !valid {
      return Rejected;
    }
    var search := new Search(h.operations);
    var linearization, ok := search.Explore({}, h.initial, |h.operations|);
    CheckDecides(h);
    r := Checked(Check(ok, search.explored, linearization));
  }
}
