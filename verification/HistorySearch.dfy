/**
 `CheckAnchorHistory`: the memoized depth-first search, proved to decide linearizability and to
 return a linearization whenever there is one.
 */
module HistorySearch {

  import opened Anchors
  import opened AnchorHistory
  import opened Permutations

  /** Operation `index` is placed next and leaves the register at `next`. */
  datatype Move = Move(index: nat, next: Value)

  datatype Key = Key(placed: set<nat>, value: Value)

  /** `earlier` holds the operations that returned before operation `index` was invoked. */
  ghost predicate ArePredecessors(ops: seq<Operation>, index: nat, earlier: set<nat>)
    requires index < |ops|
  {
    forall i: nat :: i in earlier <==> i < |ops| && Precedes(ops[i], ops[index])
  }

  ghost predicate Enabled(ops: seq<Operation>, placed: set<nat>, index: nat) {
    && index < |ops|
    && index !in placed
    && forall i: nat | i < |ops| && Precedes(ops[i], ops[index]) :: i in placed
  }

  ghost predicate AllPlaced(ops: seq<Operation>, placed: set<nat>) {
    forall i: nat | i < |ops| :: i in placed
  }

  ghost predicate Allowed(ops: seq<Operation>, placed: set<nat>, value: Value, m: Move) {
    Enabled(ops, placed, m.index) && Explains(value, ops[m.index], m.next)
  }

  /** The remaining `left` operations can all be placed. */
  ghost predicate CanFinish(ops: seq<Operation>, placed: set<nat>, value: Value, left: nat)
    decreases left
  {
    if left == 0 then AllPlaced(ops, placed)
    else exists m :: Allowed(ops, placed, value, m) && CanFinish(ops, placed + {m.index}, m.next, left - 1)
  }

  /** `moves` is one way of placing them. */
  ghost predicate Completion(ops: seq<Operation>, placed: set<nat>, value: Value, moves: seq<Move>)
    decreases |moves|
  {
    if |moves| == 0 then AllPlaced(ops, placed)
    else
      && Allowed(ops, placed, value, moves[0])
      && Completion(ops, placed + {moves[0].index}, moves[0].next, moves[1..])
  }

  lemma MoveFinishes(ops: seq<Operation>, placed: set<nat>, value: Value, m: Move, left: nat)
    requires Allowed(ops, placed, value, m)
    requires CanFinish(ops, placed + {m.index}, m.next, left)
    ensures CanFinish(ops, placed, value, left + 1)
  {
  }

  lemma {:induction false} CompletionFinishes(ops: seq<Operation>, placed: set<nat>, value: Value, moves: seq<Move>)
    requires Completion(ops, placed, value, moves)
    ensures CanFinish(ops, placed, value, |moves|)
    decreases |moves|
  {
    if |moves| == 0 {
    } else {
      CompletionFinishes(ops, placed + {moves[0].index}, moves[0].next, moves[1..]);
      MoveFinishes(ops, placed, value, moves[0], |moves| - 1);
    }
  }

  /** Placing operation `index` next leads nowhere. */
  ghost predicate Exhausted(ops: seq<Operation>, placed: set<nat>, value: Value, left: nat, index: nat)
    requires left > 0
  {
    forall next | Allowed(ops, placed, value, Move(index, next)) :: !CanFinish(ops, placed + {index}, next, left - 1)
  }

  ghost predicate ExhaustedBelow(ops: seq<Operation>, placed: set<nat>, value: Value, left: nat, bound: nat)
    requires left > 0
  {
    forall index: nat | index < bound :: Exhausted(ops, placed, value, left, index)
  }

  lemma NothingLeftToTry(ops: seq<Operation>, placed: set<nat>, value: Value, left: nat)
    requires left > 0 && ExhaustedBelow(ops, placed, value, left, |ops|)
    ensures !CanFinish(ops, placed, value, left)
  {
    forall m: Move | Allowed(ops, placed, value, m)
      ensures !CanFinish(ops, placed + {m.index}, m.next, left - 1)
    {
      assert Exhausted(ops, placed, value, left, m.index);
      assert m == Move(m.index, m.next);
    }
  }

  /** The steps reported for one placement. */
  predicate StepOf(op: Operation, before: Value, after: Value, step: Step) {
    && step.operationID == op.id
    && step.ambiguousApplied == (op.outcome != Succeeded && before != after)
  }

  ghost predicate Describes(ops: seq<Operation>, value: Value, moves: seq<Move>, steps: seq<Step>)
    decreases |moves|
  {
    && |steps| == |moves|
    && (|moves| > 0 ==>
          && moves[0].index < |ops|
          && StepOf(ops[moves[0].index], value, moves[0].next, steps[0])
          && Describes(ops, moves[0].next, moves[1..], steps[1..]))
  }

  /** `steps` reports some way of placing the remaining `left` operations. */
  ghost predicate Reported(ops: seq<Operation>, placed: set<nat>, value: Value, left: nat, steps: seq<Step>)
    decreases left
  {
    && |steps| == left
    && if left == 0 then AllPlaced(ops, placed)
       else exists m ::
         && Allowed(ops, placed, value, m)
         && StepOf(ops[m.index], value, m.next, steps[0])
         && Reported(ops, placed + {m.index}, m.next, left - 1, steps[1..])
  }

  lemma {:induction false} ReportedMoves(ops: seq<Operation>, placed: set<nat>, value: Value, left: nat,
                                         steps: seq<Step>)
    returns (moves: seq<Move>)
    requires Reported(ops, placed, value, left, steps)
    ensures Completion(ops, placed, value, moves) && Describes(ops, value, moves, steps)
    decreases left
  {
    if left == 0 {
      moves := [];
    } else {
      var m :| && Allowed(ops, placed, value, m)
               && StepOf(ops[m.index], value, m.next, steps[0])
               && Reported(ops, placed + {m.index}, m.next, left - 1, steps[1..]);
      var rest := ReportedMoves(ops, placed + {m.index}, m.next, left - 1, steps[1..]);
      moves := [m] + rest;
      assert moves[1..] == rest;
    }
  }

  /** What a call of the search says about its arguments. */
  ghost predicate Answer(ops: seq<Operation>, placed: set<nat>, value: Value, left: nat, ok: bool, steps: seq<Step>) {
    && ok == CanFinish(ops, placed, value, left)
    && if ok then Reported(ops, placed, value, left, steps) else steps == []
  }

  // ---------------------------------------------------------------------------------------
  // The search as a function of its memory: the answer, the steps and the count are determined.
  // ---------------------------------------------------------------------------------------

  datatype Memo = Memo(dead: set<Key>, explored: nat)

  datatype Found = Found(steps: seq<Step>, ok: bool, memo: Memo)

  ghost function Exploring(ops: seq<Operation>, placed: set<nat>, value: Value, memo: Memo, left: nat): Found
    decreases left, 2, 0
  {
    var m := memo.(explored := memo.explored + 1);
    if left == 0 then Found([], true, m)
    else if Key(placed, value) in m.dead then Found([], false, m)
    else
      var r := TryingFrom(ops, placed, value, m, left, 0);
      if r.ok then r else r.(memo := r.memo.(dead := r.memo.dead + {Key(placed, value)}))
  }

  ghost function TryingFrom(ops: seq<Operation>, placed: set<nat>, value: Value, memo: Memo, left: nat,
                            index: nat): Found
    requires left > 0 && index <= |ops|
    decreases left, 1, |ops| - index
  {
    if index == |ops| then Found([], false, memo)
    else if !Enabled(ops, placed, index) then TryingFrom(ops, placed, value, memo, left, index + 1)
    else
      var r := TryingOne(ops, placed, memo, left, index, InOrder(value, ops[index]), 0);
      if r.ok then r else TryingFrom(ops, placed, value, r.memo, left, index + 1)
  }

  ghost function TryingOne(ops: seq<Operation>, placed: set<nat>, memo: Memo, left: nat, index: nat,
                           ts: seq<Transition>, t: nat): Found
    requires left > 0 && index < |ops| && t <= |ts|
    decreases left, 0, |ts| - t
  {
    if t == |ts| then Found([], false, memo)
    else
      var r := Exploring(ops, placed + {index}, ts[t].value, memo, left - 1);
      if r.ok then Found([Step(ops[index].id, ts[t].ambiguousApplied)] + r.steps, true, r.memo)
      else TryingOne(ops, placed, r.memo, left, index, ts, t + 1)
  }

  // These name the values of the functions, so that the methods pass them on without unfolding them.

  ghost predicate Explores(ops: seq<Operation>, placed: set<nat>, value: Value, memo: Memo, left: nat, r: Found) {
    Exploring(ops, placed, value, memo, left) == r
  }

  ghost predicate Tries(ops: seq<Operation>, placed: set<nat>, value: Value, memo: Memo, left: nat, r: Found)
    requires left > 0
  {
    TryingFrom(ops, placed, value, memo, left, 0) == r
  }

  ghost predicate TriesOne(ops: seq<Operation>, placed: set<nat>, value: Value, memo: Memo, left: nat, index: nat,
                           r: Found)
    requires left > 0 && index < |ops|
  {
    TryingOne(ops, placed, memo, left, index, InOrder(value, ops[index]), 0) == r
  }

  /** The loop over the operations has come to `index`. */
  ghost predicate ComesTo(ops: seq<Operation>, placed: set<nat>, value: Value, memo: Memo, left: nat, memo': Memo,
                          index: nat)
    requires left > 0 && index <= |ops|
  {
    TryingFrom(ops, placed, value, memo, left, 0) == TryingFrom(ops, placed, value, memo', left, index)
  }

  /** The loop over the transitions has come to `t`. */
  ghost predicate ComesToOne(ops: seq<Operation>, placed: set<nat>, value: Value, memo: Memo, left: nat, index: nat,
                             memo': Memo, t: nat)
    requires left > 0 && index < |ops| && t <= |InOrder(value, ops[index])|
  {
    TryingOne(ops, placed, memo, left, index, InOrder(value, ops[index]), 0)
    == TryingOne(ops, placed, memo', left, index, InOrder(value, ops[index]), t)
  }

  lemma GoesOn(ops: seq<Operation>, placed: set<nat>, value: Value, memo: Memo, left: nat, memo': Memo, index: nat,
               r: Found)
    requires left > 0 && index < |ops| && ComesTo(ops, placed, value, memo, left, memo', index)
    ensures !Enabled(ops, placed, index) ==> ComesTo(ops, placed, value, memo, left, memo', index + 1)
    ensures Enabled(ops, placed, index) && TriesOne(ops, placed, value, memo', left, index, r) ==>
              if r.ok then Tries(ops, placed, value, memo, left, r)
                 else ComesTo(ops, placed, value, memo, left, r.memo, index + 1)
  {
  }

  lemma GoesOnOne(ops: seq<Operation>, placed: set<nat>, value: Value, memo: Memo, left: nat, index: nat, memo': Memo,
                  t: nat, r: Found)
    requires left > 0 && index < |ops| && t < |InOrder(value, ops[index])|
    requires ComesToOne(ops, placed, value, memo, left, index, memo', t)
    requires Explores(ops, placed + {index}, InOrder(value, ops[index])[t].value, memo', left - 1, r)
    ensures var step := Step(ops[index].id, InOrder(value, ops[index])[t].ambiguousApplied);
            if r.ok then TriesOne(ops, placed, value, memo, left, index, Found([step] + r.steps, true, r.memo))
            else ComesToOne(ops, placed, value, memo, left, index, r.memo, t + 1)
  {
  }

  lemma GivesUp(ops: seq<Operation>, placed: set<nat>, value: Value, memo: Memo, left: nat, memo': Memo, index: nat)
    requires left > 0
    ensures ComesTo(ops, placed, value, memo, left, memo', |ops|) ==>
              Tries(ops, placed, value, memo, left, Found([], false, memo'))
    ensures index < |ops| && ComesToOne(ops, placed, value, memo, left, index, memo', |InOrder(value, ops[index])|) ==>
              TriesOne(ops, placed, value, memo, left, index, Found([], false, memo'))
  {
  }

  class Search {
    const operations: seq<Operation>
    const predecessors: seq<set<nat>>
    const all: set<nat>
    var dead: set<Key>
    var explored: nat

    ghost function Memory(): Memo
      reads this
    {
      Memo(dead, explored)
    }

    ghost predicate Tables() {
      && |predecessors| == |operations|
      && (forall i | 0 <= i < |operations| :: ArePredecessors(operations, i, predecessors[i]))
      && (forall i: nat :: i in all <==> i < |operations|)
      && |all| == |operations|
    }

    constructor (operations: seq<Operation>)
      ensures Tables() && this.operations == operations && Memory() == Memo({}, 0)
    {
      var table := PredecessorTable(operations);
      var everything: set<nat> := {};
      for i := 0 to |operations|
        invariant (forall k: nat :: k in everything <==> k < i) && |everything| == i
      {
        everything := everything + {i};
      }
      this.operations := operations;
      this.predecessors := table;
      this.all := everything;
      this.dead := {};
      this.explored := 0;
    }

    /** One call of the recursive closure. */
    method Explore(placed: set<nat>, value: Value, ghost left: nat)
      returns (tail: seq<Step>, ok: bool)
      requires Tables() && placed <= all && |placed| + left == |operations|
      modifies this
      ensures Explores(operations, placed, value, old(Memory()), left, Found(tail, ok, Memory()))
      decreases left, 2
    {
      explored := explored + 1;
      SubsetSize(placed, all);
      if placed == all {
        return [], true;
      }
      var key := Key(placed, value);
      if key in dead {
        return [], false;
      }
      tail, ok := TryOperations(placed, value, left);
      if !ok {
        dead := dead + {key};
      }
    }

    /** The outer loop: every operation that is not placed and whose predecessors all are. */
    method TryOperations(placed: set<nat>, value: Value, ghost left: nat)
      returns (steps: seq<Step>, ok: bool)
      requires Tables() && placed <= all && |placed| + left == |operations| && left > 0
      modifies this
      ensures Tries(operations, placed, value, old(Memory()), left, Found(steps, ok, Memory()))
      ensures !ok ==> steps == []
      decreases left, 1
    {
      for index := 0 to |operations|
        invariant ComesTo(operations, placed, value, old(Memory()), left, Memory(), index)
      {
        EnabledIff(operations, placed, index, predecessors[index]);
        ghost var memo := Memory();
        if index in placed || !(predecessors[index] <= placed) {
          GoesOn(operations, placed, value, old(Memory()), left, memo, index, Found([], false, memo));
          continue;
        }
        steps, ok := TryOperation(placed, value, left, index);
        GoesOn(operations, placed, value, old(Memory()), left, memo, index, Found(steps, ok, Memory()));
        if ok {
          return;
        }
      }
      GivesUp(operations, placed, value, old(Memory()), left, Memory(), 0);
      return [], false;
    }

    /** The inner loop: every transition that operation `index` allows, in turn. */
    method TryOperation(placed: set<nat>, value: Value, ghost left: nat, index: nat)
      returns (steps: seq<Step>, ok: bool)
      requires Tables() && placed <= all && |placed| + left == |operations| && left > 0
      requires index < |operations| && index !in placed
      modifies this
      ensures TriesOne(operations, placed, value, old(Memory()), left, index, Found(steps, ok, Memory()))
      decreases left, 0
    {
      var transitions := Transitions(value, operations[index]);
      for t := 0 to |transitions|
        invariant ComesToOne(operations, placed, value, old(Memory()), left, index, Memory(), t)
      {
        ghost var memo := Memory();
        steps, ok := Explore(placed + {index}, transitions[t].value, left - 1);
        GoesOnOne(operations, placed, value, old(Memory()), left, index, memo, t, Found(steps, ok, Memory()));
        if ok {
          return [Step(operations[index].id, transitions[t].ambiguousApplied)] + steps, true;
        }
      }
      GivesUp(operations, placed, value, old(Memory()), left, Memory(), index);
      return [], false;
    }
  }

  // ---------------------------------------------------------------------------------------
  // What the search finds.
  // ---------------------------------------------------------------------------------------

  /** The remaining operations of a remembered state cannot be placed. */
  ghost predicate Hopeless(ops: seq<Operation>, key: Key) {
    |key.placed| <= |ops| && !CanFinish(ops, key.placed, key.value, |ops| - |key.placed|)
  }

  ghost predicate AllHopeless(ops: seq<Operation>, dead: set<Key>) {
    forall key | key in dead :: Hopeless(ops, key)
  }

  /** `left` operations are still to be placed. */
  ghost predicate Remaining(ops: seq<Operation>, placed: set<nat>, left: nat) {
    placed <= Below(|ops|) && |placed| + left == |ops|
  }

  /** The answer is right, and the memory holds only hopeless states. */
  ghost predicate Answers(ops: seq<Operation>, placed: set<nat>, value: Value, left: nat, r: Found) {
    var holds := Answer(ops, placed, value, left, r.ok, r.steps) && AllHopeless(ops, r.memo.dead);
    holds
  }

  lemma HopelessAdded(ops: seq<Operation>, dead: set<Key>, placed: set<nat>, value: Value, left: nat)
    requires |placed| + left == |ops| && AllHopeless(ops, dead) && !CanFinish(ops, placed, value, left)
    ensures AllHopeless(ops, dead + {Key(placed, value)})
  {
    KeyIsHopeless(ops, placed, value, left);
    forall key | key in dead + {Key(placed, value)} ensures Hopeless(ops, key) {
    }
  }

  lemma KeyIsHopeless(ops: seq<Operation>, placed: set<nat>, value: Value, left: nat)
    requires |placed| + left == |ops| && !CanFinish(ops, placed, value, left)
    ensures Hopeless(ops, Key(placed, value))
  {
  }

  lemma FoundAnswers(ops: seq<Operation>, placed: set<nat>, value: Value, left: nat, r: Found)
    requires left > 0 && Settles(ops, placed, value, left, r) && r.ok
    ensures Answers(ops, placed, value, left, r)
  {
  }

  lemma NotFoundAnswers(ops: seq<Operation>, placed: set<nat>, value: Value, left: nat, r: Found)
    requires Remaining(ops, placed, left) && left > 0 && Settles(ops, placed, value, left, r) && !r.ok
    ensures Answers(ops, placed, value, left, r.(memo := r.memo.(dead := r.memo.dead + {Key(placed, value)})))
  {
    NothingLeftToTry(ops, placed, value, left);
    HopelessAdded(ops, r.memo.dead, placed, value, left);
  }

  lemma EndAnswers(ops: seq<Operation>, placed: set<nat>, value: Value, memo: Memo)
    requires Remaining(ops, placed, 0) && AllHopeless(ops, memo.dead)
    ensures Answers(ops, placed, value, 0, Found([], true, memo))
  {
    SubsetSize(placed, Below(|ops|));
  }

  lemma DeadAnswers(ops: seq<Operation>, placed: set<nat>, value: Value, memo: Memo, left: nat)
    requires Remaining(ops, placed, left) && AllHopeless(ops, memo.dead) && Key(placed, value) in memo.dead
    ensures Answers(ops, placed, value, left, Found([], false, memo))
  {
    assert Hopeless(ops, Key(placed, value));
  }

  /**
   A search from any state whose memory holds only hopeless states finds a way to place the remaining
   operations if and only if there is one, reports it, and remembers only hopeless states.
   */
  lemma {:induction false} ExploringAnswers(ops: seq<Operation>, placed: set<nat>, value: Value, memo: Memo, left: nat)
    requires Remaining(ops, placed, left) && AllHopeless(ops, memo.dead)
    ensures Answers(ops, placed, value, left, Exploring(ops, placed, value, memo, left))
    decreases left, 2, 0
  {
    var m := memo.(explored := memo.explored + 1);
    if left == 0 {
      EndAnswers(ops, placed, value, m);
    } else if Key(placed, value) in memo.dead {
      DeadAnswers(ops, placed, value, m, left);
    } else {
      TryingAnswers(ops, placed, value, m, left, 0);
      var r := TryingFrom(ops, placed, value, m, left, 0);
      if r.ok { FoundAnswers(ops, placed, value, left, r); } else { NotFoundAnswers(ops, placed, value, left, r); }
    }
  }

  /** The loop over the operations has found a way, or there is none. */
  ghost predicate Settles(ops: seq<Operation>, placed: set<nat>, value: Value, left: nat, r: Found)
    requires left > 0
  {
    var holds :=
      && AllHopeless(ops, r.memo.dead)
      && if r.ok then Answer(ops, placed, value, left, true, r.steps)
         else r.steps == [] && ExhaustedBelow(ops, placed, value, left, |ops|);
    holds
  }

  lemma {:induction false} TryingAnswers(ops: seq<Operation>, placed: set<nat>, value: Value, memo: Memo, left: nat,
                                         index: nat)
    requires Remaining(ops, placed, left) && AllHopeless(ops, memo.dead) && left > 0 && index <= |ops|
    requires ExhaustedBelow(ops, placed, value, left, index)
    ensures Settles(ops, placed, value, left, TryingFrom(ops, placed, value, memo, left, index))
    decreases left, 1, |ops| - index
  {
    if index == |ops| {
    } else {
      if !Enabled(ops, placed, index) {
        assert Exhausted(ops, placed, value, left, index);
        TryingAnswers(ops, placed, value, memo, left, index + 1);
      } else {
        var r := TryingEnabled(ops, placed, value, memo, left, index);
        if !r.ok {
          TryingAnswers(ops, placed, value, r.memo, left, index + 1);
        }
      }
    }
  }

  lemma {:induction false} TryingEnabled(ops: seq<Operation>, placed: set<nat>, value: Value, memo: Memo, left: nat,
                                         index: nat)
    returns (r: Found)
    requires Remaining(ops, placed, left) && AllHopeless(ops, memo.dead) && left > 0 && index < |ops|
    requires ExhaustedBelow(ops, placed, value, left, index) && Enabled(ops, placed, index)
    ensures r == TryingOne(ops, placed, memo, left, index, InOrder(value, ops[index]), 0)
    ensures r.ok ==> Settles(ops, placed, value, left, r)
    ensures !r.ok ==> AllHopeless(ops, r.memo.dead) && ExhaustedBelow(ops, placed, value, left, index + 1)
    decreases left, 1, 0
  {
    var ts := InOrder(value, ops[index]);
    InOrderLists(value, ops[index]);
    TryingOneAnswers(ops, placed, value, memo, left, index, ts, 0);
    r := TryingOne(ops, placed, memo, left, index, ts, 0);
    if !r.ok {
      AllTransitionsTried(ops, placed, value, left, index, ts);
    }
  }

  /** The first transitions lead nowhere. */
  ghost predicate NoneWorks(ops: seq<Operation>, placed: set<nat>, left: nat, index: nat, ts: seq<Transition>, t: nat)
    requires left > 0 && t <= |ts|
  {
    forall u | 0 <= u < t :: Answer(ops, placed + {index}, ts[u].value, left - 1, false, [])
  }

  ghost predicate SettlesOne(ops: seq<Operation>, placed: set<nat>, value: Value, left: nat, index: nat,
                             ts: seq<Transition>, r: Found)
    requires left > 0
  {
    var holds :=
      && AllHopeless(ops, r.memo.dead)
      && if r.ok then Answer(ops, placed, value, left, true, r.steps)
         else r.steps == [] && NoneWorks(ops, placed, left, index, ts, |ts|);
    holds
  }

  lemma {:induction false} TryingOneAnswers(ops: seq<Operation>, placed: set<nat>, value: Value, memo: Memo, left: nat,
                                            index: nat, ts: seq<Transition>, t: nat)
    requires Remaining(ops, placed, left) && AllHopeless(ops, memo.dead) && left > 0 && t <= |ts|
    requires Enabled(ops, placed, index) && ListsTransitions(value, ops[index], ts)
             && NoneWorks(ops, placed, left, index, ts, t)
    ensures SettlesOne(ops, placed, value, left, index, ts, TryingOne(ops, placed, memo, left, index, ts, t))
    decreases left, 0, |ts| - t
  {
    if t == |ts| {
    } else {
      ExploringAnswers(ops, placed + {index}, ts[t].value, memo, left - 1);
      var r := Exploring(ops, placed + {index}, ts[t].value, memo, left - 1);
      if r.ok {
        TransitionSettles(ops, placed, value, left, index, ts, t, r);
      } else {
        TryingOneAnswers(ops, placed, value, r.memo, left, index, ts, t + 1);
      }
    }
  }

  lemma TransitionSettles(ops: seq<Operation>, placed: set<nat>, value: Value, left: nat, index: nat,
                          ts: seq<Transition>, t: nat, r: Found)
    requires Enabled(ops, placed, index) && ListsTransitions(value, ops[index], ts) && left > 0 && t < |ts|
    requires r.ok && Answers(ops, placed + {index}, ts[t].value, left - 1, r)
    ensures SettlesOne(ops, placed, value, left, index, ts,
                       Found([Step(ops[index].id, ts[t].ambiguousApplied)] + r.steps, true, r.memo))
  {
    assert Allowed(ops, placed, value, Move(index, ts[t].value));
    TransitionWorks(ops, placed, value, left, index, ts[t], r.steps);
  }

  lemma EnabledIff(ops: seq<Operation>, placed: set<nat>, index: nat, earlier: set<nat>)
    requires index < |ops| && ArePredecessors(ops, index, earlier)
    ensures Enabled(ops, placed, index) <==> index !in placed && earlier <= placed
  {
  }

  lemma AllTransitionsTried(ops: seq<Operation>, placed: set<nat>, value: Value, left: nat, index: nat,
                            ts: seq<Transition>)
    requires index < |ops| && left > 0 && ListsTransitions(value, ops[index], ts)
    requires forall u | 0 <= u < |ts| :: Answer(ops, placed + {index}, ts[u].value, left - 1, false, [])
    ensures Exhausted(ops, placed, value, left, index)
  {
    forall next | Allowed(ops, placed, value, Move(index, next))
      ensures !CanFinish(ops, placed + {index}, next, left - 1)
    {
      var k :| 0 <= k < |ts| && ts[k].value == next;
      assert Answer(ops, placed + {index}, ts[k].value, left - 1, false, []);
    }
  }

  lemma TransitionWorks(ops: seq<Operation>, placed: set<nat>, value: Value, left: nat, index: nat, tr: Transition,
                        steps: seq<Step>)
    requires left > 0 && Allowed(ops, placed, value, Move(index, tr.value))
    requires tr.ambiguousApplied == (ops[index].outcome != Succeeded && tr.value != value)
    requires Answer(ops, placed + {index}, tr.value, left - 1, true, steps)
    ensures Answer(ops, placed, value, left, true, [Step(ops[index].id, tr.ambiguousApplied)] + steps)
  {
    var m, report := Move(index, tr.value), [Step(ops[index].id, tr.ambiguousApplied)] + steps;
    MoveFinishes(ops, placed, value, m, left - 1);
    assert report[1..] == steps;
    assert Allowed(ops, placed, value, m) && StepOf(ops[m.index], value, m.next, report[0]);
  }

  method PredecessorTable(operations: seq<Operation>) returns (table: seq<set<nat>>)
    ensures |table| == |operations|
    ensures forall i | 0 <= i < |operations| :: ArePredecessors(operations, i, table[i])
  {
    table := [];
    for current := 0 to |operations|
      invariant |table| == current
      invariant forall i | 0 <= i < current :: ArePredecessors(operations, i, table[i])
    {
      var earlier: set<nat> := {};
      for previous := 0 to |operations|
        invariant forall i: nat :: i in earlier <==> i < previous && Precedes(operations[i], operations[current])
      {
        if operations[previous].ret < operations[current].invoke {
          earlier := earlier + {previous};
        }
      }
      table := table + [earlier];
    }
  }
}
