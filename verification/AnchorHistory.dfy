/**
 The history checker: does some total order of the recorded operations respect real time and
 explain every observed result as an operation on one monotonic register?
 */
module AnchorHistory {

  import opened Anchors

  const MAX_OPERATIONS: nat := 24

  datatype Kind = Load | Advance | OtherKind(text: string)

  datatype Outcome = Succeeded | Failed | OtherOutcome(text: string)

  datatype Operation = Operation(id: string, kind: Kind, outcome: Outcome, invoke: nat, ret: nat, value: Value)

  datatype History = History(initial: Value, operations: seq<Operation>)

  datatype Step = Step(operationID: string, ambiguousApplied: bool)

  datatype Check = Check(linearizable: bool, exploredStates: nat, linearization: seq<Step>)

  datatype CheckResult = Checked(check: Check) | Rejected

  // ---------------------------------------------------------------------------------------
  // Specification: what it means for a history to be linearizable.
  // ---------------------------------------------------------------------------------------

  /** The register may go from `current` to `next` while `op` reports what it reported. */
  ghost predicate Explains(current: Value, op: Operation, next: Value) {
    || (op.kind == Load && next == current && (op.outcome == Failed || current == op.value))
    || (op.kind == Advance && next == current && op.outcome != Succeeded)
    || (op.kind == Advance && next == op.value && op.value.present && Covers(op.value, current))
  }

  /** Operation `a` returned before operation `b` was invoked. */
  predicate Precedes(a: Operation, b: Operation) { a.ret < b.invoke }

  ghost predicate IsOrder(n: nat, order: seq<nat>) {
    && |order| == n
    && (forall i | 0 <= i < n :: order[i] < n)
    && (forall i, j | 0 <= i < j < n :: order[i] != order[j])
  }

  ghost predicate RespectsRealTime(ops: seq<Operation>, order: seq<nat>)
    requires IsOrder(|ops|, order)
  {
    forall i, j | 0 <= i < j < |ops| :: !Precedes(ops[order[j]], ops[order[i]])
  }

  ghost predicate IsRun(h: History, order: seq<nat>, states: seq<Value>)
    requires IsOrder(|h.operations|, order)
  {
    && |states| == |order| + 1
    && states[0] == h.initial
    && forall k | 0 <= k < |order| :: Explains(states[k], h.operations[order[k]], states[k + 1])
  }

  ghost predicate IsLinearization(h: History, order: seq<nat>, states: seq<Value>) {
    && IsOrder(|h.operations|, order)
    && RespectsRealTime(h.operations, order)
    && IsRun(h, order, states)
  }

  ghost predicate Linearizable(h: History) {
    exists order, states :: IsLinearization(h, order, states)
  }

  /**
   The reported steps name the operations of `order`, and flag exactly the failed advances that moved
   the register.
   */
  ghost predicate Reports(h: History, order: seq<nat>, states: seq<Value>, steps: seq<Step>)
    requires IsLinearization(h, order, states)
  {
    && |steps| == |order|
    && forall k | 0 <= k < |order| ::
         var op := h.operations[order[k]];
         && steps[k].operationID == op.id
         && steps[k].ambiguousApplied == (op.outcome != Succeeded && states[k] != states[k + 1])
  }

  // ---------------------------------------------------------------------------------------
  // Input validation.
  // ---------------------------------------------------------------------------------------

  predicate ValidValue(v: Value) {
    if v.present then v.databaseID != ZERO_ID && v.generation > v.commitSequence else v == ABSENT
  }

  predicate ValidOperation(op: Operation) {
    && 1 <= |op.id| <= 128
    && 0 < op.invoke < op.ret
    && (op.outcome == Succeeded || op.outcome == Failed)
    && match op.kind
       case Load => if op.outcome == Failed then op.value == ABSENT else ValidValue(op.value)
       case Advance => op.value.present && ValidValue(op.value)
       case OtherKind(_) => false
  }

  /** No identifier and no event ordinal is used twice. */
  ghost predicate DistinctEvents(ops: seq<Operation>) {
    && (forall i, j | 0 <= i < j < |ops| ::
          && ops[i].id != ops[j].id
          && ops[i].invoke != ops[j].invoke
          && ops[i].ret != ops[j].ret)
    && (forall i, j | 0 <= i < |ops| && 0 <= j < |ops| :: ops[i].invoke != ops[j].ret)
  }

  ghost predicate ValidHistory(h: History) {
    && ValidValue(h.initial)
    && 1 <= |h.operations| <= MAX_OPERATIONS
    && (forall i | 0 <= i < |h.operations| :: ValidOperation(h.operations[i]))
    && DistinctEvents(h.operations)
  }

  ghost function Identifiers(ops: seq<Operation>): set<string> { set op | op in ops :: op.id }

  ghost function Events(ops: seq<Operation>): set<nat> {
    (set op | op in ops :: op.invoke) + (set op | op in ops :: op.ret)
  }

  predicate Clash(a: Operation, b: Operation) {
    a.id == b.id || a.invoke == b.invoke || a.ret == b.ret || a.invoke == b.ret || a.ret == b.invoke
  }

  ghost predicate AllAccepted(ops: seq<Operation>) {
    && (forall i | 0 <= i < |ops| :: ValidOperation(ops[i]))
    && (forall i, j | 0 <= i < j < |ops| :: !Clash(ops[i], ops[j]))
  }

  lemma AcceptedIffValid(ops: seq<Operation>)
    ensures AllAccepted(ops) <==> (forall i | 0 <= i < |ops| :: ValidOperation(ops[i])) && DistinctEvents(ops)
  {
    if AllAccepted(ops) {
      forall i, j | 0 <= i < |ops| && 0 <= j < |ops|
        ensures ops[i].invoke != ops[j].ret
      {
        if i < j { assert !Clash(ops[i], ops[j]); } else if j < i { assert !Clash(ops[j], ops[i]); }
      }
    }
  }

  lemma AcceptedExtends(ops: seq<Operation>, k: nat)
    requires k < |ops| && AllAccepted(ops[..k])
    ensures AllAccepted(ops[..k + 1]) <==>
              && ValidOperation(ops[k])
              && ops[k].id !in Identifiers(ops[..k])
              && ops[k].invoke !in Events(ops[..k])
              && ops[k].ret !in Events(ops[..k])
    ensures !AllAccepted(ops[..k + 1]) ==> !AllAccepted(ops)
  {
    var before, after := ops[..k], ops[..k + 1];
    SeenSetsFindClashes(before, ops[k]);
    assert forall i | 0 <= i < k :: before[i] == after[i] == ops[i];
    assert after[k] == ops[k];
    assert forall i | 0 <= i < |after| :: after[i] == ops[i];
  }

  /** What the sets of seen identifiers and ordinals are for. */
  lemma SeenSetsFindClashes(ops: seq<Operation>, op: Operation)
    ensures op.id in Identifiers(ops) || op.invoke in Events(ops) || op.ret in Events(ops) <==>
              exists i :: 0 <= i < |ops| && Clash(ops[i], op)
  {
    if exists i :: 0 <= i < |ops| && Clash(ops[i], op) {
      var i :| 0 <= i < |ops| && Clash(ops[i], op);
      assert ops[i] in ops;
    } else {
      forall x | x in ops
        ensures !Clash(x, op)
      {
        var i :| 0 <= i < |ops| && ops[i] == x;
      }
    }
  }

  lemma SeenSetsGrow(ops: seq<Operation>, op: Operation)
    ensures Identifiers(ops + [op]) == Identifiers(ops) + {op.id}
    ensures Events(ops + [op]) == Events(ops) + {op.invoke} + {op.ret}
  {
    var all := ops + [op];
    assert forall x :: x in all <==> x in ops || x == op;
  }

  /** The checks made on one operation, given the identifiers and ordinals used before it. */
  method ValidateOperation(op: Operation, identifiers: set<string>, events: set<nat>) returns (ok: bool)
    ensures ok <==> ValidOperation(op) && op.id !in identifiers && op.invoke !in events && op.ret !in events
  {
    if |op.id| == 0 || |op.id| > 128 || op.id in identifiers {
      return false;
    }
    if op.invoke == 0 || op.ret <= op.invoke || op.invoke in events || op.ret in events + {op.invoke} {
      return false;
    }
    if op.outcome != Succeeded && op.outcome != Failed {
      return false;
    }
    match op.kind {
      case Load =>
        if op.outcome == Failed {
          return op.value == ABSENT;
        } else {
          return ValidValue(op.value);
        }
      case Advance =>
        return op.value.present && ValidValue(op.value);
      case OtherKind(_) =>
        return false;
    }
  }

  method ValidateOperations(ops: seq<Operation>) returns (ok: bool)
    ensures ok <==> AllAccepted(ops)
  {
    var identifiers: set<string>, events: set<nat> := {}, {};
    for k := 0 to |ops|
      invariant AllAccepted(ops[..k])
      invariant identifiers == Identifiers(ops[..k]) && events == Events(ops[..k])
    {
      AcceptedExtends(ops, k);
      var valid := ValidateOperation(ops[k], identifiers, events);
      if !valid {
        return false;
      }
      SeenSetsGrow(ops[..k], ops[k]);
      assert ops[..k + 1] == ops[..k] + [ops[k]];
      identifiers, events := identifiers + {ops[k].id}, events + {ops[k].invoke} + {ops[k].ret};
    }
    assert ops[..|ops|] == ops;
    return true;
  }

  method ValidateHistory(h: History) returns (ok: bool)
    ensures ok <==> ValidHistory(h)
  {
    if !ValidValue(h.initial) || |h.operations| < 1 || |h.operations| > MAX_OPERATIONS {
      return false;
    }
    ok := ValidateOperations(h.operations);
    AcceptedIffValid(h.operations);
  }

  // ---------------------------------------------------------------------------------------
  // The transitions tried by the search.
  // ---------------------------------------------------------------------------------------

  datatype Transition = Transition(value: Value, ambiguousApplied: bool)

  datatype AdvanceResult = Advanced(value: Value) | Refused

  function AdvanceValue(current: Value, target: Value): AdvanceResult {
    if !target.present then Refused
    else if !current.present then Advanced(target)
    else if current.databaseID != target.databaseID || current.commitSequence > target.commitSequence
            || current.generation > target.generation then Refused
    else Advanced(target)
  }

  /**
   The list holds exactly the values the register may move to, each once, and flags the ambiguous
   writes that took effect.
   */
  ghost predicate ListsTransitions(current: Value, op: Operation, ts: seq<Transition>) {
    && (forall k | 0 <= k < |ts| ::
          Explains(current, op, ts[k].value)
          && ts[k].ambiguousApplied == (op.outcome != Succeeded && ts[k].value != current))
    && (forall next | Explains(current, op, next) :: exists k :: 0 <= k < |ts| && ts[k].value == next)
    && (forall k, l | 0 <= k < l < |ts| :: ts[k].value != ts[l].value)
  }

  /** The same values in the order in which the search tries them: an ambiguous write first without its effect. */
  function InOrder(current: Value, op: Operation): seq<Transition> {
    match op.kind
    case Load => if op.outcome == Failed || current == op.value then [Transition(current, false)] else []
    case Advance =>
      var advanced := AdvanceValue(current, op.value);
      if op.outcome == Succeeded then if advanced.Advanced? then [Transition(advanced.value, false)] else []
      else [Transition(current, false)]
           + if advanced.Advanced? && advanced.value != current then [Transition(advanced.value, true)] else []
    case OtherKind(_) => []
  }

  lemma InOrderLists(current: Value, op: Operation)
    ensures ListsTransitions(current, op, InOrder(current, op))
  {
    var ts := InOrder(current, op);
    forall next | Explains(current, op, next) ensures exists k :: 0 <= k < |ts| && ts[k].value == next {
      if next == current && |ts| > 0 && ts[0].value == current {
        assert ts[0].value == next;
      } else {
        assert ts[|ts| - 1].value == next;
      }
    }
  }

  method Transitions(current: Value, op: Operation) returns (ts: seq<Transition>)
    ensures ListsTransitions(current, op, ts)
    ensures ts == InOrder(current, op)
  {
    match op.kind {
      case Load =>
        if op.outcome == Failed {
          ts := [Transition(current, false)];
        } else if current == op.value {
          ts := [Transition(current, false)];
        } else {
          return [];
        }
        assert ts[0].value == current;
      case Advance =>
        var advanced := AdvanceValue(current, op.value);
        if op.outcome == Succeeded {
          if advanced.Refused? {
            return [];
          }
          ts := [Transition(advanced.value, false)];
          assert ts[0].value == advanced.value;
          return;
        }
        ts := [Transition(current, false)];
        if advanced.Advanced? && advanced.value != current {
          ts := ts + [Transition(advanced.value, true)];
          assert ts[1].value == advanced.value;
        }
        assert ts[0].value == current;
      case OtherKind(_) =>
        return [];
    }
  }
}
