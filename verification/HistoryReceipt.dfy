/**
 The signed receipt of a history qualification: its validator, what every accepted receipt certifies
 about its final value, and what only the signer's own receipts do.
 */
module HistoryReceipt {

  import opened Anchors
  import opened AnchorHistory
  import opened HistoryWire
  import opened LinearizabilityCheck
  import opened Options
  import opened Permutations
  import opened QuorumEvidence
  import PhaseReceipt
  import E = AgentEvidence
  import F = FinalLoad
  import S = SearchCount

  const RECEIPT_SCHEMA: nat := 1

  datatype Receipt = Receipt(
    schemaVersion: nat, protocolVersion: nat, runID: string, controllerSHA256: string, externalEvidenceSHA256: string,
    sourceRevision: string, goos: string, goarch: string, goVersion: string, startedAt: int, finishedAt: int,
    configurationID: string, replicas: nat, quorum: nat, members: seq<Member>, initial: WireValue,
    operations: seq<E.WireOperation>, check: Check, passed: bool, signingPublicKey: string, signature: string)

  // ---------------------------------------------------------------------------------------
  // Histories on the wire.
  // ---------------------------------------------------------------------------------------

  predicate Converts(initial: WireValue, operations: seq<E.WireOperation>) {
    ValueFromWire(initial).Some? && forall i | 0 <= i < |operations| :: ValueFromWire(operations[i].value).Some?
  }

  function Converted(op: E.WireOperation): Operation
    requires ValueFromWire(op.value).Some?
  {
    Operation(op.id, op.kind, op.outcome, op.invoke, op.ret, ValueFromWire(op.value).value)
  }

  /** The history that the wire records stand for. */
  ghost function HistoryOf(initial: WireValue, operations: seq<E.WireOperation>): (h: History)
    requires Converts(initial, operations)
    ensures |h.operations| == |operations| && forall i | 0 <= i < |operations| ::
              h.operations[i] == Converted(operations[i])
  {
    History(ValueFromWire(initial).value,
            seq(|operations|, i requires 0 <= i < |operations| => Converted(operations[i])))
  }

  method HistoryFromWire(initial: WireValue, operations: seq<E.WireOperation>) returns (h: Option<History>)
    ensures h.Some? <==> Converts(initial, operations)
    ensures h.Some? ==> h.value == HistoryOf(initial, operations)
  {
    var first := ValueFromWire(initial);
    if first.None? {
      return None;
    }
    var converted: seq<Operation> := [];
    for i := 0 to |operations|
      invariant |converted| == i
      invariant forall k | 0 <= k < i ::
                  ValueFromWire(operations[k].value).Some? && converted[k] == Converted(operations[k])
    {
      if ValueFromWire(operations[i].value).None? {
        return None;
      }
      converted := converted + [Converted(operations[i])];
    }
    h := Some(History(first.value, converted));
  }

  function Zeros(n: nat): (text: string)
    ensures |text| == n && forall i | 0 <= i < n :: text[i] == '0'
  {
    seq(n, _ => '0')
  }

  lemma {:induction false} EncodeZero(digits: nat)
    ensures Encode(0, digits) == Zeros(digits)
  {
    if digits == 0 {
    } else {
      EncodeZero(digits - 1);
    }
  }

  /**
   Which accepted wire values the checker refuses: those with the zero identity, and those whose
   generation does not exceed their commit sequence.
   */
  lemma WireAcceptsMore(w: WireValue)
    requires ValueFromWire(w).Some?
    ensures !ValidValue(ValueFromWire(w).value) <==>
            w.present && (w.databaseIDHex == Zeros(32) || 1 <= w.minimumGeneration <= w.minimumCommitSequence)
  {
    if w.present {
      var v := ValueFromWire(w).value;
      EncodeZero(32);
      IDsHave32Digits();
      DecodeEncode(0, 32);
      WireRoundTrip(w);
    }
  }

  /** One such value, as the initial value, a loaded value or a target, gets the whole history rejected. */
  lemma OneSuchValueRejects(initial: WireValue, operations: seq<E.WireOperation>, w: WireValue)
    requires Converts(initial, operations) && w.present && ValueFromWire(w).Some?
    requires w.databaseIDHex == Zeros(32) || w.minimumGeneration <= w.minimumCommitSequence
    requires w == initial || exists i :: 0 <= i < |operations| && operations[i].value == w
    ensures CheckOf(HistoryOf(initial, operations)) == Rejected
  {
    WireAcceptsMore(w);
    var h := HistoryOf(initial, operations);
    if w != initial {
      var i :| 0 <= i < |operations| && operations[i].value == w;
      assert !ValidOperation(h.operations[i]);
    }
  }

  // ---------------------------------------------------------------------------------------
  // The validator.
  // ---------------------------------------------------------------------------------------

  predicate Complete(r: Receipt) {
    && r.schemaVersion == RECEIPT_SCHEMA && r.protocolVersion == PhaseReceipt.ANCHOR_PROTOCOL && IsLowerHex(r.runID, 16)
    && IsHexDigest(r.controllerSHA256) && IsHexDigest(r.externalEvidenceSHA256) && IsHexDigest(r.configurationID)
    && r.replicas >= 3 && r.replicas % 2 == 1 && r.quorum == r.replicas / 2 + 1 && |r.members| == r.replicas
    && r.startedAt != 0 && r.startedAt < r.finishedAt && r.goos != "" && r.goarch != "" && r.goVersion != ""
    && r.passed && r.signingPublicKey != "" && r.signature != "" && 2 <= |r.operations| <= MAX_OPERATIONS
    && IsSourceRevision(r.sourceRevision)
  }

  function Last(r: Receipt): E.WireOperation
    requires r.operations != []
  {
    r.operations[|r.operations| - 1]
  }

  predicate EndsWithLoad(r: Receipt)
    requires r.operations != []
  {
    Last(r).id == F.FINAL_LOAD_ID && Last(r).kind == Load && Last(r).outcome == Succeeded
  }

  ghost predicate ChecksOut(r: Receipt) {
    Converts(r.initial, r.operations) && CheckOf(HistoryOf(r.initial, r.operations)) == Checked(r.check)
    && r.check.linearizable
  }

  ghost predicate ValidReceipt(r: Receipt) {
    && Complete(r) && EndsWithLoad(r) && ChecksOut(r)
    && ValidMembers(r.members) && Supported(Last(r).value, r.members, r.quorum)
  }

  method ValidateReceipt(r: Receipt) returns (ok: bool)
    ensures ok <==> ValidReceipt(r)
  {
    if !Complete(r) || !EndsWithLoad(r) {
      return false;
    }
    var history := HistoryFromWire(r.initial, r.operations);
    if history.None? {
      return false;
    }
    var recomputed := CheckAnchorHistory(history.value);
    if recomputed.Rejected? || !recomputed.check.linearizable || recomputed.check != r.check {
      return false;
    }
    ok := ValidateMembers(r.members);
    if ok {
      ok := FinalValueSupported(Last(r).value, r.members, r.quorum);
    }
  }

  // ---------------------------------------------------------------------------------------
  // What an accepted receipt certifies.
  // ---------------------------------------------------------------------------------------

  ghost function FinalOf(r: Receipt): Operation
    requires ValidReceipt(r)
  {
    Converted(Last(r))
  }

  /** The recorded history is valid and linearizable. */
  lemma AcceptedIsLinearizable(r: Receipt)
    requires ValidReceipt(r)
    ensures ValidHistory(HistoryOf(r.initial, r.operations)) && Linearizable(HistoryOf(r.initial, r.operations))
  {
    CheckDecides(HistoryOf(r.initial, r.operations));
  }

  /**
   In every accepted receipt the final value covers the initial value and every successful operation
   that returned before the final load was invoked.
   */
  lemma ReceiptCoversHistory(r: Receipt)
    requires ValidReceipt(r)
    ensures Covers(FinalOf(r).value, HistoryOf(r.initial, r.operations).initial)
    ensures forall i | 0 <= i < |r.operations| && r.operations[i].outcome == Succeeded
            && r.operations[i].ret < Last(r).invoke ::
              Covers(FinalOf(r).value, Converted(r.operations[i]).value)
  {
    AcceptedIsLinearizable(r);
    var h := HistoryOf(r.initial, r.operations);
    F.LoadCoversEarlier(h, |h.operations| - 1);
    forall i | 0 <= i < |r.operations| && r.operations[i].outcome == Succeeded && r.operations[i].ret < Last(r).invoke
      ensures Covers(FinalOf(r).value, Converted(r.operations[i]).value)
    {
      assert Precedes(h.operations[i], h.operations[|h.operations| - 1]);
    }
  }

  /** In every accepted receipt the final value covers every anchor that a majority of members holds. */
  lemma ReceiptKeepsQuorumAnchors(r: Receipt, anchor: Value)
    requires ValidReceipt(r) && anchor.present
    requires |Holders(r.members, WireFromValue(anchor))| >= |r.members| / 2 + 1
    ensures Covers(FinalOf(r).value, anchor)
  {
    QuorumAnchorIsKept(r.members, Last(r).value, WireFromValue(anchor));
    WireRoundTrip(Last(r).value);
    SameDatabase(anchor, FinalOf(r).value);
  }

  lemma SameDatabase(a: Value, b: Value)
    requires a.present && b.present && WireFromValue(a).databaseIDHex == WireFromValue(b).databaseIDHex
    ensures a.databaseID == b.databaseID
  {
    IDsHave32Digits();
    DecodeEncode(a.databaseID as nat, 32);
    DecodeEncode(b.databaseID as nat, 32);
  }

  /**
   The check in an accepted receipt is the only one that would be accepted: it names a linearization of
   the recorded history, and it counts the states that the search for it has seen.
   */
  lemma ReceiptCheckIsPinned(r: Receipt, check: Check) returns (v: seq<S.Edge>)
    requires ValidReceipt(r)
    ensures check != r.check ==> !ValidReceipt(r.(check := check))
    ensures var h := HistoryOf(r.initial, r.operations);
            && r.check.exploredStates == 1 + |v| && S.Follows(h, v) && |v| >= |r.operations|
            && exists order, states ::
                 IsLinearization(h, order, states) && Reports(h, order, states, r.check.linearization)
  {
    AcceptedIsLinearizable(r);
    CheckDecides(HistoryOf(r.initial, r.operations));
    v := S.ExploredStates(HistoryOf(r.initial, r.operations));
  }

  ghost function NamesOf(members: seq<Member>, which: set<nat>): set<string>
    requires forall i | i in which :: i < |members|
  {
    set i | i in which :: members[i].memberID
  }

  lemma {:induction false} NamesAreDistinct(members: seq<Member>, which: set<nat>)
    requires forall i | i in which :: i < |members|
    requires forall i, k | 0 <= i < k < |members| :: members[i].memberID != members[k].memberID
    ensures |NamesOf(members, which)| == |which|
  {
    if which == {} {
    } else {
      var i :| i in which;
      NamesAreDistinct(members, which - {i});
      assert members[i].memberID !in NamesOf(members, which - {i});
      assert NamesOf(members, which) == NamesOf(members, which - {i}) + {members[i].memberID};
    }
  }

  /** The member has no anchor, or one that this value is level with or ahead of. */
  predicate Backs(m: Member, value: WireValue) {
    m.anchor == NO_VALUE || (value.present && m.anchor.present && AtMost(m.anchor, value))
  }

  /** The named member, of which there is one, backs the value. */
  ghost predicate NamedBacks(members: seq<Member>, id: string, value: WireValue) {
    exists i :: 0 <= i < |members| && members[i].memberID == id && Backs(members[i], value)
  }

  /**
   Behind the final value of an accepted receipt stands a majority of members under different names, none
   of which has anything ahead of it, and a value that is present is the very anchor of one of them.
   */
  lemma MajorityBacksReceipt(r: Receipt) returns (names: set<string>)
    requires ValidReceipt(r)
    ensures 2 * |names| > |r.members| >= 3 && forall id | id in names :: NamedBacks(r.members, id, Last(r).value)
    ensures forall i, k | 0 <= i < k < |r.members| :: r.members[i].memberID != r.members[k].memberID
    ensures Last(r).value.present ==> exists i :: 0 <= i < |r.members| && r.members[i].anchor == Last(r).value
  {
    var value, members := Last(r).value, r.members;
    var which := if value.present then DominatedAmong(members, |members|, value) else MissingAmong(members, |members|);
    names := NamesOf(members, which);
    NamesAreDistinct(members, which);
    forall id | id in names ensures NamedBacks(members, id, value) {
      var i :| i in which && members[i].memberID == id;
      assert ValidMember(members[i]);
      assert Backs(members[i], value);
    }
    if value.present {
      var i :| 0 <= i < |members| && Observes(members[i], value);
      assert ValidMember(members[i]) && members[i].anchor == value;
    }
  }

  // ---------------------------------------------------------------------------------------
  // The order of the final load is not checked.
  // ---------------------------------------------------------------------------------------

  function EmptyMember(id: string): Member { Member(id, Zeros(64), Missing, NO_VALUE) }

  /** An advance followed by an empty final load, at these ordinals, over three empty members. */
  function MissingReceipt(a: Value, invoke: nat, ret: nat, finalInvoke: nat, finalReturn: nat, check: Check): Receipt {
    Receipt(
      RECEIPT_SCHEMA, PhaseReceipt.ANCHOR_PROTOCOL, Zeros(32), Zeros(64), Zeros(64), Zeros(40), "linux", "amd64", "go",
      1, 2, Zeros(64),
      3, 2, [EmptyMember("a"), EmptyMember("b"), EmptyMember("c")], NO_VALUE,
      [E.WireOperation("a", Advance, Succeeded, invoke, ret, WireFromValue(a)),
       E.WireOperation(F.FINAL_LOAD_ID, Load, Succeeded, finalInvoke, finalReturn, NO_VALUE)],
      check, true, "key", "signature")
  }

  /** Four distinct positive ordinals of two operations. */
  predicate Ordinals(invoke: nat, ret: nat, finalInvoke: nat, finalReturn: nat) {
    0 < invoke < ret && 0 < finalInvoke < finalReturn && invoke != finalInvoke && invoke != finalReturn
    && ret != finalInvoke && ret != finalReturn
  }

  lemma MissingIsSupported(members: seq<Member>)
    requires members == [EmptyMember("a"), EmptyMember("b"), EmptyMember("c")]
    ensures ValidMembers(members) && Supported(NO_VALUE, members, 2)
  {
    assert forall i | 0 <= i < 3 :: members[i].memberID == ["a", "b", "c"][i];
    assert forall i, j | 0 <= i < j < 3 :: ["a", "b", "c"][i][0] != ["a", "b", "c"][j][0];
    assert {0, 1} <= MissingAmong(members, 3);
    SubsetSize({0, 1}, MissingAmong(members, 3));
  }

  /** If the advance does not return before the final load is invoked, the empty load may come first. */
  lemma EmptyLoadFirst(h: History, a: Value)
    requires ValidValue(a) && a.present && h.initial == ABSENT && |h.operations| == 2
    requires h.operations[0].kind == Advance && h.operations[0].outcome == Succeeded && h.operations[0].value == a
    requires h.operations[1].kind == Load && h.operations[1].outcome == Succeeded && h.operations[1].value == ABSENT
    requires !Precedes(h.operations[0], h.operations[1])
    ensures Linearizable(h)
  {
    var order, states := [1, 0], [ABSENT, ABSENT, a];
    assert Explains(states[0], h.operations[order[0]], states[1])
           && Explains(states[1], h.operations[order[1]], states[2]);
    assert IsLinearization(h, order, states);
  }

  /** Then some accepted receipt has a final value that loses the acknowledged anchor. */
  lemma FinalLoadMayMiss(a: Value, invoke: nat, ret: nat, finalInvoke: nat, finalReturn: nat) returns (r: Receipt)
    requires ValidValue(a) && a.present && Ordinals(invoke, ret, finalInvoke, finalReturn) && finalInvoke < ret
    ensures ValidReceipt(r) && Timed(r, 0, invoke, ret, finalInvoke, finalReturn)
    ensures ValueFromWire(r.operations[0].value) == Some(a) && !Covers(FinalOf(r).value, a)
  {
    AnchorRoundTrip(a);
    var draft := MissingReceipt(a, invoke, ret, finalInvoke, finalReturn, Check(false, 0, []));
    var h := HistoryOf(draft.initial, draft.operations);
    assert h.operations[0] == Operation("a", Advance, Succeeded, invoke, ret, a);
    assert h.operations[1] == Operation(F.FINAL_LOAD_ID, Load, Succeeded, finalInvoke, finalReturn, ABSENT);
    EmptyLoadFirst(h, a);
    assert ValidHistory(h);
    CheckDecides(h);
    r := draft.(check := CheckOf(h).check);
    MissingIsSupported(r.members);
  }

  /** The operation at this position and the final load have these ordinals, and the operation succeeded. */
  ghost predicate Timed(r: Receipt, i: nat, invoke: nat, ret: nat, finalInvoke: nat, finalReturn: nat) {
    && i < |r.operations| && r.operations[i].outcome == Succeeded
    && r.operations[i].invoke == invoke && r.operations[i].ret == ret
    && Last(r).invoke == finalInvoke && Last(r).ret == finalReturn
  }

  /** Every accepted receipt with these ordinals keeps the operation's value. */
  ghost predicate AlwaysKept(invoke: nat, ret: nat, finalInvoke: nat, finalReturn: nat) {
    forall r, i: nat | ValidReceipt(r) && Timed(r, i, invoke, ret, finalInvoke, finalReturn) ::
      Covers(FinalOf(r).value, Converted(r.operations[i]).value)
  }

  /**
   The value of a successful operation is certain to be kept exactly if the final load was invoked
   after it returned.
   */
  lemma KeptIffFinalLoadFollows(invoke: nat, ret: nat, finalInvoke: nat, finalReturn: nat)
    requires Ordinals(invoke, ret, finalInvoke, finalReturn)
    ensures AlwaysKept(invoke, ret, finalInvoke, finalReturn) <==> ret < finalInvoke
  {
    if ret < finalInvoke {
      forall r, i: nat | ValidReceipt(r) && Timed(r, i, invoke, ret, finalInvoke, finalReturn)
        ensures Covers(FinalOf(r).value, Converted(r.operations[i]).value)
      {
        ReceiptCoversHistory(r);
      }
    } else {
      var r := FinalLoadMayMiss(Value(true, 1, 0, 1), invoke, ret, finalInvoke, finalReturn);
    }
  }

  // ---------------------------------------------------------------------------------------
  // The signer's own receipts.
  // ---------------------------------------------------------------------------------------

  /** The final value covers every successful operation. */
  ghost predicate CoversEverything(r: Receipt)
    requires ValidReceipt(r)
  {
    forall i | 0 <= i < |r.operations| && r.operations[i].outcome == Succeeded ::
      Covers(FinalOf(r).value, Converted(r.operations[i]).value)
  }

  ghost predicate OrdinalsFit(operations: seq<E.WireOperation>) {
    forall i | 0 <= i < |operations| :: operations[i].invoke <= F.MAX_UINT64 && operations[i].ret <= F.MAX_UINT64
  }

  /** The smallest ordinal after every recorded event. */
  ghost predicate NextOrdinal(operations: seq<E.WireOperation>, n: nat) {
    && n >= 1 && (forall i | 0 <= i < |operations| :: operations[i].invoke < n && operations[i].ret < n)
    && (n == 1 || exists i :: 0 <= i < |operations| && (operations[i].invoke == n - 1 || operations[i].ret == n - 1))
  }

  /** The final load of the retained value at these ordinals. */
  function LoadAt(n: nat, retained: Value): E.WireOperation {
    E.WireOperation(F.FINAL_LOAD_ID, Load, Succeeded, n, n + 1, WireFromValue(retained))
  }

  /** A valid receipt for the controller's history, closed by a load of the retained value at the next two ordinals. */
  ghost predicate Closes(draft: Receipt, controller: seq<E.WireOperation>, retained: Value, n: nat, r: Receipt) {
    && NextOrdinal(controller, n) && n + 1 <= F.MAX_UINT64
    && r == draft.(operations := controller + [LoadAt(n, retained)], check := r.check, passed := true)
    && ValidReceipt(r)
  }

  lemma NextOrdinalIsUnique(operations: seq<E.WireOperation>, m: nat, n: nat)
    requires NextOrdinal(operations, m) && NextOrdinal(operations, n)
    ensures m == n
  {
  }

  /** There is at most one receipt to publish. */
  lemma ClosesOnlyOnce(draft: Receipt, controller: seq<E.WireOperation>, retained: Value, n: nat, receipt: Receipt,
                       m: nat, x: Receipt)
    requires NextOrdinal(controller, n) && Closes(draft, controller, retained, m, x) && ChecksOut(receipt)
    requires receipt == draft.(operations := controller + [LoadAt(n, retained)], check := receipt.check, passed := true)
    ensures x == receipt
  {
    NextOrdinalIsUnique(controller, m, n);
  }

  lemma InvalidNeverCloses(draft: Receipt, controller: seq<E.WireOperation>, retained: Value, n: nat, receipt: Receipt)
    requires NextOrdinal(controller, n) && ChecksOut(receipt) && !ValidReceipt(receipt)
    requires receipt == draft.(operations := controller + [LoadAt(n, retained)], check := receipt.check, passed := true)
    ensures forall m, x :: !Closes(draft, controller, retained, m, x)
  {
    forall m, x ensures !Closes(draft, controller, retained, m, x) {
      if Closes(draft, controller, retained, m, x) {
        ClosesOnlyOnce(draft, controller, retained, n, receipt, m, x);
      }
    }
  }

  lemma UncheckedNeverCloses(draft: Receipt, controller: seq<E.WireOperation>, retained: Value, n: nat)
    requires NextOrdinal(controller, n)
    requires var operations := controller + [LoadAt(n, retained)];
             Converts(draft.initial, operations) ==>
               var check := CheckOf(HistoryOf(draft.initial, operations)); check.Rejected? || !check.check.linearizable
    ensures forall m, x :: !Closes(draft, controller, retained, m, x)
  {
    forall m, x ensures !Closes(draft, controller, retained, m, x) {
      if Closes(draft, controller, retained, m, x) {
        NextOrdinalIsUnique(controller, m, n);
      }
    }
  }

  lemma UnconvertedNeverCloses(draft: Receipt, controller: seq<E.WireOperation>, retained: Value)
    requires !Converts(draft.initial, controller)
    ensures forall m, x :: !Closes(draft, controller, retained, m, x)
  {
    forall m, x ensures !Closes(draft, controller, retained, m, x) {
      var operations := controller + [LoadAt(m, retained)];
      assert operations[..|controller|] == controller;
      assert forall i | 0 <= i < |controller| :: operations[i] == controller[i];
    }
  }

  /**
   The signer appends its load after every recorded event, checks the whole history and validates its
   own receipt. It publishes one exactly if there is one to publish, and whatever it publishes covers
   every successful operation.
   */
  method SignHistory(draft: Receipt, controller: seq<E.WireOperation>, retained: Value) returns (r: Option<Receipt>)
    requires OrdinalsFit(controller)
    ensures r.Some? ==> exists n :: Closes(draft, controller, retained, n, r.value)
    ensures r.Some? ==> ValidReceipt(r.value) && CoversEverything(r.value)
    ensures r.None? ==> forall n, x :: !Closes(draft, controller, retained, n, x)
  {
    var history := HistoryFromWire(draft.initial, controller);
    if history.None? {
      UnconvertedNeverCloses(draft, controller, retained);
      return None;
    }
    var extension := F.AppendFinalLoad(history.value.operations, retained);
    if extension.OrdinalsExhausted? {
      ghost var ops := history.value.operations;
      ghost var i :| 0 <= i < |ops| && (ops[i].invoke > F.MAX_UINT64 - 2 || ops[i].ret > F.MAX_UINT64 - 2);
      assert controller[i].invoke == ops[i].invoke && controller[i].ret == ops[i].ret;
      return None;
    }
    var final := extension.operations[|controller|];
    assert NextOrdinal(controller, final.invoke) by {
      NextAfterHistory(controller, history.value.operations, final.invoke);
    }
    r := SignClosed(draft, controller, retained, final.invoke);
    if r.Some? {
      SignedCoversEverything(r.value, history.value.operations, final);
    }
  }

  lemma NextAfterHistory(controller: seq<E.WireOperation>, ops: seq<Operation>, n: nat)
    requires |ops| == |controller| && n >= 1 && F.EventsAtMost(ops, n - 1) && (n == 1 || F.EventsReach(ops, n - 1))
    requires forall i | 0 <= i < |ops| :: ops[i].invoke == controller[i].invoke && ops[i].ret == controller[i].ret
    ensures NextOrdinal(controller, n)
  {
    forall i | 0 <= i < |controller| ensures controller[i].invoke < n && controller[i].ret < n {
      assert ops[i].invoke <= n - 1 && ops[i].ret <= n - 1;
    }
    if n != 1 {
      var i :| 0 <= i < |ops| && (ops[i].invoke == n - 1 || ops[i].ret == n - 1);
      assert controller[i].invoke == n - 1 || controller[i].ret == n - 1;
    }
  }

  /** The checks on the closed history and on the receipt made from it. */
  method SignClosed(draft: Receipt, controller: seq<E.WireOperation>, retained: Value, n: nat)
    returns (r: Option<Receipt>)
    requires NextOrdinal(controller, n) && n + 1 <= F.MAX_UINT64
    ensures r.Some? ==> Closes(draft, controller, retained, n, r.value)
    ensures r.None? ==> forall m, x :: !Closes(draft, controller, retained, m, x)
  {
    var operations := controller + [LoadAt(n, retained)];
    var complete := HistoryFromWire(draft.initial, operations);
    if complete.None? {
      UncheckedNeverCloses(draft, controller, retained, n);
      return None;
    }
    var check := CheckAnchorHistory(complete.value);
    if check.Rejected? || !check.check.linearizable {
      UncheckedNeverCloses(draft, controller, retained, n);
      return None;
    }
    var receipt := draft.(operations := operations, check := check.check, passed := true);
    var ok := ValidateReceipt(receipt);
    if !ok {
      InvalidNeverCloses(draft, controller, retained, n, receipt);
      return None;
    }
    r := Some(receipt);
  }

  lemma SignedCoversEverything(r: Receipt, ops: seq<Operation>, final: Operation)
    requires ValidReceipt(r) && |r.operations| == |ops| + 1
    requires forall i | 0 <= i < |ops| :: ops[i] == Converted(r.operations[i])
    requires Last(r).invoke == final.invoke >= 1 && F.EventsAtMost(ops, final.invoke - 1)
    ensures CoversEverything(r)
  {
    ReceiptCoversHistory(r);
    forall i | 0 <= i < |r.operations| && r.operations[i].outcome == Succeeded
      ensures Covers(FinalOf(r).value, Converted(r.operations[i]).value)
    {
      if i < |ops| {
        assert ops[i].ret <= final.invoke - 1;
      }
    }
  }
}
