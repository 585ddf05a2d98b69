/**
 The verification of a history receipt together with the controller record that it binds: what the two
 files certify together, that a receipt binds one record, and that the signer's receipts verify.
 */
module HistoryVerification {

  import opened Anchors
  import opened AnchorHistory
  import opened HistoryWire
  import opened LinearizabilityCheck
  import opened Options
  import opened AgentEvidence
  import B = EvidenceBinding
  import F = FinalLoad
  import R = HistoryReceipt

  const CONTROLLER_SCHEMA: nat := 3

  datatype Controller = Controller(
    schemaVersion: nat, record: Record, initial: WireValue, buildRevision: string, goos: string, goarch: string,
    goVersion: string)

  /** A record file: its formatting is free, its content decodes or does not. */
  datatype File = File(formatting: string, controller: Option<Controller>)

  /** The hash of a file, and whether a signature is one over these unsigned contents under this key. */
  datatype Crypto = Crypto(sha256: File -> string, signs: (string, R.Receipt, string) -> bool)

  /** No two files have one hash, and no signature is one over two contents. */
  ghost predicate Binding(crypto: Crypto) {
    && (forall a, b | crypto.sha256(a) == crypto.sha256(b) :: a == b)
    && (forall key, a, b, s {:trigger crypto.signs(key, a, s), crypto.signs(key, b, s)} |
          crypto.signs(key, a, s) && crypto.signs(key, b, s) :: a == b)
  }

  function Unsigned(r: R.Receipt): R.Receipt { r.(signature := "") }

  // ---------------------------------------------------------------------------------------
  // The two validators.
  // ---------------------------------------------------------------------------------------

  predicate UsesReservedID(operations: seq<WireOperation>) {
    exists i :: 0 <= i < |operations| && operations[i].id == F.FINAL_LOAD_ID
  }

  predicate Identified(c: Controller) {
    && c.schemaVersion == CONTROLLER_SCHEMA && IsLowerHex(c.record.runID, 16) && IsHexDigest(c.record.configurationID)
    && IsSourceRevision(c.record.sourceRevision) && (c.buildRevision == "" || IsSourceRevision(c.buildRevision))
    && c.goos != "" && c.goarch != "" && c.goVersion != "" && 1 <= |c.record.operations| <= MAX_OPERATIONS - 1
  }

  ghost predicate ValidController(c: Controller) {
    var holds :=
      && Identified(c) && ValidEvidence(c.record) && !UsesReservedID(c.record.operations)
      && R.Converts(c.initial, c.record.operations) && ValidHistory(R.HistoryOf(c.initial, c.record.operations));
    holds
  }

  method ValidateController(c: Controller) returns (ok: bool)
    ensures ok <==> ValidController(c)
  {
    if !Identified(c) {
      return false;
    }
    ok := ValidateAgentEvidence(c.record);
    if !ok || UsesReservedID(c.record.operations) {
      return false;
    }
    var history := R.HistoryFromWire(c.initial, c.record.operations);
    if history.None? {
      return false;
    }
    var check := CheckAnchorHistory(history.value);
    ok := check.Checked?;
  }

  ghost predicate VerifiedReceipt(crypto: Crypto, r: R.Receipt, key: string) {
    var holds := R.ValidReceipt(r) && r.signingPublicKey == key && crypto.signs(key, Unsigned(r), r.signature);
    holds
  }

  /** The receipt names this record and repeats it up to the final load. */
  predicate Binds(crypto: Crypto, r: R.Receipt, file: File, c: Controller) {
    && r.controllerSHA256 == crypto.sha256(file) && r.runID == c.record.runID
    && r.configurationID == c.record.configurationID && r.sourceRevision == c.record.sourceRevision
    && r.initial == c.initial && |r.operations| == |c.record.operations| + 1
    && forall i | 0 <= i < |c.record.operations| :: r.operations[i] == c.record.operations[i]
  }

  ghost predicate VerifiedFiles(crypto: Crypto, r: R.Receipt, file: File, key: string) {
    && IsPublicKey(key) && VerifiedReceipt(crypto, r, key)
    && file.controller.Some? && ValidController(file.controller.value)
    && Binds(crypto, r, file, file.controller.value)
  }

  method CheckBinding(crypto: Crypto, r: R.Receipt, file: File, c: Controller) returns (ok: bool)
    ensures ok <==> Binds(crypto, r, file, c)
  {
    if r.controllerSHA256 != crypto.sha256(file) || r.runID != c.record.runID
       || r.configurationID != c.record.configurationID || r.sourceRevision != c.record.sourceRevision
       || r.initial != c.initial || |r.operations| != |c.record.operations| + 1 {
      return false;
    }
    for i := 0 to |c.record.operations|
      invariant forall k | 0 <= k < i :: r.operations[k] == c.record.operations[k]
    {
      if r.operations[i] != c.record.operations[i] {
        return false;
      }
    }
    ok := true;
  }

  method VerifyReceipt(crypto: Crypto, r: R.Receipt, key: string) returns (ok: bool)
    ensures ok <==> VerifiedReceipt(crypto, r, key)
  {
    ok := R.ValidateReceipt(r);
    ok := ok && r.signingPublicKey == key && crypto.signs(key, Unsigned(r), r.signature);
  }

  method VerifyFiles(crypto: Crypto, r: R.Receipt, file: File, key: string) returns (ok: bool)
    ensures ok <==> VerifiedFiles(crypto, r, file, key)
  {
    if !IsPublicKey(key) {
      return false;
    }
    ok := VerifyReceipt(crypto, r, key);
    if !ok || file.controller.None? {
      return false;
    }
    ok := ValidateController(file.controller.value);
    if ok {
      ok := CheckBinding(crypto, r, file, file.controller.value);
    }
  }

  // ---------------------------------------------------------------------------------------
  // What the two files certify together.
  // ---------------------------------------------------------------------------------------

  /** The checker refuses repeated operation IDs, which the evidence alone allows. */
  lemma OperationsAreDistinct(c: Controller)
    requires ValidController(c)
    ensures DistinctOperations(c.record.operations)
  {
    var h := R.HistoryOf(c.initial, c.record.operations);
    forall i, j | 0 <= i < j < |c.record.operations| ensures c.record.operations[i].id != c.record.operations[j].id {
      assert h.operations[i].id == c.record.operations[i].id && h.operations[j].id == c.record.operations[j].id;
    }
  }

  lemma ControllerIsEvidenced(c: Controller)
    requires ValidController(c)
    ensures ValidEvidence(c.record) && DistinctOperations(c.record.operations)
    ensures forall i | 0 <= i < |c.record.operations| :: c.record.operations[i].id != F.FINAL_LOAD_ID
  {
    OperationsAreDistinct(c);
  }

  lemma AgreeingIsUnique(fragments: seq<Fragment>, op: WireOperation, f: nat)
    requires DistinctFragments(fragments) && f < |fragments| && Agrees(op, fragments[f])
    ensures forall g | 0 <= g < |fragments| && Agrees(op, fragments[g]) :: g == f
  {
  }

  lemma RecordedIsSigned(record: Record, i: nat) returns (f: nat, k: nat)
    requires ValidEvidence(record) && i < |record.operations|
    ensures f < |record.fragments| && k < |record.agents| && Agrees(record.operations[i], record.fragments[f])
    ensures B.SignedOver(record.fragments[f], record.agents[k].agentID, record.agents[k].signingPublicKey)
    ensures B.OfRun(record.fragments[f], record.runID, record.configurationID, record.sourceRevision)
    ensures B.Consistent(record.fragments[f])
  {
    assert Evidenced(record, record.operations[i]);
    f :| 0 <= f < |record.fragments| && Agrees(record.operations[i], record.fragments[f]);
    k := B.RecordIsSigned(record, f);
  }

  /**
   Every operation of a verified receipt but the final load is what exactly one signed result says, and
   that is signed over its own body under the key of a listed agent, for the run of the receipt.
   */
  lemma OperationIsSigned(crypto: Crypto, r: R.Receipt, file: File, key: string, i: nat) returns (f: nat, k: nat)
    requires VerifiedFiles(crypto, r, file, key) && i < |r.operations| - 1
    ensures var record := file.controller.value.record;
            && f < |record.fragments| && k < |record.agents| && Agrees(r.operations[i], record.fragments[f])
            && B.SignedOver(record.fragments[f], record.agents[k].agentID, record.agents[k].signingPublicKey)
            && B.OfRun(record.fragments[f], r.runID, r.configurationID, r.sourceRevision)
            && B.Consistent(record.fragments[f])
            && forall g | 0 <= g < |record.fragments| && Agrees(r.operations[i], record.fragments[g]) :: g == f
  {
    ControllerIsEvidenced(file.controller.value);
    f, k := RecordedIsSigned(file.controller.value.record, i);
    AgreeingIsUnique(file.controller.value.record.fragments, r.operations[i], f);
  }

  lemma FinalIsReserved(crypto: Crypto, r: R.Receipt, key: string)
    requires VerifiedReceipt(crypto, r, key)
    ensures r.operations != [] && R.Last(r).id == F.FINAL_LOAD_ID
  {
  }

  /** The operation at `i`, which is not the last, is the only one that agrees with the signed result. */
  ghost predicate RecordedAt(operations: seq<WireOperation>, f: Fragment, i: nat) {
    var holds :=
      && i < |operations| - 1 && Agrees(operations[i], f)
      && forall j | 0 <= j < |operations| && Agrees(operations[j], f) :: j == i;
    holds
  }

  /** So is the operation at `i` among those of the record, none of which has the reserved ID. */
  ghost predicate UsedAt(recorded: seq<WireOperation>, f: Fragment, i: nat) {
    var holds :=
      && i < |recorded| && Agrees(recorded[i], f) && recorded[i].id != F.FINAL_LOAD_ID
      && forall j | 0 <= j < |recorded| && Agrees(recorded[j], f) :: j == i;
    holds
  }

  lemma ResultIsUsed(c: Controller, f: nat) returns (i: nat)
    requires ValidController(c) && f < |c.record.fragments|
    ensures UsedAt(c.record.operations, c.record.fragments[f], i)
  {
    ControllerIsEvidenced(c);
    i := EveryFragmentIsUsed(c.record, f);
  }

  lemma UsedIsRecorded(operations: seq<WireOperation>, recorded: seq<WireOperation>, f: Fragment, i: nat)
    requires |operations| == |recorded| + 1 && forall k | 0 <= k < |recorded| :: operations[k] == recorded[k]
    requires UsedAt(recorded, f, i) && operations[|recorded|].id == F.FINAL_LOAD_ID
    ensures RecordedAt(operations, f, i)
  {
    assert operations[i] == recorded[i];
    forall j | 0 <= j < |operations| && Agrees(operations[j], f) ensures j == i {
      if j < |recorded| {
        assert operations[j] == recorded[j];
      }
    }
  }

  lemma BoundIsRecorded(crypto: Crypto, r: R.Receipt, file: File, c: Controller, f: Fragment, i: nat)
    requires Binds(crypto, r, file, c) && UsedAt(c.record.operations, f, i) && R.Last(r).id == F.FINAL_LOAD_ID
    ensures RecordedAt(r.operations, f, i)
  {
    UsedIsRecorded(r.operations, c.record.operations, f, i);
  }

  /** Conversely every signed result of the record is one operation of the receipt, and not the final load. */
  lemma SignedResultIsRecorded(crypto: Crypto, r: R.Receipt, file: File, key: string, f: nat) returns (i: nat)
    requires VerifiedFiles(crypto, r, file, key) && f < |file.controller.value.record.fragments|
    ensures RecordedAt(r.operations, file.controller.value.record.fragments[f], i)
  {
    var c := file.controller.value;
    FinalIsReserved(crypto, r, key);
    i := ResultIsUsed(c, f);
    BoundIsRecorded(crypto, r, file, c, c.record.fragments[f], i);
  }

  /** The final value keeps everything of this one. */
  predicate CoversValue(r: R.Receipt, w: WireValue)
    requires r.operations != []
  {
    var final, value := ValueFromWire(R.Last(r).value), ValueFromWire(w);
    final.Some? && value.Some? && Covers(final.value, value.value)
  }

  lemma OperationIsCovered(crypto: Crypto, r: R.Receipt, key: string, i: nat)
    requires VerifiedReceipt(crypto, r, key) && i < |r.operations| && r.operations[i].outcome == Succeeded
    requires r.operations[i].ret < R.Last(r).invoke
    ensures CoversValue(r, r.operations[i].value)
  {
    R.ReceiptCoversHistory(r);
  }

  /**
   The final value of a verified receipt covers what every signed success says, if its operation returned
   before the final load was invoked.
   */
  lemma SignedSuccessIsCovered(crypto: Crypto, r: R.Receipt, file: File, key: string, f: nat)
    requires VerifiedFiles(crypto, r, file, key) && f < |file.controller.value.record.fragments|
    requires file.controller.value.record.fragments[f].body.outcome == Succeeded
    requires forall i | 0 <= i < |r.operations|
             && r.operations[i].id == OperationOf(file.controller.value.record.fragments[f]) ::
               r.operations[i].ret < R.Last(r).invoke
    ensures CoversValue(r, file.controller.value.record.fragments[f].body.value)
  {
    var i := SignedResultIsRecorded(crypto, r, file, key, f);
    OperationIsCovered(crypto, r, key, i);
  }

  // ---------------------------------------------------------------------------------------
  // Binding, and the signer.
  // ---------------------------------------------------------------------------------------

  /** A receipt verifies with one record file at most, and no other contents verify under its signature. */
  lemma ReceiptBindsOneRecord(crypto: Crypto, r: R.Receipt, r': R.Receipt, file: File, file': File, key: string)
    requires Binding(crypto) && VerifiedFiles(crypto, r, file, key)
    requires VerifiedFiles(crypto, r', file', key) && r.signature == r'.signature
    ensures r == r' && file == file'
  {
    assert Unsigned(r) == Unsigned(r');
    assert r == Unsigned(r).(signature := r.signature) && r' == Unsigned(r').(signature := r'.signature);
  }

  /** What the signer takes over from the record into its draft. */
  predicate DraftOf(crypto: Crypto, draft: R.Receipt, file: File, c: Controller) {
    && draft.controllerSHA256 == crypto.sha256(file) && draft.runID == c.record.runID
    && draft.configurationID == c.record.configurationID && draft.sourceRevision == c.record.sourceRevision
    && draft.initial == c.initial
  }

  /** What the signer publishes repeats the record, and everything in it returned before the final load. */
  lemma ClosingBinds(crypto: Crypto, draft: R.Receipt, file: File, c: Controller, retained: Value, n: nat, r: R.Receipt)
    requires DraftOf(crypto, draft, file, c) && R.Closes(draft, c.record.operations, retained, n, r)
    ensures Binds(crypto, r, file, c) && R.ValidReceipt(r) && r.signingPublicKey == draft.signingPublicKey
    ensures forall i | 0 <= i < |r.operations| - 1 :: r.operations[i].ret < R.Last(r).invoke
  {
    forall i | 0 <= i < |c.record.operations|
      ensures r.operations[i] == c.record.operations[i] && r.operations[i].ret < n
    {
      assert c.record.operations[i].ret < n;
    }
  }

  /** What the signer publishes for a valid record verifies with that record, and covers every signed success. */
  lemma SignedReceiptVerifies(crypto: Crypto, draft: R.Receipt, file: File, retained: Value, n: nat, r: R.Receipt,
                              key: string)
    requires file.controller.Some? && ValidController(file.controller.value) && IsPublicKey(key)
    requires DraftOf(crypto, draft, file, file.controller.value) && draft.signingPublicKey == key
    requires R.Closes(draft, file.controller.value.record.operations, retained, n, r)
    requires crypto.signs(key, Unsigned(r), r.signature)
    ensures VerifiedFiles(crypto, r, file, key)
    ensures forall f | 0 <= f < |file.controller.value.record.fragments|
            && file.controller.value.record.fragments[f].body.outcome == Succeeded ::
              CoversValue(r, file.controller.value.record.fragments[f].body.value)
  {
    ClosingBinds(crypto, draft, file, file.controller.value, retained, n, r);
    AllSuccessesAreCovered(crypto, r, file, key);
  }

  lemma AllSuccessesAreCovered(crypto: Crypto, r: R.Receipt, file: File, key: string)
    requires VerifiedFiles(crypto, r, file, key)
    requires forall i | 0 <= i < |r.operations| - 1 :: r.operations[i].ret < R.Last(r).invoke
    ensures forall f | 0 <= f < |file.controller.value.record.fragments|
            && file.controller.value.record.fragments[f].body.outcome == Succeeded ::
              CoversValue(r, file.controller.value.record.fragments[f].body.value)
  {
    var fragments := file.controller.value.record.fragments;
    forall f | 0 <= f < |fragments| && fragments[f].body.outcome == Succeeded
      ensures CoversValue(r, fragments[f].body.value)
    {
      var i := SignedResultIsRecorded(crypto, r, file, key, f);
      OperationIsCovered(crypto, r, key, i);
    }
  }
}
