/** One signed receipt of the five-phase anchor qualification, and the checks made on it alone. */
module PhaseReceipt {

  import opened HistoryWire
  import opened Options
  import opened Permutations
  import opened QuorumEvidence

  const RECEIPT_SCHEMA: nat := 1
  const ANCHOR_PROTOCOL: nat := 2

  const PHASES: seq<string> := ["healthy", "degraded", "minority", "recovered", "rollback-rejected"]

  datatype Database = Database(verified: bool, databaseIDHex: string, sha256: string, commitSequence: nat,
                               metaGeneration: nat)

  datatype Build = Build(
    sourceRevision: string, buildRevision: string, buildModified: bool, goos: string, goarch: string, goVersion: string)

  /** A receipt file: its formatting is free, its content decodes or does not. */
  datatype Raw = Raw(formatting: string, receipt: Option<Receipt>)

  /** Hashes are free constructors, so equal digests mean equal files. */
  datatype FileDigest = NoDigest | DigestOf(raw: Raw) | TextDigest(text: string)

  datatype Contents = Contents(
    schemaVersion: nat, protocolVersion: nat, phase: string, runID: string, previousSHA256: FileDigest, build: Build,
    startedAt: int, finishedAt: int, configurationID: string, externalEvidenceSHA256: string, replicas: nat,
    quorum: nat,
    members: seq<Member>, availableMembers: nat, unavailableMembers: nat, quorumLoad: string, anchorExists: bool,
    anchorSequence: nat, anchorGeneration: nat, database: Database, databaseRelation: string, databaseOpen: string,
    passed: bool, signingPublicKey: string)

  datatype ReceiptSignature = ReceiptSignatureOver(key: string, contents: Contents) | BadSignature(text: string)

  datatype Receipt = Receipt(contents: Contents, signature: ReceiptSignature)

  // ---------------------------------------------------------------------------------------
  // Relation of a database to the quorum anchor.
  // ---------------------------------------------------------------------------------------

  datatype Relation = Unreadable | NoAnchor | IdentityConflict | AnchorAhead | Equal | DatabaseAhead

  /** The relation, and whether the probe goes on. */
  function RelationOf(database: Database, anchor: WireValue, loaded: bool): (Relation, bool) {
    if !loaded then (Unreadable, true)
    else if !anchor.present then (NoAnchor, false)
    else if anchor.databaseIDHex != database.databaseIDHex then (IdentityConflict, false)
    else if anchor.minimumCommitSequence > database.commitSequence || anchor.minimumGeneration > database.metaGeneration
            then (AnchorAhead, true)
    else if anchor.minimumCommitSequence == database.commitSequence
            && anchor.minimumGeneration == database.metaGeneration then (Equal, true)
    else (DatabaseAhead, true)
  }

  function Coordinates(database: Database): WireValue {
    WireValue(true, database.databaseIDHex, database.commitSequence, database.metaGeneration)
  }

  /** A database opens against the anchor in exactly the two relations in which the anchor does not exceed it. */
  lemma RelationMeans(database: Database, anchor: WireValue)
    requires anchor.present
    ensures var (relation, proceeds) := RelationOf(database, anchor, true);
            && (AtMost(anchor, Coordinates(database)) <==> relation == Equal || relation == DatabaseAhead)
            && (anchor == Coordinates(database) <==> relation == Equal)
            && (relation == AnchorAhead <==>
                  anchor.databaseIDHex == database.databaseIDHex && !AtMost(anchor, Coordinates(database)))
            && (proceeds <==> anchor.databaseIDHex == database.databaseIDHex)
  {
  }

  // ---------------------------------------------------------------------------------------
  // Phases.
  // ---------------------------------------------------------------------------------------

  predicate ValidPhase(phase: string, replicas: nat, quorum: nat, available: nat, unavailable: nat,
                       load: string, relation: string, opening: string, anchorExists: bool)
  {
    if phase == "healthy" then
      available == replicas && load == "succeeded" && anchorExists && relation == "equal" && opening == "not-attempted"
    else if phase == "degraded" then
      && available == quorum && unavailable == replicas - quorum && load == "succeeded" && anchorExists
      && relation == "equal" && opening == "not-attempted"
    else if phase == "minority" then
      && available < quorum && unavailable > replicas - quorum && load == "unavailable" && relation == "unavailable"
      && opening == "not-attempted" && !anchorExists
    else if phase == "recovered" then
      && available == replicas && load == "succeeded" && anchorExists
      && (relation == "equal" || relation == "database-ahead")
      && opening == "succeeded"
    else if phase == "rollback-rejected" then
      available == replicas && load == "succeeded" && anchorExists && relation == "anchor-ahead"
      && opening == "rollback-rejected"
    else false
  }

  // ---------------------------------------------------------------------------------------
  // Members.
  // ---------------------------------------------------------------------------------------

  predicate ValidEvidenceOf(c: Contents, m: Member) {
    && m.memberID != "" && IsHexDigest(m.endpointSHA256)
    && (m.anchor.present ==> IsLowerHex(m.anchor.databaseIDHex, 16))
    && !m.state.OtherState?
    && (m.state == Available ==>
          && m.anchor.present && m.anchor.minimumGeneration != 0 && m.anchor.databaseIDHex == c.database.databaseIDHex
          && (c.phase != "rollback-rejected" ==> AtMost(m.anchor, Coordinates(c.database))))
    && (m.state != Available ==> !m.anchor.present)
  }

  ghost predicate ValidEvidence(c: Contents, members: seq<Member>) {
    && (forall i | 0 <= i < |members| :: ValidEvidenceOf(c, members[i]))
    && (forall i, j | 0 <= i < j < |members| :: members[i].memberID != members[j].memberID)
  }

  ghost function InState(members: seq<Member>, k: nat, state: MemberState): set<nat>
    requires k <= |members|
  {
    set i: nat | i < k && members[i].state == state
  }

  lemma StateStep(members: seq<Member>, k: nat, state: MemberState)
    requires k < |members|
    ensures |InState(members, k + 1, state)| == |InState(members, k, state)| + if members[k].state == state then 1
            else 0
  {
    assert InState(members, k + 1, state) ==
           if members[k].state == state then InState(members, k, state) + {k} else InState(members, k, state);
  }

  method CountMembers(c: Contents) returns (ok: bool, available: nat, unavailable: nat)
    ensures ok <==> ValidEvidence(c, c.members)
    ensures ok ==> available == |InState(c.members, |c.members|, Available)|
    ensures ok ==> unavailable == |InState(c.members, |c.members|, Unavailable)|
  {
    var seen: set<string> := {};
    available, unavailable := 0, 0;
    for k := 0 to |c.members|
      invariant ValidEvidence(c, c.members[..k])
      invariant forall id :: id in seen <==> exists i :: 0 <= i < k && c.members[i].memberID == id
      invariant available == |InState(c.members, k, Available)| && unavailable == |InState(c.members, k, Unavailable)|
    {
      var member := c.members[k];
      if !ValidEvidenceOf(c, member) || member.memberID in seen {
        return false, available, unavailable;
      }
      seen := seen + {member.memberID};
      StateStep(c.members, k, Available);
      StateStep(c.members, k, Unavailable);
      if member.state == Available {
        available := available + 1;
      } else if member.state == Unavailable {
        unavailable := unavailable + 1;
      }
      assert c.members[..k + 1] == c.members[..k] + [member];
    }
    assert c.members[..|c.members|] == c.members;
    ok := true;
  }

  // ---------------------------------------------------------------------------------------
  // Whole receipts.
  // ---------------------------------------------------------------------------------------

  predicate IsFileDigest(d: FileDigest) {
    d.DigestOf? || (d.TextDigest? && IsHexDigest(d.text))
  }

  predicate Complete(c: Contents) {
    && c.schemaVersion == RECEIPT_SCHEMA && c.protocolVersion == ANCHOR_PROTOCOL && c.phase in PHASES
    && IsLowerHex(c.runID, 16) && IsHexDigest(c.configurationID) && IsHexDigest(c.externalEvidenceSHA256)
    && c.replicas != 0 && c.quorum == c.replicas / 2 + 1 && |c.members| == c.replicas
    && c.startedAt != 0 && c.startedAt < c.finishedAt && c.passed
    && c.database.verified && IsLowerHex(c.database.databaseIDHex, 16) && IsHexDigest(c.database.sha256)
    && c.signingPublicKey != ""
    && (c.previousSHA256 == NoDigest || IsFileDigest(c.previousSHA256))
    && (if c.anchorExists then c.anchorGeneration > c.anchorSequence
        else c.anchorSequence == 0 && c.anchorGeneration == 0)
  }

  ghost predicate ValidContents(c: Contents) {
    && Complete(c) && ValidEvidence(c, c.members)
    && c.availableMembers == |InState(c.members, |c.members|, Available)|
    && c.unavailableMembers == |InState(c.members, |c.members|, Unavailable)|
    && ValidPhase(c.phase, c.replicas, c.quorum, c.availableMembers, c.unavailableMembers, c.quorumLoad,
                  c.databaseRelation, c.databaseOpen, c.anchorExists)
  }

  method ValidateContents(c: Contents) returns (ok: bool)
    ensures ok <==> ValidContents(c)
  {
    if !Complete(c) {
      return false;
    }
    var available, unavailable;
    ok, available, unavailable := CountMembers(c);
    if !ok || available != c.availableMembers || unavailable != c.unavailableMembers {
      return false;
    }
    ok := ValidPhase(c.phase, c.replicas, c.quorum, available, unavailable, c.quorumLoad,
                     c.databaseRelation, c.databaseOpen, c.anchorExists);
  }

  ghost predicate VerifiedReceipt(r: Receipt, publicKey: string) {
    ValidContents(r.contents) && r.contents.signingPublicKey == publicKey
    && r.signature == ReceiptSignatureOver(publicKey, r.contents)
  }

  method VerifyReceipt(r: Receipt, publicKey: string) returns (ok: bool)
    ensures ok <==> VerifiedReceipt(r, publicKey)
  {
    ok := ValidateContents(r.contents);
    ok := ok && r.contents.signingPublicKey == publicKey && r.signature == ReceiptSignatureOver(publicKey, r.contents);
  }

  /** An accepted receipt is signed over exactly its contents by the trusted key; neither can be changed. */
  lemma ReceiptIsPinned(r: Receipt, key: string, contents: Contents, signature: ReceiptSignature)
    requires VerifiedReceipt(r, key)
    ensures r.signature.ReceiptSignatureOver? && r.signature.key == key && r.signature.contents == r.contents
    ensures contents != r.contents ==> !VerifiedReceipt(r.(contents := contents), key)
    ensures signature != r.signature ==> !VerifiedReceipt(r.(signature := signature), key)
  {
  }

  /**
   What the phases certify about the members: with all of them up every one of them holds an anchor of
   this very database; the degraded phase has exactly a majority up and the rest down; in the minority
   phase at most half of the members are up and at least half are down.
   */
  lemma PhaseCertifiesMembers(c: Contents)
    requires ValidContents(c)
    ensures c.phase in ["healthy", "recovered", "rollback-rejected"] ==>
              forall i | 0 <= i < |c.members| ::
                  c.members[i].state == Available && c.members[i].anchor.databaseIDHex == c.database.databaseIDHex
    ensures c.phase == "degraded" ==>
              forall i | 0 <= i < |c.members| :: c.members[i].state == Available || c.members[i].state == Unavailable
    ensures c.phase == "minority" ==> 2 * c.availableMembers <= c.replicas <= 2 * c.unavailableMembers
  {
    var n := |c.members|;
    var up, down := InState(c.members, n, Available), InState(c.members, n, Unavailable);
    assert up <= Below(n) && up + down <= Below(n) && up * down == {};
    SubsetSize(up, Below(n));
    SubsetSize(up + down, Below(n));
    assert |up + down| == |up| + |down|;
    forall i | 0 <= i < n
      ensures up == Below(n) ==> c.members[i].state == Available
      ensures up + down == Below(n) ==> c.members[i].state == Available || c.members[i].state == Unavailable
    {
      assert i in Below(n);
    }
  }
}
