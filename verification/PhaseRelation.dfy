/**
 The relation that a phase receipt states between its database and the quorum anchor: the checks do
 not compare it with the recorded coordinates, and what the member evidence certifies instead.
 */
module PhaseRelation {

  import opened HistoryWire
  import opened PhaseReceipt
  import opened QuorumEvidence

  function RelationName(r: Relation): string {
    match r
    case Unreadable => "unavailable"
    case NoAnchor => "missing"
    case IdentityConflict => "identity-conflict"
    case AnchorAhead => "anchor-ahead"
    case Equal => "equal"
    case DatabaseAhead => "database-ahead"
  }

  /** The anchor that the receipt records, which is one of its own database. */
  function RecordedAnchor(c: Contents): WireValue {
    if c.anchorExists
    then WireValue(true, c.database.databaseIDHex, c.anchorSequence, c.anchorGeneration)
    else NO_VALUE
  }

  /** The stated relation is the one between the recorded database and the recorded anchor. */
  predicate StatesItsRelation(c: Contents) {
    c.databaseRelation == RelationName(RelationOf(c.database, RecordedAnchor(c), c.quorumLoad == "succeeded").0)
  }

  function WithAnchor(c: Contents, sequence: nat, generation: nat): Contents {
    c.(anchorSequence := sequence, anchorGeneration := generation)
  }

  /** Any coordinates with a generation above the sequence are accepted in place of the recorded ones. */
  lemma AnchorIsUnchecked(c: Contents, sequence: nat, generation: nat)
    requires ValidContents(c) && c.anchorExists && generation > sequence
    ensures ValidContents(WithAnchor(c, sequence, generation))
  {
    var c' := WithAnchor(c, sequence, generation);
    forall i | 0 <= i < |c.members| ensures ValidEvidenceOf(c', c'.members[i]) {
      assert ValidEvidenceOf(c, c.members[i]);
    }
  }

  /** In the phases in which the database is not behind, some available member shows its generation to be positive. */
  lemma GenerationIsPositive(c: Contents)
    requires ValidContents(c) && c.anchorExists && c.phase != "rollback-rejected"
    ensures c.database.metaGeneration > 0
  {
    assert c.availableMembers > 0;
    var i :| i in InState(c.members, |c.members|, Available);
    assert ValidEvidenceOf(c, c.members[i]);
  }

  lemma NamesDiffer(c: Contents)
    requires ValidContents(c) && c.anchorExists
    ensures c.quorumLoad == "succeeded"
    ensures c.phase == "rollback-rejected" <==> c.databaseRelation == RelationName(AnchorAhead)
    ensures c.databaseRelation == RelationName(DatabaseAhead) ==> c.phase == "recovered"
  {
    assert RelationName(AnchorAhead)[0] == 'a' && RelationName(Equal)[0] == 'e'
           && RelationName(DatabaseAhead)[0] == 'd';
  }

  /**
   Every accepted receipt with an anchor has an accepted variant, different only in the recorded anchor,
   that misstates its relation; the one exception is a rejected database of generation zero, which no
   valid anchor equals or stays below.
   */
  lemma MayMisstateIff(c: Contents)
    requires ValidContents(c) && c.anchorExists
    ensures (exists sequence, generation :: generation > sequence && ValidContents(WithAnchor(c, sequence, generation))
                                         && !StatesItsRelation(WithAnchor(c, sequence, generation)))
       <==> !(c.phase == "rollback-rejected" && c.database.metaGeneration == 0)
  {
    NamesDiffer(c);
    if c.phase != "rollback-rejected" {
      GenerationIsPositive(c);
      var s := c.database.commitSequence + 1;
      AnchorIsUnchecked(c, s, s + 1);
      assert RelationOf(c.database, RecordedAnchor(WithAnchor(c, s, s + 1)), true).0 == AnchorAhead;
      assert !StatesItsRelation(WithAnchor(c, s, s + 1));
    } else if c.database.metaGeneration > 0 {
      AnchorIsUnchecked(c, 0, 1);
      assert RelationOf(c.database, RecordedAnchor(WithAnchor(c, 0, 1)), true).0 != AnchorAhead;
      assert !StatesItsRelation(WithAnchor(c, 0, 1));
    }
  }

  function Digits(n: nat): string { seq(n, _ => '0') }

  /** A receipt of the healthy phase with one member, whose recorded anchor is ahead of its database. */
  function Misstated(key: string): Contents {
    var id := Digits(32);
    Contents(RECEIPT_SCHEMA, ANCHOR_PROTOCOL, "healthy", id, NoDigest, Build("", "", false, "", "", ""), 1, 2,
             Digits(64), Digits(64), 1, 1, [Member("a", Digits(64), Available, WireValue(true, id, 0, 1))], 1, 0,
             "succeeded", true, 1, 2, Database(true, id, Digits(64), 0, 1), "equal", "not-attempted", true, key)
  }

  lemma MisstatedIsAccepted(key: string)
    requires key != ""
    ensures VerifiedReceipt(Receipt(Misstated(key), ReceiptSignatureOver(key, Misstated(key))), key)
    ensures !StatesItsRelation(Misstated(key))
  {
    var c := Misstated(key);
    assert InState(c.members, 1, Available) == {0} && InState(c.members, 1, Unavailable) == {};
    assert RelationName(AnchorAhead)[0] == 'a' && "equal"[0] == 'e';
    assert c.phase == PHASES[0];
  }

  // ---------------------------------------------------------------------------------------
  // What the members certify.
  // ---------------------------------------------------------------------------------------

  /** The database is level with this anchor or ahead of it. */
  predicate NotBehind(database: Database, anchor: WireValue) {
    RelationOf(database, anchor, true).0 == Equal || RelationOf(database, anchor, true).0 == DatabaseAhead
  }

  /**
   In the healthy, the degraded and the recovered phase at least a quorum of members is available, and
   the database is not behind any of them, whatever relation the receipt states.
   */
  lemma MembersCertifyNotBehind(c: Contents)
    requires ValidContents(c) && c.phase in ["healthy", "degraded", "recovered"]
    ensures |InState(c.members, |c.members|, Available)| >= c.quorum
    ensures forall i | 0 <= i < |c.members| && c.members[i].state == Available ::
              NotBehind(c.database, c.members[i].anchor)
  {
    forall i | 0 <= i < |c.members| && c.members[i].state == Available
      ensures NotBehind(c.database, c.members[i].anchor)
    {
      assert ValidEvidenceOf(c, c.members[i]);
      RelationMeans(c.database, c.members[i].anchor);
    }
  }

  function Lowered(m: Member): Member { m.(anchor := m.anchor.(minimumCommitSequence := 0, minimumGeneration := 1)) }

  ghost function WithLowMembers(c: Contents): Contents {
    c.(members := seq(|c.members|, i requires 0 <= i < |c.members| => Lowered(c.members[i])))
  }

  lemma LoweredIsValid(c: Contents, i: nat)
    requires ValidContents(c) && c.phase == "rollback-rejected" && i < |c.members|
    ensures ValidEvidenceOf(WithLowMembers(c), Lowered(c.members[i]))
    ensures c.database.metaGeneration > 0 ==> NotBehind(c.database, Lowered(c.members[i]).anchor)
  {
    PhaseCertifiesMembers(c);
    assert ValidEvidenceOf(c, c.members[i]);
  }

  /**
   In the rollback phase the members certify no order: the same receipt with every member far behind
   the database is accepted as well.
   */
  lemma MembersDoNotCertifyRollback(c: Contents)
    requires ValidContents(c) && c.phase == "rollback-rejected" && c.database.metaGeneration > 0
    ensures ValidContents(WithLowMembers(c))
    ensures forall i | 0 <= i < |c.members| :: NotBehind(c.database, WithLowMembers(c).members[i].anchor)
  {
    var c', n := WithLowMembers(c), |c.members|;
    forall i | 0 <= i < n ensures ValidEvidenceOf(c', c'.members[i]) && NotBehind(c.database, c'.members[i].anchor) {
      LoweredIsValid(c, i);
    }
    assert InState(c'.members, n, Available) == InState(c.members, n, Available);
    assert InState(c'.members, n, Unavailable) == InState(c.members, n, Unavailable);
  }
}
