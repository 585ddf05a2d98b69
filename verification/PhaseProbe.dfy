/**
 The probe that makes a phase receipt: in which situation it publishes one, that it states its relation
 truly, and when the receipts of successive probes form an accepted chain.
 */
module PhaseProbe {

  import opened HistoryWire
  import opened Options
  import opened Permutations
  import opened PhaseReceipt
  import opened PhaseRelation
  import opened QuorumEvidence
  import opened ReceiptChain

  /** How the quorum load ended: with a value, which may be absent, without a quorum, or with another error. */
  datatype LoadOutcome = LoadedValue(anchor: WireValue) | QuorumLost | LoadFailed

  datatype Opening = Opened | RollbackDetected | OpenFailed

  /** What one probe is asked for and what it meets. `reopened` is the report after a successful opening. */
  datatype Probe = Probe(
    phase: string, newRunID: string, build: Build, startedAt: int, finishedAt: int, configurationID: string,
    externalEvidenceSHA256: string, report: Option<Database>, indexesVerified: bool, members: seq<Member>,
    load: LoadOutcome, opening: Opening, reopened: Option<Database>, publicKey: string)

  // ---------------------------------------------------------------------------------------
  // The situations of the five phases.
  // ---------------------------------------------------------------------------------------

  ghost function Up(p: Probe): set<nat> { InState(p.members, |p.members|, Available) }

  ghost function Down(p: Probe): set<nat> { InState(p.members, |p.members|, Unavailable) }

  predicate AllUp(p: Probe) { forall i | 0 <= i < |p.members| :: p.members[i].state == Available }

  /** The quorum has an anchor of this database. */
  predicate Anchored(p: Probe, database: Database) {
    p.load.LoadedValue? && p.load.anchor.present && p.load.anchor.databaseIDHex == database.databaseIDHex
  }

  ghost predicate Situation(p: Probe, database: Database) {
    if p.phase == "healthy" then AllUp(p) && p.load == LoadedValue(Coordinates(database))
    else if p.phase == "degraded" then
      && |Up(p)| == |p.members| / 2 + 1 && p.load == LoadedValue(Coordinates(database))
      && forall i | 0 <= i < |p.members| :: p.members[i].state == Available || p.members[i].state == Unavailable
    else if p.phase == "minority" then 2 * |Up(p)| <= |p.members| <= 2 * |Down(p)| && p.load == QuorumLost
    else if p.phase == "recovered" then
      && AllUp(p) && Anchored(p, database) && AtMost(p.load.anchor, Coordinates(database))
      && p.opening == Opened && p.reopened.Some?
    else if p.phase == "rollback-rejected" then
      && AllUp(p) && Anchored(p, database) && !AtMost(p.load.anchor, Coordinates(database))
      && p.opening == RollbackDetected
    else false
  }

  // ---------------------------------------------------------------------------------------
  // What is recorded.
  // ---------------------------------------------------------------------------------------

  function AnchorOf(p: Probe): WireValue { if p.load.LoadedValue? then p.load.anchor else NO_VALUE }

  function RelationIn(p: Probe, database: Database): (Relation, bool) {
    RelationOf(database, AnchorOf(p), p.load.LoadedValue?)
  }

  function LoadName(p: Probe): string { if p.load.LoadedValue? then "succeeded" else "unavailable" }

  function OpeningName(phase: string): string {
    if phase == "recovered" then "succeeded" else if phase == "rollback-rejected" then phase else "not-attempted"
  }

  /** The report that is recorded: the one after the opening, in the recovered phase. */
  function RecordedDatabase(p: Probe): (database: Option<Database>)
    requires p.report.Some?
  {
    if p.phase == "recovered" then p.reopened else p.report
  }

  function DigestOfPrevious(previous: Option<Raw>): FileDigest {
    if previous.None? then NoDigest else DigestOf(previous.value)
  }

  ghost function RecordOf(previous: Option<Raw>, runID: string, p: Probe): Contents
    requires p.report.Some? && RecordedDatabase(p).Some?
  {
    Contents(
      RECEIPT_SCHEMA, ANCHOR_PROTOCOL, p.phase, runID, DigestOfPrevious(previous), p.build, p.startedAt, p.finishedAt,
      p.configurationID, p.externalEvidenceSHA256, |p.members|, |p.members| / 2 + 1, p.members, |Up(p)|, |Down(p)|,
      LoadName(p), AnchorOf(p).present, AnchorOf(p).minimumCommitSequence, AnchorOf(p).minimumGeneration,
      RecordedDatabase(p).value, RelationName(RelationIn(p, p.report.value).0), OpeningName(p.phase), true, p.publicKey)
  }

  // ---------------------------------------------------------------------------------------
  // When a receipt is published.
  // ---------------------------------------------------------------------------------------

  predicate Succeeds(before: string, phase: string) {
    exists i :: 0 < i < |PHASES| && PHASES[i - 1] == before && PHASES[i] == phase
  }

  /** An accepted receipt of the phase before. */
  ghost predicate Precedes(previous: Raw, p: Probe) {
    && previous.receipt.Some? && VerifiedReceipt(previous.receipt.value, p.publicKey)
    && Succeeds(previous.receipt.value.contents.phase, p.phase)
  }

  /** The receipt before this one is accepted, of the phase before, and of the same run in every respect. */
  ghost predicate Continuing(previous: Raw, p: Probe, database: Database) {
    && Precedes(previous, p)
    && var before := previous.receipt.value.contents;
    && SameMembers(before.members, p.members)
    && before.configurationID == p.configurationID && before.database.databaseIDHex == database.databaseIDHex
    && before.build == p.build
  }

  function RunIDOf(previous: Option<Raw>, p: Probe): string {
    if previous.Some? && previous.value.receipt.Some? then previous.value.receipt.value.contents.runID else p.newRunID
  }

  /** Every member's evidence fits the recorded database, and every field has its format. */
  ghost predicate WellFormed(p: Probe, c: Contents) {
    var holds :=
      && IsLowerHex(c.runID, 16) && IsHexDigest(p.configurationID) && IsHexDigest(p.externalEvidenceSHA256)
      && p.members != [] && p.startedAt != 0 && p.startedAt < p.finishedAt && p.publicKey != ""
      && c.database.verified && IsLowerHex(c.database.databaseIDHex, 16) && IsHexDigest(c.database.sha256)
      && ValidEvidence(c, p.members)
      && (p.load.LoadedValue? && p.load.anchor.present ==>
            p.load.anchor.minimumGeneration > p.load.anchor.minimumCommitSequence);
    holds
  }

  /** The probe meets the situation of its phase, right after the receipt before it, with well-formed evidence. */
  ghost predicate CanPublish(previous: Option<Raw>, p: Probe) {
    && (previous.None? <==> p.phase == "healthy")
    && p.report.Some? && p.report.value.verified && p.indexesVerified && Situation(p, p.report.value)
    && var database := RecordedDatabase(p);
    && database.Some? && (previous.Some? ==> Continuing(previous.value, p, database.value))
    && WellFormed(p, RecordOf(previous, RunIDOf(previous, p), p))
  }

  // ---------------------------------------------------------------------------------------
  // The situation and the phase check.
  // ---------------------------------------------------------------------------------------

  lemma CountsMeanStates(p: Probe)
    ensures |Up(p)| + |Down(p)| <= |p.members|
    ensures |Up(p)| == |p.members| <==> AllUp(p)
    ensures |Up(p)| + |Down(p)| == |p.members| <==>
              forall i | 0 <= i < |p.members| :: p.members[i].state == Available || p.members[i].state == Unavailable
  {
    var n := |p.members|;
    assert Up(p) <= Below(n) && Up(p) + Down(p) <= Below(n) && Up(p) * Down(p) == {};
    SubsetSize(Up(p), Below(n));
    SubsetSize(Up(p) + Down(p), Below(n));
    assert |Up(p) + Down(p)| == |Up(p)| + |Down(p)|;
    forall i | 0 <= i < n
      ensures Up(p) == Below(n) ==> p.members[i].state == Available
      ensures Up(p) + Down(p) == Below(n) ==> p.members[i].state == Available || p.members[i].state == Unavailable
    {
      assert i in Below(n);
    }
    if AllUp(p) {
      assert Up(p) == Below(n);
    }
    if forall i | 0 <= i < n :: p.members[i].state == Available || p.members[i].state == Unavailable {
      assert Up(p) + Down(p) == Below(n);
    }
  }

  /** The opening that the phase asks for took place. */
  predicate OpensAsAsked(p: Probe) {
    && (p.phase == "recovered" ==> p.opening == Opened && p.reopened.Some?)
    && (p.phase == "rollback-rejected" ==> p.opening == RollbackDetected)
  }

  ghost predicate PassesPhase(p: Probe, database: Database) {
    ValidPhase(p.phase, |p.members|, |p.members| / 2 + 1, |Up(p)|, |Down(p)|, LoadName(p),
               RelationName(RelationIn(p, database).0), OpeningName(p.phase), AnchorOf(p).present)
  }

  lemma LoadNames(p: Probe)
    ensures LoadName(p) == "succeeded" <==> p.load.LoadedValue?
    ensures LoadName(p) == "unavailable" <==> !p.load.LoadedValue?
  {
    assert "succeeded"[0] == 's' && "unavailable"[0] == 'u';
  }

  lemma RelationNames(r: Relation)
    ensures RelationName(r) == "unavailable" <==> r == Unreadable
    ensures RelationName(r) == "equal" <==> r == Equal
    ensures RelationName(r) == "database-ahead" <==> r == DatabaseAhead
    ensures RelationName(r) == "anchor-ahead" <==> r == AnchorAhead
  {
    assert "unavailable"[0] == 'u' && "missing"[0] == 'm' && "identity-conflict"[0] == 'i' && "anchor-ahead"[0] == 'a'
           && "equal"[0] == 'e' && "database-ahead"[0] == 'd';
  }

  /** The phase check, together with what comes before it, decides exactly whether the situation is the phase's. */
  lemma SituationIffPhase(p: Probe, database: Database)
    ensures Situation(p, database) <==>
            !p.load.LoadFailed? && RelationIn(p, database).1 && OpensAsAsked(p) && PassesPhase(p, database)
  {
    CountsMeanStates(p);
    LoadNames(p);
    RelationNames(RelationIn(p, database).0);
    if p.load.LoadedValue? && p.load.anchor.present {
      RelationMeans(database, p.load.anchor);
    }
  }

  // ---------------------------------------------------------------------------------------
  // The probe.
  // ---------------------------------------------------------------------------------------

  method CountStates(members: seq<Member>) returns (available: nat, unavailable: nat)
    ensures available == |InState(members, |members|, Available)|
    ensures unavailable == |InState(members, |members|, Unavailable)|
  {
    available, unavailable := 0, 0;
    for k := 0 to |members|
      invariant available == |InState(members, k, Available)| && unavailable == |InState(members, k, Unavailable)|
    {
      StateStep(members, k, Available);
      StateStep(members, k, Unavailable);
      if members[k].state == Available {
        available := available + 1;
      } else if members[k].state == Unavailable {
        unavailable := unavailable + 1;
      }
    }
  }

  /** A record of the phase's situation is valid exactly if it is well formed. */
  lemma RecordIsValidIff(previous: Option<Raw>, runID: string, p: Probe)
    requires p.report.Some? && RecordedDatabase(p).Some? && Situation(p, p.report.value)
    ensures ValidContents(RecordOf(previous, runID, p)) <==> WellFormed(p, RecordOf(previous, runID, p))
  {
    var c := RecordOf(previous, runID, p);
    SituationIffPhase(p, p.report.value);
    assert c.phase == PHASES[0] || c.phase == PHASES[1] || c.phase == PHASES[2] || c.phase == PHASES[3]
           || c.phase == PHASES[4];
  }

  /** The receipt given as the previous one, before anything is observed. */
  method CheckPrevious(previous: Option<Raw>, p: Probe) returns (ok: bool)
    ensures ok <==> (previous.None? <==> p.phase == "healthy") && (previous.Some? ==> Precedes(previous.value, p))
  {
    if previous.None? != (p.phase == "healthy") {
      return false;
    }
    if previous.None? {
      return true;
    }
    if previous.value.receipt.None? {
      return false;
    }
    ok := VerifyReceipt(previous.value.receipt.value, p.publicKey);
    ok := ok && Succeeds(previous.value.receipt.value.contents.phase, p.phase);
  }

  /** What is observed: the report, the members, the load and the opening. */
  method Observe(p: Probe) returns (ok: bool, available: nat, unavailable: nat)
    ensures ok <==> p.report.Some? && p.report.value.verified && p.indexesVerified && Situation(p, p.report.value)
    ensures available == |Up(p)| && unavailable == |Down(p)|
  {
    available, unavailable := CountStates(p.members);
    if p.report.None? || !p.report.value.verified || !p.indexesVerified {
      return false, available, unavailable;
    }
    SituationIffPhase(p, p.report.value);
    var (relation, proceeds) := RelationIn(p, p.report.value);
    if p.load.LoadFailed? || !proceeds || !OpensAsAsked(p) {
      return false, available, unavailable;
    }
    ok := ValidPhase(p.phase, |p.members|, |p.members| / 2 + 1, available, unavailable, LoadName(p),
                     RelationName(relation), OpeningName(p.phase), AnchorOf(p).present);
  }

  /** Records what was observed, signs the record and validates it. */
  method Sign(previous: Option<Raw>, runID: string, p: Probe, available: nat, unavailable: nat, database: Database)
    returns (r: Option<Receipt>)
    requires p.report.Some? && Situation(p, p.report.value) && RecordedDatabase(p) == Some(database)
    requires available == |Up(p)| && unavailable == |Down(p)|
    ensures r.Some? <==> WellFormed(p, RecordOf(previous, runID, p))
    ensures r.Some? ==> VerifiedReceipt(r.value, p.publicKey) && r.value.contents == RecordOf(previous, runID, p)
  {
    var contents := Contents(
      RECEIPT_SCHEMA, ANCHOR_PROTOCOL, p.phase, runID, DigestOfPrevious(previous), p.build, p.startedAt, p.finishedAt,
      p.configurationID, p.externalEvidenceSHA256, |p.members|, |p.members| / 2 + 1, p.members, available, unavailable,
      LoadName(p), AnchorOf(p).present, AnchorOf(p).minimumCommitSequence, AnchorOf(p).minimumGeneration,
      database, RelationName(RelationIn(p, p.report.value).0), OpeningName(p.phase), true, p.publicKey);
    RecordIsValidIff(previous, runID, p);
    var ok := ValidateContents(contents);
    r := if ok then Some(Receipt(contents, ReceiptSignatureOver(p.publicKey, contents))) else None;
  }

  /** One probe: it publishes a receipt exactly in the situation of its phase, and that receipt is accepted. */
  method RunProbe(previous: Option<Raw>, p: Probe) returns (r: Option<Receipt>)
    ensures r.Some? <==> CanPublish(previous, p)
    ensures r.Some? ==>
              && VerifiedReceipt(r.value, p.publicKey)
              && r.value.contents == RecordOf(previous, RunIDOf(previous, p), p)
  {
    var ok := CheckPrevious(previous, p);
    if !ok {
      return None;
    }
    var available, unavailable;
    ok, available, unavailable := Observe(p);
    if !ok {
      return None;
    }
    var database := RecordedDatabase(p).value;
    if previous.Some? {
      var before := previous.value.receipt.value.contents;
      if !SameMembers(before.members, p.members) || before.configurationID != p.configurationID
         || before.database.databaseIDHex != database.databaseIDHex || before.build != p.build {
        return None;
      }
    }
    r := Sign(previous, RunIDOf(previous, p), p, available, unavailable, database);
  }

  // ---------------------------------------------------------------------------------------
  // What published receipts say.
  // ---------------------------------------------------------------------------------------

  ghost function PublishedBy(previous: Option<Raw>, p: Probe): Contents
    requires CanPublish(previous, p)
  {
    RecordOf(previous, RunIDOf(previous, p), p)
  }

  lemma SituationHasRelation(p: Probe, database: Database)
    requires Situation(p, database)
    ensures if p.phase == "minority" then p.load == QuorumLost else Anchored(p, database)
  {
  }

  lemma RecordStatesIff(previous: Option<Raw>, runID: string, p: Probe)
    requires p.report.Some? && RecordedDatabase(p).Some? && Situation(p, p.report.value)
    requires RecordedDatabase(p).value.databaseIDHex == p.report.value.databaseIDHex
    ensures StatesItsRelation(RecordOf(previous, runID, p)) <==>
            RelationIn(p, RecordedDatabase(p).value).0 == RelationIn(p, p.report.value).0
  {
    var c := RecordOf(previous, runID, p);
    SituationHasRelation(p, p.report.value);
    LoadNames(p);
    RelationNames(RelationIn(p, p.report.value).0);
    RelationNames(RelationIn(p, RecordedDatabase(p).value).0);
    if p.load.LoadedValue? {
      assert RecordedAnchor(c) == AnchorOf(p);
    }
  }

  /**
   A published receipt states the true relation of the database it was computed for. In the recovered
   phase the recorded database is that after the opening, and the statement is true of it exactly if
   the opening left the relation as it was.
   */
  lemma PublishedStatesItsRelation(previous: Option<Raw>, p: Probe)
    requires CanPublish(previous, p) && RecordedDatabase(p).value.databaseIDHex == p.report.value.databaseIDHex
    ensures StatesItsRelation(PublishedBy(previous, p)) <==>
            RelationIn(p, RecordedDatabase(p).value).0 == RelationIn(p, p.report.value).0
    ensures p.phase != "recovered" ==> StatesItsRelation(PublishedBy(previous, p))
  {
    RecordStatesIff(previous, RunIDOf(previous, p), p);
  }

  // ---------------------------------------------------------------------------------------
  // Accepted receipts are records of probes, but for the relation they state.
  // ---------------------------------------------------------------------------------------

  /** The contents are what a probe would record in the situation of its phase. */
  ghost predicate IsRecord(previous: Option<Raw>, p: Probe, c: Contents) {
    && p.report.Some? && p.report.value.verified && p.indexesVerified && Situation(p, p.report.value)
    && RecordedDatabase(p).Some? && RecordedDatabase(p).value.databaseIDHex == p.report.value.databaseIDHex
    && RecordOf(previous, c.runID, p) == c
  }

  /** A report that is in the stated relation to the recorded anchor. */
  function ReportFor(c: Contents): Database {
    if c.phase == "recovered" then
      c.database.(commitSequence := c.anchorSequence + if c.databaseRelation == "equal" then 0 else 1,
                  metaGeneration := c.anchorGeneration)
    else c.database
  }

  function ProbeFor(c: Contents): Probe {
    Probe(c.phase, c.runID, c.build, c.startedAt, c.finishedAt, c.configurationID, c.externalEvidenceSHA256,
          Some(ReportFor(c)), true, c.members, if c.anchorExists then LoadedValue(RecordedAnchor(c)) else QuorumLost,
          if c.phase == "recovered" then Opened else RollbackDetected, Some(c.database), c.signingPublicKey)
  }

  lemma RecordStates(previous: Option<Raw>, p: Probe, c: Contents)
    requires IsRecord(previous, p, c) && c.phase != "recovered"
    ensures StatesItsRelation(c)
  {
    RecordStatesIff(previous, c.runID, p);
  }

  lemma ProbeForRelation(c: Contents)
    requires ValidContents(c) && (c.phase == "recovered" || StatesItsRelation(c))
    ensures c.databaseRelation == RelationName(RelationIn(ProbeFor(c), ReportFor(c)).0)
    ensures LoadName(ProbeFor(c)) == c.quorumLoad && RelationIn(ProbeFor(c), ReportFor(c)).1
    ensures AnchorOf(ProbeFor(c)) == RecordedAnchor(c)
  {
    LoadNames(ProbeFor(c));
    RelationNames(RelationIn(ProbeFor(c), ReportFor(c)).0);
  }

  lemma ProbeForRecords(previous: Option<Raw>, c: Contents)
    requires ValidContents(c) && c.previousSHA256 == DigestOfPrevious(previous)
    requires c.phase == "recovered" || StatesItsRelation(c)
    ensures IsRecord(previous, ProbeFor(c), c)
  {
    var p := ProbeFor(c);
    ProbeForRelation(c);
    assert PassesPhase(p, ReportFor(c));
    SituationIffPhase(p, ReportFor(c));
  }

  /**
   The checks on a receipt accept only what some probe would record, except that outside the recovered
   phase the receipt may misstate its relation.
   */
  lemma AcceptedIsRecordIff(previous: Option<Raw>, c: Contents)
    requires ValidContents(c) && c.previousSHA256 == DigestOfPrevious(previous)
    ensures (exists p :: IsRecord(previous, p, c)) <==> c.phase == "recovered" || StatesItsRelation(c)
  {
    if c.phase == "recovered" || StatesItsRelation(c) {
      ProbeForRecords(previous, c);
    }
    forall p | IsRecord(previous, p, c) ensures c.phase == "recovered" || StatesItsRelation(c) {
      if c.phase != "recovered" {
        RecordStates(previous, p, c);
      }
    }
  }

  // ---------------------------------------------------------------------------------------
  // Chains of probes.
  // ---------------------------------------------------------------------------------------

  function Before(raws: seq<Raw>, i: nat): Option<Raw>
    requires i <= |raws|
  {
    if i == 0 then None else Some(raws[i - 1])
  }

  /** The file holds what this probe published after the file before it. */
  ghost predicate ProbedAt(raws: seq<Raw>, probes: seq<Probe>, key: string, i: nat)
    requires i < |raws| == |probes|
  {
    && probes[i].publicKey == key && CanPublish(Before(raws, i), probes[i])
    && var c := PublishedBy(Before(raws, i), probes[i]);
    raws[i].receipt == Some(Receipt(c, ReceiptSignatureOver(key, c)))
  }

  ghost predicate Probed(raws: seq<Raw>, probes: seq<Probe>, key: string) {
    |raws| == |probes| && forall i {:trigger ProbedAt(raws, probes, key, i)} | 0 <= i < |raws| ::
      ProbedAt(raws, probes, key, i)
  }

  ghost function ContentsIn(raws: seq<Raw>): (cs: seq<Contents>)
    requires forall i | 0 <= i < |raws| :: raws[i].receipt.Some?
    ensures |cs| == |raws| && forall i | 0 <= i < |raws| :: cs[i] == raws[i].receipt.value.contents
  {
    seq(|raws|, i requires 0 <= i < |raws| => raws[i].receipt.value.contents)
  }

  lemma PhaseAfter(before: string, phase: string, i: nat)
    requires i < |PHASES| && before == PHASES[i] && Succeeds(before, phase)
    ensures i + 1 < |PHASES| && phase == PHASES[i + 1]
  {
    var k :| 0 < k < |PHASES| && PHASES[k - 1] == before && PHASES[k] == phase;
    if k - 1 < i {
      PhasesDiffer(k - 1, i);
    } else if i < k - 1 {
      PhasesDiffer(i, k - 1);
    }
  }

  lemma ProbedPhase(raws: seq<Raw>, probes: seq<Probe>, key: string, i: nat)
    requires Probed(raws, probes, key) && i < |raws|
    ensures raws[i].receipt.Some? && raws[i].receipt.value.contents.phase == probes[i].phase
    ensures i == 0 ==> probes[i].phase == PHASES[0]
    ensures i > 0 ==>
              raws[i - 1].receipt.Some? && Succeeds(raws[i - 1].receipt.value.contents.phase, probes[i].phase)
  {
    assert ProbedAt(raws, probes, key, i);
  }

  lemma {:induction false} ProbedPhases(raws: seq<Raw>, probes: seq<Probe>, key: string, i: nat)
    requires Probed(raws, probes, key) && i < |raws|
    ensures i < |PHASES| && probes[i].phase == PHASES[i] && raws[i].receipt.Some?
    ensures raws[i].receipt.value.contents.phase == PHASES[i]
  {
    ProbedPhase(raws, probes, key, i);
    if i == 0 {
    } else {
      ProbedPhases(raws, probes, key, i - 1);
      PhaseAfter(probes[i - 1].phase, probes[i].phase, i - 1);
    }
  }

  /** What the probe leaves to its caller: clocks, evidence and images in order. */
  predicate InOrder(probes: seq<Probe>, cs: seq<Contents>)
    requires |probes| == |cs|
  {
    && (forall i | 0 < i < |cs| :: cs[i - 1].finishedAt <= cs[i].startedAt && ValidSequence(cs[i - 1], cs[i]))
    && (forall i, j | 0 <= i < j < |cs| :: probes[i].externalEvidenceSHA256 != probes[j].externalEvidenceSHA256)
  }

  lemma ProbedHolds(raws: seq<Raw>, probes: seq<Probe>, key: string, i: nat)
    requires Probed(raws, probes, key) && i < |raws|
    ensures raws[i].receipt.Some? && VerifiedReceipt(raws[i].receipt.value, key)
    ensures Holds(raws[i], key, raws[i].receipt.value.contents)
    ensures CanPublish(Before(raws, i), probes[i])
    ensures raws[i].receipt.value.contents == PublishedBy(Before(raws, i), probes[i])
  {
    assert ProbedAt(raws, probes, key, i);
    RecordIsValidIff(Before(raws, i), RunIDOf(Before(raws, i), probes[i]), probes[i]);
  }

  /** A published receipt continues the one before it exactly if clocks and images do. */
  lemma ProbedContinues(raws: seq<Raw>, probes: seq<Probe>, key: string, i: nat)
    requires Probed(raws, probes, key) && 0 < i < |raws|
    ensures raws[i - 1].receipt.Some? && raws[i].receipt.Some?
    ensures var before, next := raws[i - 1].receipt.value.contents, raws[i].receipt.value.contents;
            Continues(raws[i - 1], before, next) <==>
            before.finishedAt <= next.startedAt && ValidSequence(before, next)
  {
    ProbedHolds(raws, probes, key, i - 1);
    ProbedHolds(raws, probes, key, i);
    assert ProbedAt(raws, probes, key, i);
  }

  /**
   The files of successive probes form an accepted chain exactly if no probe began before the one before
   it ended, none reused external evidence, and the images went back at the rollback and only there.
   */
  lemma ProbedChainIsAcceptedIff(raws: seq<Raw>, probes: seq<Probe>, key: string)
    requires Probed(raws, probes, key) && raws != [] && IsPublicKey(key)
    ensures forall i | 0 <= i < |raws| :: raws[i].receipt.Some?
    ensures AcceptedChain(raws, key, ContentsIn(raws)) <==> InOrder(probes, ContentsIn(raws))
  {
    forall i | 0 <= i < |raws| ensures raws[i].receipt.Some? {
      ProbedHolds(raws, probes, key, i);
    }
    var cs := ContentsIn(raws);
    forall i | 0 <= i < |raws| ensures Holds(raws[i], key, cs[i]) {
      ProbedHolds(raws, probes, key, i);
    }
    ProbedLinksIff(raws, probes, key, cs);
  }

  lemma ProbedLinkIff(raws: seq<Raw>, probes: seq<Probe>, key: string, cs: seq<Contents>, i: nat)
    requires Probed(raws, probes, key) && |cs| == |raws| && i < |raws|
    requires forall i | 0 <= i < |raws| :: raws[i].receipt.Some? && raws[i].receipt.value.contents == cs[i]
    ensures cs[i].externalEvidenceSHA256 == probes[i].externalEvidenceSHA256
    ensures Link(raws, cs, i) <==>
            && Fresh(cs, i)
            && (i > 0 ==> cs[i - 1].finishedAt <= cs[i].startedAt && ValidSequence(cs[i - 1], cs[i]))
  {
    ProbedHolds(raws, probes, key, i);
    ProbedPhases(raws, probes, key, i);
    if i > 0 {
      ProbedContinues(raws, probes, key, i);
    }
  }

  lemma ProbedLinksIff(raws: seq<Raw>, probes: seq<Probe>, key: string, cs: seq<Contents>)
    requires Probed(raws, probes, key) && |cs| == |raws|
    requires forall i | 0 <= i < |raws| :: raws[i].receipt.Some? && raws[i].receipt.value.contents == cs[i]
    ensures Linked(raws, cs) <==> InOrder(probes, cs)
  {
    forall i | 0 <= i < |cs| ensures cs[i].externalEvidenceSHA256 == probes[i].externalEvidenceSHA256 {
      ProbedLinkIff(raws, probes, key, cs, i);
    }
    if Linked(raws, cs) {
      forall i | 0 < i < |cs|
        ensures cs[i - 1].finishedAt <= cs[i].startedAt && ValidSequence(cs[i - 1], cs[i])
      {
        assert Link(raws, cs, i);
        ProbedLinkIff(raws, probes, key, cs, i);
      }
      forall i, j | 0 <= i < j < |cs| ensures probes[i].externalEvidenceSHA256 != probes[j].externalEvidenceSHA256 {
        assert Link(raws, cs, j);
      }
    }
    if InOrder(probes, cs) {
      forall i | 0 <= i < |cs| ensures Link(raws, cs, i) {
        ProbedLinkIff(raws, probes, key, cs, i);
      }
    }
  }
}
