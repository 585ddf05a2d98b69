/**
 The corruption campaign: one bit of a copy is flipped at every sampled place, the copy is verified
 and restored, and the outcomes are counted.
 */
module Corruption {

  import opened HistoryWire
  import opened Options
  import opened PageSamples
  import opened Permutations
  import PhaseReceipt

  const PAGE_SIZE: nat := 4096
  const MAX_PAGE_SAMPLES: nat := 128
  const OFFSETS: seq<nat> := [0, 7, 8, 31, 63, 127, 223, 224, 255, 511, 1023, 2047, 3071, 4095]

  type Image = seq<bv8>

  datatype Report = Report(
    verified: bool, indexContentsVerified: bool, indexBuildContentsVerified: bool, databaseID: string, sha256: string,
    commitSequence: nat, validMetaSlots: nat, trailingBytes: nat, physicalPages: nat)

  predicate Complete(r: Report) { r.verified && r.indexContentsVerified && r.indexBuildContentsVerified }

  /** What verifying an image may say. `Infrastructure` is any error that is not a finding about the image. */
  datatype Outcome = Detected | Infrastructure | Opened(report: Report)

  // ---------------------------------------------------------------------------------------
  // Mutations.
  // ---------------------------------------------------------------------------------------

  function Flipped(b: bv8): bv8 { b ^ 1 }

  lemma FlippedTwice(b: bv8)
    ensures Flipped(Flipped(b)) == b && Flipped(b) != b
  {
  }

  function Place(page: nat, within: nat): nat { page * PAGE_SIZE + within }

  /** The image with one bit flipped. */
  function Mutation(source: Image, place: nat): Image
    requires place < |source|
  {
    source[place := Flipped(source[place])]
  }

  /** The places visited, page by page and offset by offset. */
  ghost function Places(pages: seq<nat>): (places: seq<nat>)
    ensures |places| == |pages| * |OFFSETS|
  {
    if pages == [] then [] else Places(pages[..|pages| - 1]) + PlacesOn(pages[|pages| - 1], |OFFSETS|)
  }

  ghost function PlacesOn(page: nat, count: nat): (places: seq<nat>)
    requires count <= |OFFSETS|
    ensures |places| == count && forall k | 0 <= k < count :: places[k] == Place(page, OFFSETS[k])
  {
    seq(count, k requires 0 <= k < count => Place(page, OFFSETS[k]))
  }

  lemma OffsetsIncrease()
    ensures Increasing(OFFSETS) && forall k | 0 <= k < |OFFSETS| :: OFFSETS[k] < PAGE_SIZE
  {
  }

  /** On increasing pages no place is visited twice. */
  lemma {:induction false} PlacesIncrease(pages: seq<nat>)
    requires Increasing(pages)
    ensures Increasing(Places(pages))
    ensures pages != [] ==> forall k | 0 <= k < |Places(pages)| :: Places(pages)[k] < Place(pages[|pages| - 1] + 1, 0)
  {
    if pages == [] {
    } else {
      var front, last := pages[..|pages| - 1], pages[|pages| - 1];
      PlacesIncrease(front);
      OffsetsIncrease();
      if front != [] {
        assert front[|front| - 1] + 1 <= last;
      }
    }
  }

  /** Mutations at different places are different images. */
  lemma MutationsDiffer(source: Image, p: nat, q: nat)
    requires p < |source| && q < |source| && p != q
    ensures Mutation(source, p) != Mutation(source, q)
  {
    FlippedTwice(source[p]);
    assert Mutation(source, p)[p] != Mutation(source, q)[p];
  }

  // ---------------------------------------------------------------------------------------
  // Accounting.
  // ---------------------------------------------------------------------------------------

  /** The sum of all counts. */
  ghost function Sum(counts: map<nat, nat>): nat {
    if counts == map[] then 0
    else
      var k :| k in counts;
      counts[k] + Sum(counts - {k})
  }

  lemma {:induction false} SumWithout(counts: map<nat, nat>, k: nat)
    requires k in counts
    ensures Sum(counts) == counts[k] + Sum(counts - {k})
  {
    var j :| j in counts && Sum(counts) == counts[j] + Sum(counts - {j});
    if j == k {
    } else {
      SumWithout(counts - {j}, k);
      SumWithout(counts - {k}, j);
      assert counts - {j} - {k} == counts - {k} - {j};
    }
  }

  function Counted(counts: map<nat, nat>, k: nat): map<nat, nat> {
    counts[k := 1 + if k in counts then counts[k] else 0]
  }

  lemma SumCounted(counts: map<nat, nat>, k: nat)
    ensures Sum(Counted(counts, k)) == Sum(counts) + 1
  {
    var after := Counted(counts, k);
    SumWithout(after, k);
    if k in counts {
      SumWithout(counts, k);
      assert after - {k} == counts - {k};
    } else {
      assert after - {k} == counts;
    }
  }

  datatype Tally = Tally(mutations: nat, detected: nat, valid: nat, validBySequence: map<nat, nat>)

  const NOTHING: Tally := Tally(0, 0, 0, map[])

  /** What the receipt check demands of the counts. */
  ghost predicate Accounted(t: Tally, pages: nat) {
    && t.mutations == pages * |OFFSETS| && t.mutations == t.detected + t.valid
    && Sum(t.validBySequence) == t.valid && forall k | k in t.validBySequence :: t.validBySequence[k] > 0
  }

  // ---------------------------------------------------------------------------------------
  // What a campaign on a source must find: a function of the source, the pages and the verifier.
  // ---------------------------------------------------------------------------------------

  /** The outcomes a campaign accepts when an image opens: this database, another file, an allowed sequence. */
  datatype Judge = Judge(databaseID: string, baselineSHA256: string, allowed: set<nat>)

  predicate Accepts(j: Judge, o: Outcome) {
    || o == Detected
    || (o.Opened? && Complete(o.report) && o.report.databaseID == j.databaseID && o.report.sha256 != j.baselineSHA256
        && o.report.commitSequence in j.allowed)
  }

  ghost predicate PassesAt(source: Image, verify: Image -> Outcome, j: Judge, place: nat) {
    place < |source| && Accepts(j, verify(Mutation(source, place)))
  }

  ghost predicate Passes(source: Image, verify: Image -> Outcome, j: Judge, places: seq<nat>, n: nat) {
    n <= |places| && forall k | 0 <= k < n :: PassesAt(source, verify, j, places[k])
  }

  function Tallied(t: Tally, o: Outcome): Tally {
    match o
    case Detected => t.(mutations := t.mutations + 1, detected := t.detected + 1)
    case Opened(r) => t.(mutations := t.mutations + 1, valid := t.valid + 1,
                         validBySequence := Counted(t.validBySequence, r.commitSequence))
    case Infrastructure => t.(mutations := t.mutations + 1)
  }

  ghost function TallyOf(source: Image, verify: Image -> Outcome, j: Judge, places: seq<nat>, n: nat): Tally
    requires Passes(source, verify, j, places, n)
  {
    if n == 0 then NOTHING
    else Tallied(TallyOf(source, verify, j, places, n - 1), verify(Mutation(source, places[n - 1])))
  }

  lemma {:induction false} TallyAccounts(source: Image, verify: Image -> Outcome, j: Judge, places: seq<nat>, n: nat)
    requires Passes(source, verify, j, places, n)
    ensures var t := TallyOf(source, verify, j, places, n);
            && t.mutations == n == t.detected + t.valid && Sum(t.validBySequence) == t.valid
            && (forall k | k in t.validBySequence :: t.validBySequence[k] > 0 && k in j.allowed)
  {
    if n == 0 {
    } else {
      TallyAccounts(source, verify, j, places, n - 1);
      var before, o := TallyOf(source, verify, j, places, n - 1), verify(Mutation(source, places[n - 1]));
      assert PassesAt(source, verify, j, places[n - 1]);
      if o.Opened? { SumCounted(before.validBySequence, o.report.commitSequence); }
    }
  }

  lemma {:induction false} PlaceOf(pages: seq<nat>, k: nat, i: nat)
    requires k < |pages| && i < |OFFSETS|
    ensures k * |OFFSETS| + i < |Places(pages)|
    ensures Places(pages)[k * |OFFSETS| + i] == Place(pages[k], OFFSETS[i])
  {
    var front := pages[..|pages| - 1];
    if k < |front| {
      PlaceOf(front, k, i);
    }
  }

  // ---------------------------------------------------------------------------------------
  // The campaign.
  // ---------------------------------------------------------------------------------------

  /** One mutation of the copy, verified and undone. */
  method TestPlace(copy: array<bv8>, place: nat, verify: Image -> Outcome) returns (o: Outcome)
    requires place < copy.Length
    modifies copy
    ensures copy[..] == old(copy[..])
    ensures o == verify(Mutation(old(copy[..]), place))
  {
    var original := copy[place];
    copy[place] := Flipped(original);
    assert copy[..] == Mutation(old(copy[..]), place);
    o := verify(copy[..]);
    copy[place] := original;
  }

  /** The inner loop: all offsets of one page, which are the places from `base` on. */
  method TestPage(copy: array<bv8>, ghost source: Image, verify: Image -> Outcome, j: Judge,
                  ghost places: seq<nat>, ghost base: nat, page: nat, t: Tally)
    returns (ok: bool, t': Tally)
    requires copy[..] == source && base + |OFFSETS| <= |places|
    requires forall i | 0 <= i < |OFFSETS| :: places[base + i] == Place(page, OFFSETS[i])
    requires Passes(source, verify, j, places, base) && t == TallyOf(source, verify, j, places, base)
    modifies copy
    ensures copy[..] == source
    ensures ok ==>
              && Passes(source, verify, j, places, base + |OFFSETS|)
              && t' == TallyOf(source, verify, j, places, base + |OFFSETS|)
    ensures !ok ==> exists n :: 0 <= n < |places| && !PassesAt(source, verify, j, places[n])
  {
    t' := t;
    for i := 0 to |OFFSETS|
      invariant copy[..] == source
      invariant Passes(source, verify, j, places, base + i)
      invariant t' == TallyOf(source, verify, j, places, base + i)
    {
      var place := Place(page, OFFSETS[i]);
      assert places[base + i] == place;
      if place >= copy.Length {
        return false, t';
      }
      var o := TestPlace(copy, place, verify);
      if !Accepts(j, o) {
        return false, t';
      }
      t' := Tallied(t', o);
    }
    ok := true;
  }

  /** The outer loop: all sampled pages of a copy of the source. */
  method TestPages(source: Image, verify: Image -> Outcome, j: Judge, pages: seq<nat>) returns (r: Option<Tally>)
    ensures r.Some? <==> Passes(source, verify, j, Places(pages), |Places(pages)|)
    ensures r.Some? ==> r.value == TallyOf(source, verify, j, Places(pages), |Places(pages)|)
  {
    var copy := new bv8[|source|](i requires 0 <= i < |source| => source[i]);
    assert copy[..] == source;
    var t := NOTHING;
    for k := 0 to |pages|
      invariant copy[..] == source
      invariant Passes(source, verify, j, Places(pages), k * |OFFSETS|)
      invariant t == TallyOf(source, verify, j, Places(pages), k * |OFFSETS|)
    {
      forall i | 0 <= i < |OFFSETS|
        ensures k * |OFFSETS| + |OFFSETS| <= |Places(pages)|
        ensures Places(pages)[k * |OFFSETS| + i] == Place(pages[k], OFFSETS[i])
      {
        PlaceOf(pages, k, i);
      }
      var ok;
      ok, t := TestPage(copy, source, verify, j, Places(pages), k * |OFFSETS|, pages[k], t);
      if !ok {
        return None;
      }
    }
    r := Some(t);
  }

  // ---------------------------------------------------------------------------------------
  // The metadata slots, which fix the database and the sequences that may be recovered.
  // ---------------------------------------------------------------------------------------

  const SLOTS: nat := 2

  datatype Meta = Meta(databaseID: string, commitSequence: nat)

  /** The code around the campaign: the verifier, the decoder of a metadata page, and the file hash. */
  datatype Tools = Tools(verify: Image -> Outcome, decode: Image -> Option<Meta>, hash: Image -> Option<string>)

  predicate HasSlots(source: Image) { SLOTS * PAGE_SIZE <= |source| }

  function SlotOf(source: Image, decode: Image -> Option<Meta>, slot: nat): Option<Meta>
    requires HasSlots(source) && slot < SLOTS
  {
    decode(source[slot * PAGE_SIZE..(slot + 1) * PAGE_SIZE])
  }

  /** The slot decodes. */
  predicate IsMeta(source: Image, decode: Image -> Option<Meta>, slot: nat) {
    slot < SLOTS && HasSlots(source) && SlotOf(source, decode, slot).Some?
  }

  function MetaIn(source: Image, decode: Image -> Option<Meta>, slot: nat): Meta
    requires IsMeta(source, decode, slot)
  {
    SlotOf(source, decode, slot).value
  }

  /** Some slot decodes, and all that do name one database. */
  ghost predicate OneDatabase(source: Image, decode: Image -> Option<Meta>) {
    && (exists slot :: IsMeta(source, decode, slot))
    && forall a, b | IsMeta(source, decode, a) && IsMeta(source, decode, b) ::
         MetaIn(source, decode, a).databaseID == MetaIn(source, decode, b).databaseID
  }

  ghost function Sequences(source: Image, decode: Image -> Option<Meta>, n: nat): set<nat> {
    set slot | 0 <= slot < n && IsMeta(source, decode, slot) :: MetaIn(source, decode, slot).commitSequence
  }

  /** The database of the slots and the sequences in them, or nothing if the slots do not agree on a database. */
  method AllowedMetaOutcomes(source: Image, decode: Image -> Option<Meta>) returns (r: Option<(string, set<nat>)>)
    ensures r.Some? <==> OneDatabase(source, decode)
    ensures r.Some? ==>
              forall slot | IsMeta(source, decode, slot) :: MetaIn(source, decode, slot).databaseID == r.value.0
    ensures r.Some? ==> r.value.1 == Sequences(source, decode, SLOTS)
  {
    var databaseID: Option<string>, allowed: set<nat> := None, {};
    for slot := 0 to SLOTS
      invariant databaseID.Some? <==> exists k :: 0 <= k < slot && IsMeta(source, decode, k)
      invariant forall k | 0 <= k < slot && IsMeta(source, decode, k) ::
                  databaseID == Some(MetaIn(source, decode, k).databaseID)
      invariant allowed == Sequences(source, decode, slot)
    {
      if !HasSlots(source) {
        return None;
      }
      var meta := SlotOf(source, decode, slot);
      if meta.Some? {
        assert IsMeta(source, decode, slot);
        if databaseID.Some? && databaseID.value != meta.value.databaseID {
          return None;
        }
        databaseID, allowed := Some(meta.value.databaseID), allowed + {meta.value.commitSequence};
      }
    }
    r := if databaseID.Some? then Some((databaseID.value, allowed)) else None;
  }

  // ---------------------------------------------------------------------------------------
  // The campaign.
  // ---------------------------------------------------------------------------------------

  predicate ValidBaseline(b: Report) {
    Complete(b) && b.validMetaSlots == 2 && b.trailingBytes == 0 && b.physicalPages >= 2
  }

  /** What the source itself says before any mutation. */
  ghost predicate IsBaseline(source: Image, tools: Tools, b: Report) {
    tools.verify(source) == Opened(b) && ValidBaseline(b)
  }

  ghost predicate IsJudge(source: Image, tools: Tools, b: Report, j: Judge) {
    && OneDatabase(source, tools.decode)
    && (forall slot | IsMeta(source, tools.decode, slot) ::
          MetaIn(source, tools.decode, slot).databaseID == j.databaseID)
    && j.baselineSHA256 == b.sha256 && j.allowed == Sequences(source, tools.decode, SLOTS)
  }

  /** What a campaign finds: the baseline, the pages it sampled and the counts. */
  datatype Findings = Findings(baseline: Report, pages: seq<nat>, tally: Tally)

  /** Everything in the findings is determined by the source and the number of samples. */
  ghost predicate Finds(source: Image, limit: nat, tools: Tools, f: Findings, j: Judge) {
    && 2 <= limit <= MAX_PAGE_SAMPLES && IsBaseline(source, tools, f.baseline) && IsJudge(source, tools, f.baseline, j)
    && f.pages == Samples(f.baseline.physicalPages, limit)
    && Passes(source, tools.verify, j, Places(f.pages), |Places(f.pages)|)
    && f.tally == TallyOf(source, tools.verify, j, Places(f.pages), |Places(f.pages)|)
  }

  ghost predicate Yields(source: Image, limit: nat, tools: Tools, f: Findings) {
    exists j :: Finds(source, limit, tools, f, j)
  }

  lemma FindingsAreUnique(source: Image, limit: nat, tools: Tools, f: Findings, g: Findings, i: Judge, j: Judge)
    requires Finds(source, limit, tools, f, i) && Finds(source, limit, tools, g, j)
    ensures f == g && i == j
  {
    var slot :| IsMeta(source, tools.decode, slot);
  }

  /**
   The campaign completes exactly if the source is complete and every sampled mutation is accepted,
   with findings that the source determines and counts that add up.
   */
  method ExecuteCampaign(source: Image, limit: nat, tools: Tools) returns (r: Option<Findings>)
    ensures r.Some? ==> Yields(source, limit, tools, r.value) && Accounted(r.value.tally, |r.value.pages|)
    ensures r.None? ==> forall f :: !Yields(source, limit, tools, f)
  {
    if limit < 2 || limit > MAX_PAGE_SAMPLES {
      return None;
    }
    var verification := tools.verify(source);
    if !verification.Opened? || !ValidBaseline(verification.report) {
      return None;
    }
    var baseline := verification.report;
    var outcomes := AllowedMetaOutcomes(source, tools.decode);
    if outcomes.None? {
      return None;
    }
    var j := Judge(outcomes.value.0, baseline.sha256, outcomes.value.1);
    var samples := DeterministicPageSamples(baseline.physicalPages, limit);
    var pages := samples[..];
    var t := TestPages(source, tools.verify, j, pages);
    if t.None? {
      NothingElsePasses(source, limit, tools, baseline, j);
      return None;
    }
    TallyAccounts(source, tools.verify, j, Places(pages), |Places(pages)|);
    r := Some(Findings(baseline, pages, t.value));
    assert Finds(source, limit, tools, r.value, j);
  }

  lemma NothingElsePasses(source: Image, limit: nat, tools: Tools, b: Report, j: Judge)
    requires 2 <= limit && IsBaseline(source, tools, b) && IsJudge(source, tools, b, j)
    requires var places := Places(Samples(b.physicalPages, limit)); !Passes(source, tools.verify, j, places, |places|)
    ensures forall f :: !Yields(source, limit, tools, f)
  {
    forall f, i ensures !Finds(source, limit, tools, f, i) {
      if IsBaseline(source, tools, f.baseline) && IsJudge(source, tools, f.baseline, i) {
        var slot :| IsMeta(source, tools.decode, slot);
        assert i == j;
      }
    }
  }

  /** What the verifier says of the image with the bit at this place flipped. */
  ghost function OutcomeAt(source: Image, verify: Image -> Outcome, place: nat): Outcome {
    if place < |source| then verify(Mutation(source, place)) else Infrastructure
  }

  /** The indices of the visited places whose images are detected. */
  ghost function DetectedAt(source: Image, verify: Image -> Outcome, places: seq<nat>, n: nat): set<nat>
    requires n <= |places|
  {
    set k: nat | k < n && OutcomeAt(source, verify, places[k]) == Detected
  }

  /** The indices of the visited places whose images open with this commit sequence. */
  ghost function OpenedAt(source: Image, verify: Image -> Outcome, places: seq<nat>, n: nat, sequence: nat): set<nat>
    requires n <= |places|
  {
    set k: nat | k < n && OutcomeAt(source, verify, places[k]).Opened?
              && OutcomeAt(source, verify, places[k]).report.commitSequence == sequence
  }

  function CountOf(counts: map<nat, nat>, k: nat): nat { if k in counts then counts[k] else 0 }

  /** One more index joins the set or does not. */
  lemma OneMoreIndex(s: set<nat>, s': set<nat>, n: nat)
    requires (forall k | k in s :: k < n) && forall k: nat :: k in s' <==> k in s || (k == n && n in s')
    ensures |s'| == |s| + if n in s' then 1 else 0
  {
    assert s' == if n in s' then s + {n} else s;
  }

  lemma {:induction false} TallyCounts(source: Image, verify: Image -> Outcome, j: Judge, places: seq<nat>, n: nat,
                                       sequence: nat)
    requires Passes(source, verify, j, places, n)
    ensures var t := TallyOf(source, verify, j, places, n);
            && t.mutations == n && t.detected == |DetectedAt(source, verify, places, n)|
            && CountOf(t.validBySequence, sequence) == |OpenedAt(source, verify, places, n, sequence)|
  {
    if n == 0 {
    } else {
      TallyCounts(source, verify, j, places, n - 1, sequence);
      assert PassesAt(source, verify, j, places[n - 1]);
      OneMoreIndex(DetectedAt(source, verify, places, n - 1), DetectedAt(source, verify, places, n), n - 1);
      OneMoreIndex(OpenedAt(source, verify, places, n - 1, sequence), OpenedAt(source, verify, places, n, sequence),
                   n - 1);
    }
  }

  /**
   What the counts of a completed campaign are: one mutation for each visited place; as many detected as
   there are places whose image is detected; and for each commit sequence as many as there are places
   whose image opens with it.
   */
  lemma FindingsCountOutcomes(source: Image, limit: nat, tools: Tools, f: Findings, sequence: nat)
    requires Yields(source, limit, tools, f)
    ensures var places := Places(f.pages);
            && f.tally.mutations == |places| == |f.pages| * |OFFSETS|
            && f.tally.detected == |DetectedAt(source, tools.verify, places, |places|)|
            && CountOf(f.tally.validBySequence, sequence) ==
               |OpenedAt(source, tools.verify, places, |places|, sequence)|
            && f.tally.valid == |places| - |DetectedAt(source, tools.verify, places, |places|)|
  {
    var j :| Finds(source, limit, tools, f, j);
    TallyCounts(source, tools.verify, j, Places(f.pages), |Places(f.pages)|, sequence);
    TallyAccounts(source, tools.verify, j, Places(f.pages), |Places(f.pages)|);
  }

  /**
   The mutation at this place is detected, or its image opens completely as another file of the same
   database, at the commit sequence of one of the source's own metadata slots.
   */
  ghost predicate HarmlessAt(source: Image, tools: Tools, baseline: Report, place: nat) {
    && place < |source|
    && var o := tools.verify(source[place := source[place] ^ 1]);
    && (|| o == Detected
        || (&& o.Opened? && o.report.verified && o.report.indexContentsVerified && o.report.indexBuildContentsVerified
            && o.report.sha256 != baseline.sha256 && OpensAsSlot(source, tools, o.report)))
  }

  ghost predicate OpensAsSlot(source: Image, tools: Tools, r: Report) {
    exists slot :: && IsMeta(source, tools.decode, slot)
                   && r.databaseID == MetaIn(source, tools.decode, slot).databaseID
                   && r.commitSequence == MetaIn(source, tools.decode, slot).commitSequence
  }

  lemma HarmlessIffPasses(source: Image, tools: Tools, baseline: Report, j: Judge, place: nat)
    requires IsJudge(source, tools, baseline, j)
    ensures HarmlessAt(source, tools, baseline, place) <==> PassesAt(source, tools.verify, j, place)
  {
    if place < |source| {
      var o := tools.verify(Mutation(source, place));
      if o.Opened? && o.report.commitSequence in j.allowed {
        var slot: nat :| slot < SLOTS && IsMeta(source, tools.decode, slot)
                      && MetaIn(source, tools.decode, slot).commitSequence == o.report.commitSequence;
        assert MetaIn(source, tools.decode, slot).databaseID == j.databaseID;
      }
    }
  }

  lemma JudgeExists(source: Image, tools: Tools, baseline: Report) returns (j: Judge)
    requires OneDatabase(source, tools.decode)
    ensures IsJudge(source, tools, baseline, j)
  {
    var slot :| IsMeta(source, tools.decode, slot);
    j := Judge(MetaIn(source, tools.decode, slot).databaseID, baseline.sha256, Sequences(source, tools.decode, SLOTS));
  }

  /** Exactly when a campaign completes, with which baseline and pages. */
  lemma CompletesIffHarmless(source: Image, limit: nat, tools: Tools, baseline: Report)
    ensures (exists f :: Yields(source, limit, tools, f) && f.baseline == baseline)
       <==> && 2 <= limit <= MAX_PAGE_SAMPLES && tools.verify(source) == Opened(baseline)
            && baseline.verified && baseline.indexContentsVerified && baseline.indexBuildContentsVerified
            && baseline.validMetaSlots == 2 && baseline.trailingBytes == 0 && baseline.physicalPages >= 2
            && OneDatabase(source, tools.decode)
            && var places := Places(Samples(baseline.physicalPages, limit));
               forall k | 0 <= k < |places| :: HarmlessAt(source, tools, baseline, places[k])
  {
    if 2 <= limit <= MAX_PAGE_SAMPLES && IsBaseline(source, tools, baseline) && OneDatabase(source, tools.decode) {
      var j := JudgeExists(source, tools, baseline);
      var pages := Samples(baseline.physicalPages, limit);
      var places := Places(pages);
      forall k | 0 <= k < |places|
        ensures HarmlessAt(source, tools, baseline, places[k]) <==> PassesAt(source, tools.verify, j, places[k])
      {
        HarmlessIffPasses(source, tools, baseline, j, places[k]);
      }
      if Passes(source, tools.verify, j, places, |places|) {
        var f := Findings(baseline, pages, TallyOf(source, tools.verify, j, places, |places|));
        assert Finds(source, limit, tools, f, j);
        assert Yields(source, limit, tools, f);
      } else {
        NothingElsePasses(source, limit, tools, baseline, j);
      }
    }
  }

  /** And which places these are: every offset of every sampled page, in turn. */
  lemma PlacesAreOffsets(pages: seq<nat>, k: nat, i: nat)
    requires k < |pages| && i < 14
    ensures k * 14 + i < |Places(pages)| == |pages| * 14
    ensures Places(pages)[k * 14 + i] ==
            pages[k] * 4096 + [0, 7, 8, 31, 63, 127, 223, 224, 255, 511, 1023, 2047, 3071, 4095][i]
  {
    PlaceOf(pages, k, i);
  }

  /** No image is tested twice: the images at any two visited places differ. */
  ghost predicate TestsDistinct(source: Image, places: seq<nat>) {
    && (forall m | 0 <= m < |places| :: places[m] < |source|)
    && (forall m, n | 0 <= m < n < |places| :: Mutation(source, places[m]) != Mutation(source, places[n]))
  }

  /**
   What a completed campaign has tested. Every tested image differs from the source in exactly one
   place, by its lowest bit. The sampled pages span the reported file exactly if no product overflows
   64 bits, and then no image is tested twice.
   */
  lemma CampaignTestsDistinctImages(source: Image, limit: nat, tools: Tools, f: Findings)
    requires Yields(source, limit, tools, f)
    ensures Spread(f.pages, f.baseline.physicalPages, limit) <==> Fits(f.baseline.physicalPages, limit)
    ensures Fits(f.baseline.physicalPages, limit) ==> TestsDistinct(source, Places(f.pages))
  {
    var j :| Finds(source, limit, tools, f, j);
    SpreadIffFits(f.baseline.physicalPages, limit);
    if Fits(f.baseline.physicalPages, limit) {
      PlacesIncrease(f.pages);
      var places := Places(f.pages);
      forall m | 0 <= m < |places| ensures places[m] < |source| {
        assert PassesAt(source, tools.verify, j, places[m]);
      }
      forall m, n | 0 <= m < n < |places| ensures Mutation(source, places[m]) != Mutation(source, places[n]) {
        MutationsDiffer(source, places[m], places[n]);
      }
    }
  }

  /**
   Files that are at most as long as a signed 64-bit number says, and reported with no more pages
   than they have, fit.
   */
  lemma HonestReportsFit(source: Image, limit: nat, tools: Tools, f: Findings)
    requires Yields(source, limit, tools, f) && f.baseline.physicalPages * PAGE_SIZE <= |source| < TWO_64 / 2
    ensures Spread(f.pages, f.baseline.physicalPages, limit) && TestsDistinct(source, Places(f.pages))
  {
    FilesFit(f.baseline.physicalPages, limit);
    CampaignTestsDistinctImages(source, limit, tools, f);
  }

  // ---------------------------------------------------------------------------------------
  // Receipts.
  // ---------------------------------------------------------------------------------------

  const RECEIPT_SCHEMA: nat := 1

  /** A time is a number; zero is the time that was never set. */
  datatype Receipt = Receipt(
    schemaVersion: nat, build: PhaseReceipt.Build, databaseArtifact: string, databaseSHA256: string, findings: Findings,
    offsets: seq<nat>, startedAt: int, finishedAt: int, passed: bool)

  predicate IsAbsolute(path: string) { path != "" && path[0] == '/' }

  predicate ValidBuild(b: PhaseReceipt.Build) {
    && b.goVersion != "" && IsSafeName(b.goos, 32) && IsSafeName(b.goarch, 32)
    && (b.sourceRevision != "" ==> IsSourceRevision(b.sourceRevision))
    && (b.buildRevision != "" ==> IsSourceRevision(b.buildRevision))
  }

  /** The checks that the loops below do not make. */
  predicate ValidFrame(r: Receipt) {
    && r.schemaVersion == RECEIPT_SCHEMA && ValidBuild(r.build)
    && IsAbsolute(r.databaseArtifact) && IsHexDigest(r.databaseSHA256) && r.databaseSHA256 == r.findings.baseline.sha256
    && ValidBaseline(r.findings.baseline) && 2 <= |r.findings.pages| <= MAX_PAGE_SAMPLES && r.offsets == OFFSETS
    && r.startedAt != 0 && r.startedAt < r.finishedAt && r.passed
  }

  ghost predicate ValidReceipt(r: Receipt) {
    && ValidFrame(r) && Accounted(r.findings.tally, |r.findings.pages|)
    && r.findings.pages == Samples(r.findings.baseline.physicalPages, |r.findings.pages|)
  }

  /** The loop that adds up the outcomes, in whatever order the map yields them. */
  method TotalOutcomes(counts: map<nat, nat>) returns (ok: bool, total: nat)
    ensures ok <==> forall k | k in counts :: counts[k] > 0
    ensures ok ==> total == Sum(counts)
  {
    var rest := counts;
    total := 0;
    while rest != map[]
      invariant forall k | k in rest :: k in counts && rest[k] == counts[k]
      invariant forall k | k in counts && k !in rest :: counts[k] > 0
      invariant total + Sum(rest) == Sum(counts)
      decreases |rest|
    {
      var k :| k in rest;
      if rest[k] == 0 {
        return false, total;
      }
      SumWithout(rest, k);
      total := total + rest[k];
      assert |rest - {k}| < |rest|;
      rest := rest - {k};
    }
    ok := true;
  }

  method ValidateReceipt(r: Receipt) returns (ok: bool)
    ensures ok <==> ValidReceipt(r)
  {
    var pages, t := r.findings.pages, r.findings.tally;
    if !ValidFrame(r) || t.mutations != |pages| * |r.offsets| || t.mutations != t.detected + t.valid {
      return false;
    }
    var expected := DeterministicPageSamples(r.findings.baseline.physicalPages, |pages|);
    if pages != expected[..] {
      return false;
    }
    var total;
    ok, total := TotalOutcomes(t.validBySequence);
    ok := ok && total == t.valid;
  }

  /** The recheck hashes the artifact and runs the campaign again with the receipt's own number of pages. */
  method Recheck(r: Receipt, source: Image, tools: Tools) returns (ok: bool)
    ensures ok <==>
              tools.hash(source) == Some(r.databaseSHA256) && Yields(source, |r.findings.pages|, tools, r.findings)
  {
    if tools.hash(source) != Some(r.databaseSHA256) {
      return false;
    }
    var again := ExecuteCampaign(source, |r.findings.pages|, tools);
    ok := again == Some(r.findings);
    if again.Some? && !ok {
      OtherFindingsFail(source, |r.findings.pages|, tools, again.value, r.findings);
    }
  }

  lemma OtherFindingsFail(source: Image, limit: nat, tools: Tools, f: Findings, g: Findings)
    requires Yields(source, limit, tools, f) && f != g
    ensures !Yields(source, limit, tools, g)
  {
    var i :| Finds(source, limit, tools, f, i);
    forall j ensures !Finds(source, limit, tools, g, j) {
      if Finds(source, limit, tools, g, j) {
        FindingsAreUnique(source, limit, tools, f, g, i, j);
      }
    }
  }

  /** The whole check: campaign, hash of the source afterwards, receipt, and the receipt's own validation. */
  method CorruptionCheck(source: Image, limit: nat, tools: Tools, build: PhaseReceipt.Build, artifact: string,
                         startedAt: int, finishedAt: int)
    returns (r: Option<Receipt>)
    ensures r.Some? ==>
              && ValidReceipt(r.value) && r.value.databaseArtifact == artifact && r.value.build == build
              && tools.hash(source) == Some(r.value.databaseSHA256) && Yields(source, limit, tools, r.value.findings)
    ensures r.None? && ValidBuild(build) && IsAbsolute(artifact) && 0 != startedAt < finishedAt ==>
              forall f | Yields(source, limit, tools, f) ::
                tools.hash(source) != Some(f.baseline.sha256) || !IsHexDigest(f.baseline.sha256)
  {
    var campaign := ExecuteCampaign(source, limit, tools);
    if campaign.None? {
      return None;
    }
    var f := campaign.value;
    forall g | Yields(source, limit, tools, g) ensures g == f {
      if g != f {
        OtherFindingsFail(source, limit, tools, f, g);
      }
    }
    var hash := tools.hash(source);
    if hash != Some(f.baseline.sha256) {
      return None;
    }
    var receipt := Receipt(RECEIPT_SCHEMA, build, artifact, hash.value, f, OFFSETS, startedAt, finishedAt, true);
    YieldedPages(source, limit, tools, f);
    var ok := ValidateReceipt(receipt);
    r := if ok then Some(receipt) else None;
  }

  lemma YieldedPages(source: Image, limit: nat, tools: Tools, f: Findings)
    requires Yields(source, limit, tools, f)
    ensures ValidBaseline(f.baseline) && 2 <= |f.pages| <= MAX_PAGE_SAMPLES
    ensures f.pages == Samples(f.baseline.physicalPages, |f.pages|)
  {
    SamplesAreReproduced(f.baseline.physicalPages, limit);
  }

  /** The same findings come out of a campaign that is asked for as many pages as were sampled. */
  lemma OwnReceiptReproduces(source: Image, limit: nat, tools: Tools, f: Findings)
    requires Yields(source, limit, tools, f)
    ensures Yields(source, |f.pages|, tools, f)
  {
    var j :| Finds(source, limit, tools, f, j);
    YieldedPages(source, limit, tools, f);
    assert Finds(source, |f.pages|, tools, f, j);
  }

  /**
   A receipt that rechecks against an artifact says what any campaign on that artifact with that many
   pages finds: two receipts for it can differ in no finding, and neither can be adjusted.
   */
  lemma RecheckPinsFindings(source: Image, tools: Tools, f: Findings, g: Findings)
    requires Yields(source, |f.pages|, tools, f) && Yields(source, |g.pages|, tools, g) && |f.pages| == |g.pages|
    ensures f == g
  {
    var i :| Finds(source, |f.pages|, tools, f, i);
    var j :| Finds(source, |g.pages|, tools, g, j);
    FindingsAreUnique(source, |f.pages|, tools, f, g, i, j);
  }
}
