/**
 The hash-linked chain of phase receipts: the verifier's loop, what it certifies, and that the last
 file pins all others.
 */
module ReceiptChain {

  import opened HistoryWire
  import opened Options
  import opened PhaseReceipt
  import opened QuorumEvidence

  const ROLLBACK: nat := 4

  /** The same members behind the same endpoints, position by position. */
  predicate SameMembers(left: seq<Member>, right: seq<Member>) {
    && |left| == |right|
    && forall i | 0 <= i < |left| ::
         left[i].memberID == right[i].memberID && left[i].endpointSHA256 == right[i].endpointSHA256
  }

  predicate SameIdentity(a: Contents, b: Contents) {
    && a.runID == b.runID && a.configurationID == b.configurationID
    && a.database.databaseIDHex == b.database.databaseIDHex && a.build == b.build
  }

  predicate ValidSequence(previous: Contents, next: Contents) {
    && (next.database.commitSequence < previous.database.commitSequence ==> next.phase == "rollback-rejected")
    && (next.phase == "rollback-rejected" ==> next.database.commitSequence < previous.database.commitSequence)
  }

  /** What the loop checks of one receipt against the one before it. */
  predicate Continues(previousRaw: Raw, previous: Contents, next: Contents) {
    && next.previousSHA256 == DigestOf(previousRaw) && SameIdentity(previous, next)
    && previous.finishedAt <= next.startedAt && SameMembers(previous.members, next.members)
    && ValidSequence(previous, next)
  }

  ghost predicate Fresh(cs: seq<Contents>, i: nat)
    requires i < |cs|
  {
    forall k | 0 <= k < i :: cs[k].externalEvidenceSHA256 != cs[i].externalEvidenceSHA256
  }

  /** What the loop checks of the contents at one position, beyond checking them alone. */
  ghost predicate Link(raws: seq<Raw>, cs: seq<Contents>, i: nat)
    requires i < |cs| <= |raws|
  {
    && Fresh(cs, i)
    && i < |PHASES| && cs[i].phase == PHASES[i]
    && (i == 0 ==> cs[0].previousSHA256 == NoDigest)
    && (i > 0 ==> Continues(raws[i - 1], cs[i - 1], cs[i]))
  }

  ghost predicate Linked(raws: seq<Raw>, cs: seq<Contents>) {
    |cs| <= |raws| && forall i {:trigger Link(raws, cs, i)} | 0 <= i < |cs| :: Link(raws, cs, i)
  }

  /** The file decodes to a receipt with these contents that passes the checks on one receipt. */
  ghost predicate Holds(raw: Raw, publicKey: string, c: Contents) {
    raw.receipt.Some? && raw.receipt.value.contents == c && VerifiedReceipt(raw.receipt.value, publicKey)
  }

  ghost predicate HoldAll(raws: seq<Raw>, publicKey: string, cs: seq<Contents>) {
    |cs| <= |raws| && forall i {:trigger Holds(raws[i], publicKey, cs[i])} | 0 <= i < |cs| ::
      Holds(raws[i], publicKey, cs[i])
  }

  /** The files form an accepted chain with these contents. */
  ghost predicate AcceptedChain(raws: seq<Raw>, publicKey: string, cs: seq<Contents>) {
    raws != [] && IsPublicKey(publicKey) && |cs| == |raws| && HoldAll(raws, publicKey, cs) && Linked(raws, cs)
  }

  ghost predicate Unacceptable(raws: seq<Raw>, publicKey: string) {
    forall cs :: !AcceptedChain(raws, publicKey, cs)
  }

  // ---------------------------------------------------------------------------------------
  // The verifier.
  // ---------------------------------------------------------------------------------------

  datatype Verification = Verification(
    runID: string, configurationID: string, complete: bool, receipts: seq<Contents>, digests: seq<FileDigest>)

  method ReadReceipt(raw: Raw, publicKey: string) returns (r: Option<Contents>)
    ensures r.Some? ==> Holds(raw, publicKey, r.value)
    ensures r.None? ==> forall c :: !Holds(raw, publicKey, c)
  {
    if raw.receipt.None? {
      return None;
    }
    var ok := VerifyReceipt(raw.receipt.value, publicKey);
    r := if ok then Some(raw.receipt.value.contents) else None;
  }

  ghost function EvidenceOf(cs: seq<Contents>): set<string> { set c | c in cs :: c.externalEvidenceSHA256 }

  lemma EvidenceExtends(cs: seq<Contents>, c: Contents)
    ensures EvidenceOf(cs + [c]) == EvidenceOf(cs) + {c.externalEvidenceSHA256}
  {
  }

  method CheckLink(raws: seq<Raw>, front: seq<Contents>, receipt: Contents, seen: set<string>, previousRaw: Raw,
                   previous: Contents)
    returns (ok: bool)
    requires |front| < |raws| && seen == EvidenceOf(front)
    requires front != [] ==> previousRaw == raws[|front| - 1] && previous == front[|front| - 1]
    ensures ok <==> Link(raws, front + [receipt], |front|)
  {
    var k := |front|;
    if receipt.externalEvidenceSHA256 in seen {
      ghost var i :| 0 <= i < k && front[i].externalEvidenceSHA256 == receipt.externalEvidenceSHA256;
      assert (front + [receipt])[i] == front[i];
      return false;
    }
    assert forall i | 0 <= i < k :: front[i].externalEvidenceSHA256 in seen;
    if k >= |PHASES| || receipt.phase != PHASES[k] || (k == 0 && receipt.previousSHA256 != NoDigest) {
      return false;
    }
    ok := k == 0 || Continues(previousRaw, previous, receipt);
  }

  ghost predicate Digested(raws: seq<Raw>, digests: seq<FileDigest>) {
    var holds := |digests| <= |raws| && forall i | 0 <= i < |digests| :: digests[i] == DigestOf(raws[i]);
    holds
  }

  lemma DigestAdded(raws: seq<Raw>, digests: seq<FileDigest>)
    requires Digested(raws, digests) && |digests| < |raws|
    ensures Digested(raws, digests + [DigestOf(raws[|digests|])])
  {
  }

  lemma DigestsThread(raws: seq<Raw>, cs: seq<Contents>, digests: seq<FileDigest>)
    requires Linked(raws, cs) && Digested(raws, digests) && |cs| == |digests|
    ensures forall i | 0 < i < |cs| :: cs[i].previousSHA256 == digests[i - 1]
  {
    LinkedIsThreaded(raws, cs);
  }

  /** The loop over the files, with the previous file, its contents and the external evidence seen so far. */
  method VerifyChain(raws: seq<Raw>, publicKey: string, requireComplete: bool) returns (r: Option<Verification>)
    ensures r.Some? ==>
              && AcceptedChain(raws, publicKey, r.value.receipts) && (requireComplete ==> r.value.complete)
              && (r.value.complete <==> |raws| == |PHASES|)
              && r.value.runID == r.value.receipts[|raws| - 1].runID
              && r.value.configurationID == r.value.receipts[|raws| - 1].configurationID
    ensures r.Some? ==>
              && |r.value.digests| == |raws| && Digested(raws, r.value.digests)
              && (forall i | 0 < i < |raws| :: r.value.receipts[i].previousSHA256 == r.value.digests[i - 1])
    ensures r.None? ==> (requireComplete && |raws| != |PHASES|) || Unacceptable(raws, publicKey)
  {
    if !IsPublicKey(publicKey) || raws == [] || (requireComplete && |raws| != |PHASES|) {
      return None;
    }
    var receipts: seq<Contents>, digests: seq<FileDigest> := [], [];
    var seen: set<string> := {};
    var previousRaw, previous: Contents := raws[0], *;
    for k := 0 to |raws|
      invariant |receipts| == k && HoldAll(raws, publicKey, receipts) && Linked(raws, receipts)
      invariant |digests| == k && Digested(raws, digests)
      invariant k > 0 ==> previousRaw == raws[k - 1] && previous == receipts[k - 1]
      invariant seen == EvidenceOf(receipts)
    {
      var read := ReadReceipt(raws[k], publicKey);
      if read.None? {
        Rejects(raws, publicKey, k);
        return None;
      }
      var extended := receipts + [read.value];
      HoldExtends(raws, publicKey, receipts, read.value);
      var ok := CheckLink(raws, receipts, read.value, seen, previousRaw, previous);
      if !ok {
        Breaks(raws, publicKey, extended);
        return None;
      }
      LinkedExtends(raws, receipts, read.value);
      seen := seen + {read.value.externalEvidenceSHA256};
      EvidenceExtends(receipts, read.value);
      DigestAdded(raws, digests);
      receipts, digests := extended, digests + [DigestOf(raws[k])];
      previousRaw, previous := raws[k], read.value;
    }
    DigestsThread(raws, receipts, digests);
    r := Some(Verification(previous.runID, previous.configurationID, |raws| == |PHASES|, receipts, digests));
  }

  lemma Rejects(raws: seq<Raw>, publicKey: string, k: nat)
    requires k < |raws| && forall c :: !Holds(raws[k], publicKey, c)
    ensures Unacceptable(raws, publicKey)
  {
    forall cs | |cs| == |raws| ensures !AcceptedChain(raws, publicKey, cs) {
      assert !Holds(raws[k], publicKey, cs[k]);
    }
  }

  lemma Breaks(raws: seq<Raw>, publicKey: string, broken: seq<Contents>)
    requires 0 < |broken| <= |raws| && HoldAll(raws, publicKey, broken) && !Link(raws, broken, |broken| - 1)
    ensures Unacceptable(raws, publicKey)
  {
    Decoded(raws, publicKey, broken);
    forall cs | |cs| == |raws| && HoldAll(raws, publicKey, cs) ensures !AcceptedChain(raws, publicKey, cs) {
      Decoded(raws, publicKey, cs);
      SameLink(raws, broken, cs);
    }
  }

  lemma SameLink(raws: seq<Raw>, front: seq<Contents>, cs: seq<Contents>)
    requires 0 < |front| <= |cs| <= |raws| && forall i | 0 <= i < |front| :: cs[i] == front[i]
    ensures Link(raws, cs, |front| - 1) <==> Link(raws, front, |front| - 1)
  {
  }

  lemma HoldExtends(raws: seq<Raw>, publicKey: string, cs: seq<Contents>, c: Contents)
    requires |cs| < |raws| && HoldAll(raws, publicKey, cs) && Holds(raws[|cs|], publicKey, c)
    ensures HoldAll(raws, publicKey, cs + [c])
  {
    forall i | 0 <= i < |cs| ensures Holds(raws[i], publicKey, (cs + [c])[i]) {
      assert Holds(raws[i], publicKey, cs[i]);
    }
  }

  lemma LinkedExtends(raws: seq<Raw>, cs: seq<Contents>, c: Contents)
    requires Linked(raws, cs) && |cs| < |raws| && Link(raws, cs + [c], |cs|)
    ensures Linked(raws, cs + [c])
  {
    forall i | 0 <= i < |cs| ensures Link(raws, cs + [c], i) {
      assert Link(raws, cs, i);
    }
  }

  // ---------------------------------------------------------------------------------------
  // What an accepted chain certifies.
  // ---------------------------------------------------------------------------------------

  /** The whole-chain statement between any two positions. */
  predicate Consistent(cs: seq<Contents>, i: nat, j: nat)
    requires i < j < |cs|
  {
    var a, b := cs[i], cs[j];
    && SameIdentity(a, b) && SameMembers(a.members, b.members)
    && a.startedAt < a.finishedAt <= b.startedAt < b.finishedAt
    && a.externalEvidenceSHA256 != b.externalEvidenceSHA256
    && (j < ROLLBACK ==> a.database.commitSequence <= b.database.commitSequence)
    && (j == ROLLBACK && i == ROLLBACK - 1 ==> b.database.commitSequence < a.database.commitSequence)
  }

  lemma {:induction false} LinkedIsConsistent(raws: seq<Raw>, cs: seq<Contents>, i: nat, j: nat)
    requires Linked(raws, cs) && i < j < |cs|
    requires forall k | 0 <= k < |cs| :: cs[k].startedAt < cs[k].finishedAt
    ensures Consistent(cs, i, j)
    decreases j
  {
    assert Link(raws, cs, j);
    if i == j - 1 {
    } else {
      LinkedIsConsistent(raws, cs, i, j - 1);
    }
  }

  /**
   Constant identity and members, disjoint ordered times, distinct evidence, and sequences that only
   drop, strictly, at the rollback.
   */
  lemma ChainIsConsistent(raws: seq<Raw>, publicKey: string, cs: seq<Contents>, i: nat, j: nat)
    requires AcceptedChain(raws, publicKey, cs) && i < j < |cs|
    ensures Consistent(cs, i, j)
  {
    forall k | 0 <= k < |cs| ensures cs[k].startedAt < cs[k].finishedAt {
      assert Holds(raws[k], publicKey, cs[k]);
    }
    LinkedIsConsistent(raws, cs, i, j);
  }

  /** A complete chain ends with a database image that was refused as a rollback. */
  lemma CompleteChainRejectsRollback(raws: seq<Raw>, publicKey: string, cs: seq<Contents>)
    requires AcceptedChain(raws, publicKey, cs) && |cs| == |PHASES|
    ensures cs[ROLLBACK].databaseOpen == "rollback-rejected" && cs[ROLLBACK].databaseRelation == "anchor-ahead"
  {
    assert Link(raws, cs, ROLLBACK);
    assert Holds(raws[ROLLBACK], publicKey, cs[ROLLBACK]);
  }

  /** The phases so far in order, each receipt naming the file before it. */
  predicate Threaded(raws: seq<Raw>, cs: seq<Contents>) {
    && |cs| <= |raws| && |cs| <= |PHASES|
    && (forall i | 0 <= i < |cs| :: cs[i].phase == PHASES[i])
    && (forall i | 0 <= i < |cs| :: cs[i].previousSHA256 == if i == 0 then NoDigest else DigestOf(raws[i - 1]))
  }

  lemma LinkedIsThreaded(raws: seq<Raw>, cs: seq<Contents>)
    requires Linked(raws, cs)
    ensures Threaded(raws, cs)
  {
    if cs != [] {
      assert Link(raws, cs, |cs| - 1);
    }
    forall i | 0 <= i < |cs|
      ensures cs[i].phase == PHASES[i] && cs[i].previousSHA256 == if i == 0 then NoDigest else DigestOf(raws[i - 1])
    {
      assert Link(raws, cs, i);
    }
  }

  /** Conversely, being threaded and pairwise consistent is all that the chain checks ask for. */
  lemma ConsistentIsLinked(raws: seq<Raw>, cs: seq<Contents>)
    requires Threaded(raws, cs) && forall i, j | 0 <= i < j < |cs| :: Consistent(cs, i, j)
    ensures Linked(raws, cs)
  {
    forall i | 0 <= i < |cs| ensures Link(raws, cs, i) {
      forall k | 0 <= k < i ensures cs[k].externalEvidenceSHA256 != cs[i].externalEvidenceSHA256 {
        assert Consistent(cs, k, i);
      }
      if i > 0 {
        assert Consistent(cs, i - 1, i);
      }
    }
  }

  /** Going back along the digests, equal files have equal predecessors. */
  lemma {:induction false} LastFileDeterminesPrefix(left: seq<Raw>, right: seq<Raw>, ls: seq<Contents>,
                                                    rs: seq<Contents>, n: nat)
    requires Threaded(left, ls) && Threaded(right, rs) && n < |ls| && n < |rs|
    requires forall i | 0 <= i < |ls| :: left[i].receipt.Some? && left[i].receipt.value.contents == ls[i]
    requires forall i | 0 <= i < |rs| :: right[i].receipt.Some? && right[i].receipt.value.contents == rs[i]
    requires left[n] == right[n]
    ensures left[..n + 1] == right[..n + 1]
  {
    if n == 0 {
    } else {
      assert ls[n] == rs[n];
      LastFileDeterminesPrefix(left, right, ls, rs, n - 1);
    }
  }

  lemma PhasesDiffer(i: nat, j: nat)
    requires i < j < |PHASES|
    ensures PHASES[i] != PHASES[j]
  {
    assert PHASES[1][0] == 'd' && PHASES[2][0] == 'm';
    assert |PHASES[0]| == 7 && |PHASES[1]| == 8 && |PHASES[2]| == 8 && |PHASES[3]| == 9 && |PHASES[4]| == 17;
  }

  lemma SameLastSameChain(left: seq<Raw>, right: seq<Raw>, ls: seq<Contents>, rs: seq<Contents>)
    requires Threaded(left, ls) && Threaded(right, rs) && 0 < |ls| == |left| && 0 < |rs| == |right|
    requires forall i | 0 <= i < |ls| :: left[i].receipt.Some? && left[i].receipt.value.contents == ls[i]
    requires forall i | 0 <= i < |rs| :: right[i].receipt.Some? && right[i].receipt.value.contents == rs[i]
    requires left[|left| - 1] == right[|right| - 1]
    ensures left == right && ls == rs
  {
    var n, m := |left| - 1, |right| - 1;
    assert PHASES[n] == ls[n].phase == rs[m].phase == PHASES[m];
    if n < m { PhasesDiffer(n, m); }
    if m < n { PhasesDiffer(m, n); }
    LastFileDeterminesPrefix(left, right, ls, rs, n);
    assert left == left[..n + 1] && right == right[..n + 1];
  }

  /** The last file determines the whole chain: two accepted chains that end in the same file are the same chain. */
  lemma LastFileDeterminesChain(left: seq<Raw>, right: seq<Raw>, leftKey: string, rightKey: string, ls: seq<Contents>,
                                rs: seq<Contents>)
    requires AcceptedChain(left, leftKey, ls) && AcceptedChain(right, rightKey, rs)
    requires left[|left| - 1] == right[|right| - 1]
    ensures left == right && ls == rs
  {
    LinkedIsThreaded(left, ls);
    LinkedIsThreaded(right, rs);
    Decoded(left, leftKey, ls);
    Decoded(right, rightKey, rs);
    SameLastSameChain(left, right, ls, rs);
  }

  lemma Decoded(raws: seq<Raw>, publicKey: string, cs: seq<Contents>)
    requires HoldAll(raws, publicKey, cs)
    ensures forall i | 0 <= i < |cs| :: raws[i].receipt.Some? && raws[i].receipt.value.contents == cs[i]
  {
    forall i | 0 <= i < |cs| ensures raws[i].receipt.Some? && raws[i].receipt.value.contents == cs[i] {
      assert Holds(raws[i], publicKey, cs[i]);
    }
  }
}
