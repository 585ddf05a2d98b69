/** The overlap-exact data set of the query observer: two branches of equal size with a chosen intersection. */
module OverlapData {

  function Half(documents: nat): nat { documents / 2 }

  predicate LeftMember(index: nat, documents: nat) { index < Half(documents) }

  /** The requested overlap in documents, rounded half up, before it is clamped. */
  function Requested(documents: nat, percent: nat): nat { (2 * Half(documents) * percent + 50) / 100 }

  function Overlap(documents: nat, percent: nat): nat {
    if Requested(documents, percent) < Half(documents) then Requested(documents, percent) else Half(documents)
  }

  predicate RightMember(index: nat, documents: nat, percent: nat) {
    var half := Half(documents);
    var overlap := Overlap(documents, percent);
    index < overlap || half <= index < half + (half - overlap)
  }

  /** The seeding loops over batches; every document gets its two flags in order. */
  method SeedMembership(documents: nat, batchSize: nat, percent: nat) returns (flags: seq<(bool, bool)>)
    requires 0 < batchSize
    ensures |flags| == documents
    ensures forall i | 0 <= i < documents :: flags[i] == (LeftMember(i, documents), RightMember(i, documents, percent))
  {
    flags := [];
    var first := 0;
    while first < documents
      invariant first == |flags| <= documents
      invariant forall i | 0 <= i < first :: flags[i] == (LeftMember(i, documents), RightMember(i, documents, percent))
    {
      var last := if first + batchSize < documents then first + batchSize else documents;
      for index := first to last
        invariant index == |flags|
        invariant forall i | 0 <= i < index ::
                    flags[i] == (LeftMember(i, documents), RightMember(i, documents, percent))
      {
        flags := flags + [(LeftMember(index, documents), RightMember(index, documents, percent))];
      }
      first := last;
    }
  }

  // ---------------------------------------------------------------------------------------
  // Sizes.
  // ---------------------------------------------------------------------------------------

  ghost function Interval(low: nat, high: nat): (s: set<nat>)
    requires low <= high
    ensures |s| == high - low
    ensures forall i :: i in s <==> low <= i < high
    decreases high - low
  {
    if low == high then {} else Interval(low, high - 1) + {high - 1}
  }

  ghost function Left(documents: nat): set<nat> { set i: nat | i < documents && LeftMember(i, documents) }

  ghost function Right(documents: nat, percent: nat): set<nat> {
    set i: nat | i < documents && RightMember(i, documents, percent)
  }

  /** Up to fifty per cent the clamp changes nothing. */
  lemma ClampIsIdle(documents: nat, percent: nat)
    requires percent <= 50
    ensures Overlap(documents, percent) == Requested(documents, percent) <= Half(documents)
  {
    var half := Half(documents);
    assert 2 * half * percent <= 100 * half;
  }

  /**
   Both branches have exactly half of the documents, rounded down, and they share exactly the requested
   overlap: the exact percentage of all candidates, rounded half up.
   */
  lemma BranchSizes(documents: nat, percent: nat)
    requires percent <= 50
    ensures |Left(documents)| == |Right(documents, percent)| == Half(documents)
    ensures |Left(documents) * Right(documents, percent)| == Requested(documents, percent)
    ensures 2 * Half(documents) * percent - 50 < 100 * |Left(documents) * Right(documents, percent)| <=
              2 * Half(documents) * percent + 50
  {
    var half, overlap := Half(documents), Overlap(documents, percent);
    ClampIsIdle(documents, percent);
    assert Left(documents) == Interval(0, half);
    var low, high := Interval(0, overlap), Interval(half, half + (half - overlap));
    assert Right(documents, percent) == low + high && low * high == {};
    assert Left(documents) * Right(documents, percent) == low;
  }
}
