/** Evenly spaced page samples, in 64-bit unsigned arithmetic. */
module PageSamples {

  const TWO_64: nat := 0x1_0000_0000_0000_0000

  function Times(a: nat, b: nat): nat { a * b }

  /** `index * (pages - 1) / (limit - 1)`, with the product reduced to 64 bits. */
  function SampleAt(pages: nat, limit: nat, index: nat): nat
    requires 2 <= limit < pages
  {
    Times(index, pages - 1) % TWO_64 / (limit - 1)
  }

  ghost function Samples(pages: nat, limit: nat): (samples: seq<nat>)
    requires 2 <= limit
    ensures |samples| == if pages <= limit then pages else limit
  {
    if pages <= limit then seq(pages, i => i)
    else seq(limit, i requires 0 <= i < limit => SampleAt(pages, limit, i))
  }

  /** The loops that fill the slice by index. */
  method DeterministicPageSamples(pages: nat, limit: nat) returns (samples: array<nat>)
    requires 2 <= limit
    ensures fresh(samples) && samples[..] == Samples(pages, limit)
  {
    if pages <= limit {
      samples := new nat[pages];
      for index := 0 to pages
        invariant forall i | 0 <= i < index :: samples[i] == i
      {
        samples[index] := index;
      }
      return;
    }
    samples := new nat[limit];
    for index := 0 to limit
      invariant forall i | 0 <= i < index :: samples[i] == SampleAt(pages, limit, i)
    {
      samples[index] := SampleAt(pages, limit, index);
    }
  }

  // ---------------------------------------------------------------------------------------
  // Division.
  // ---------------------------------------------------------------------------------------

  lemma Divides(a: nat, n: nat)
    requires 0 < n
    ensures Times(a / n, n) <= a < Times(a / n, n) + n
  {
  }

  lemma TimesMonotone(a: nat, b: nat, n: nat)
    ensures a <= b ==> Times(a, n) <= Times(b, n)
    ensures Times(a, n) < Times(b, n) ==> a < b
  {
  }

  lemma TimesNext(a: nat, n: nat)
    ensures Times(a + 1, n) == Times(a, n) + n
  {
  }

  lemma TimesPlus(a: nat, b: nat, n: nat)
    ensures Times(a + b, n) == Times(a, n) + Times(b, n)
  {
  }

  lemma TimesCommutes(a: nat, b: nat)
    ensures Times(a, b) == Times(b, a)
  {
  }

  /** Adding `d`, which lies between `n` and `c * n`, moves the quotient by at least one and at most `c`. */
  lemma QuotientMoves(a: nat, d: nat, n: nat, c: nat)
    requires 0 < n <= d <= Times(c, n)
    ensures a / n + 1 <= (a + d) / n <= a / n + c
  {
    var q, r := a / n, (a + d) / n;
    Divides(a, n);
    Divides(a + d, n);
    TimesNext(r, n);
    TimesNext(q, n);
    TimesPlus(q + 1, c, n);
    TimesMonotone(q + 1, r + 1, n);
    TimesMonotone(r, q + 1 + c, n);
  }

  lemma QuotientOf(q: nat, n: nat)
    requires 0 < n
    ensures Times(q, n) / n == q
  {
    Divides(Times(q, n), n);
    var r := Times(q, n) / n;
    TimesNext(r, n);
    TimesMonotone(q, r + 1, n);
    TimesMonotone(r, q, n);
    TimesMonotone(q + 1, r, n);
    TimesNext(q, n);
  }

  // ---------------------------------------------------------------------------------------
  // What the samples are good for.
  // ---------------------------------------------------------------------------------------

  /** The largest distance between samples that even spacing allows. */
  function Gap(pages: nat, limit: nat): nat
    requires 2 <= limit && 1 <= pages
  {
    (pages - 1 + limit - 2) / (limit - 1)
  }

  /** Strictly increasing pages of the file from the first to the last, evenly spaced. */
  ghost predicate Spread(samples: seq<nat>, pages: nat, limit: nat)
    requires 2 <= limit && 2 <= pages
  {
    && 2 <= |samples| && samples[0] == 0 && samples[|samples| - 1] == pages - 1
    && (forall i | 0 <= i < |samples| :: samples[i] < pages)
    && (forall i, j | 0 <= i < j < |samples| :: samples[i] < samples[j])
    && (forall i | 0 <= i < |samples| - 1 ::
          samples[i + 1] - samples[i] <= if pages <= limit then 1 else Gap(pages, limit))
  }

  /** No product leaves 64 bits. */
  predicate Fits(pages: nat, limit: nat)
    requires 2 <= limit && 1 <= pages
  {
    pages <= limit || Times(limit - 1, pages - 1) < TWO_64
  }

  lemma GapBounds(pages: nat, limit: nat)
    requires 2 <= limit < pages
    ensures pages - 1 <= Times(Gap(pages, limit), limit - 1)
  {
    Divides(pages - 1 + limit - 2, limit - 1);
  }

  lemma Unreduced(pages: nat, limit: nat, index: nat)
    requires 2 <= limit < pages && index < limit && Fits(pages, limit)
    ensures SampleAt(pages, limit, index) == Times(index, pages - 1) / (limit - 1)
  {
    TimesMonotone(index, limit - 1, pages - 1);
  }

  lemma SampleMoves(pages: nat, limit: nat, index: nat)
    requires 2 <= limit < pages && index + 1 < limit && Fits(pages, limit)
    ensures SampleAt(pages, limit, index) + 1 <= SampleAt(pages, limit, index + 1) <=
              SampleAt(pages, limit, index) + Gap(pages, limit)
  {
    Unreduced(pages, limit, index);
    Unreduced(pages, limit, index + 1);
    TimesNext(index, pages - 1);
    GapBounds(pages, limit);
    QuotientMoves(Times(index, pages - 1), pages - 1, limit - 1, Gap(pages, limit));
  }

  lemma {:induction false} SamplesIncrease(pages: nat, limit: nat, i: nat, j: nat)
    requires 2 <= limit < pages && i < j < limit && Fits(pages, limit)
    ensures SampleAt(pages, limit, i) < SampleAt(pages, limit, j)
    decreases j
  {
    SampleMoves(pages, limit, j - 1);
    if i < j - 1 { SamplesIncrease(pages, limit, i, j - 1); }
  }

  lemma LastSample(pages: nat, limit: nat)
    requires 2 <= limit < pages
    ensures SampleAt(pages, limit, limit - 1) == pages - 1 <==> Fits(pages, limit)
  {
    var product := Times(limit - 1, pages - 1);
    TimesCommutes(limit - 1, pages - 1);
    if product < TWO_64 {
      QuotientOf(pages - 1, limit - 1);
    } else {
      var r := product % TWO_64;
      Divides(r, limit - 1);
      TimesMonotone(pages - 1, r / (limit - 1), limit - 1);
    }
  }

  /** The samples cover the file from its first page to its last exactly if no product overflows 64 bits. */
  lemma SpreadIffFits(pages: nat, limit: nat)
    requires 2 <= limit && 2 <= pages
    ensures Spread(Samples(pages, limit), pages, limit) <==> Fits(pages, limit)
  {
    if limit < pages {
      LastSample(pages, limit);
      if Fits(pages, limit) {
        FittingIsSpread(pages, limit);
      }
    }
  }

  lemma FittingIsSpread(pages: nat, limit: nat)
    requires 2 <= limit < pages && Fits(pages, limit)
    ensures Spread(Samples(pages, limit), pages, limit)
  {
    var samples := Samples(pages, limit);
    LastSample(pages, limit);
    assert SampleAt(pages, limit, 0) == 0 by { Unreduced(pages, limit, 0); }
    forall i, j | 0 <= i < j < limit ensures samples[i] < samples[j] {
      SamplesIncrease(pages, limit, i, j);
    }
    forall i | 0 <= i < limit ensures samples[i] < pages {
      if i < limit - 1 { SamplesIncrease(pages, limit, i, limit - 1); }
    }
    forall i | 0 <= i < limit - 1 ensures samples[i + 1] - samples[i] <= Gap(pages, limit) {
      SampleMoves(pages, limit, i);
    }
  }

  /** Every file whose size is a signed 64-bit number of bytes fits, with at most 128 samples of 4096-byte pages. */
  lemma FilesFit(pages: nat, limit: nat)
    requires 2 <= limit <= 128 && 1 <= pages <= 0x7_FFFF_FFFF_FFFF
    ensures Fits(pages, limit)
  {
    TimesMonotone(limit - 1, 127, pages - 1);
  }

  /**
   Sampling again with the number of samples as the limit gives the same samples, as validation and
   recheck require.
   */
  lemma SamplesAreReproduced(pages: nat, limit: nat)
    requires 2 <= limit && 2 <= pages
    ensures 2 <= |Samples(pages, limit)| <= limit
    ensures Samples(pages, |Samples(pages, limit)|) == Samples(pages, limit)
  {
  }
}
