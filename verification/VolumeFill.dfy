/** Filling a volume to its last block: the halving search of the capacity qualification. */
module VolumeFill {

  const MAX_INT64: nat := 0x7FFF_FFFF_FFFF_FFFF
  const MAX_BLOCK: nat := 0x10_0000
  const FIRST_CHUNK: nat := 0x1000_0000
  const MAX_ATTEMPTS: nat := 1_000_000
  const MAX_HALVINGS: nat := 28

  /** A volume on which an allocation succeeds exactly when it fits. */
  class Volume {
    var free: nat

    constructor (free: nat)
      ensures this.free == free
    {
      this.free := free;
    }

    /** Reserves a range of the fill file; the range must end within a signed 64-bit offset. */
    method Allocate(offset: nat, length: nat) returns (fits: bool)
      requires offset + length <= MAX_INT64
      modifies this
      ensures fits <==> length <= old(free)
      ensures free == old(free) - if fits then length else 0
    {
      fits := length <= free;
      if fits {
        free := free - length;
      }
    }
  }

  datatype FillResult =
    | Filled(allocatedBytes: nat, availableBefore: nat, availableAtENOSPC: nat)
    | InvalidBlockSize
    | OffsetOverflow
    | DeviceError
    | AttemptLimit

  // ---------------------------------------------------------------------------------------
  // Chunk sizes.
  // ---------------------------------------------------------------------------------------

  function InitialChunk(available: nat, blockSize: nat): nat
    requires 0 < blockSize
  {
    var chunk := if FIRST_CHUNK > available then available - available % blockSize else FIRST_CHUNK;
    if chunk < blockSize then blockSize else chunk
  }

  function Halve(chunk: nat, blockSize: nat): nat
    requires 0 < blockSize
  {
    var half := chunk / 2;
    var rounded := half - half % blockSize;
    if rounded < blockSize then blockSize else rounded
  }

  function Blocks(count: nat, blockSize: nat): nat { count * blockSize }

  ghost predicate IsWhole(chunk: nat, blockSize: nat) { exists count: nat :: chunk == Blocks(count, blockSize) }

  /** The chunks the search uses: whole blocks, except possibly the first, which is then many blocks long. */
  ghost predicate ValidChunk(chunk: nat, blockSize: nat) {
    0 < blockSize <= chunk <= FIRST_CHUNK && (IsWhole(chunk, blockSize) || chunk >= 8 * blockSize)
  }

  lemma FewerBlocks(m: nat, k: nat, blockSize: nat)
    ensures m <= k ==> Blocks(m, blockSize) <= Blocks(k, blockSize)
    ensures Blocks(m, blockSize) < Blocks(k, blockSize) ==> m < k
  {
  }

  lemma RoundDown(n: nat, unit: nat)
    requires 0 < unit
    ensures n - n % unit == Blocks(n / unit, unit) && Blocks(n / unit, unit) <= n < Blocks(n / unit, unit) + unit
  {
  }

  lemma InitialChunkIsValid(available: nat, blockSize: nat)
    requires 0 < blockSize <= MAX_BLOCK
    ensures ValidChunk(InitialChunk(available, blockSize), blockSize)
  {
    RoundDown(available, blockSize);
    assert Blocks(1, blockSize) == blockSize;
  }

  /**
   Halving loses at most two thirds of the chunk, whatever the block size: that is why two
   allocations use up what failed to fit.
   */
  lemma HalvingIsGradual(chunk: nat, blockSize: nat)
    requires ValidChunk(chunk, blockSize) && chunk > blockSize
    ensures ValidChunk(Halve(chunk, blockSize), blockSize)
    ensures 2 * Halve(chunk, blockSize) <= chunk <= 3 * Halve(chunk, blockSize)
  {
    RoundDown(chunk / 2, blockSize);
    if IsWhole(chunk, blockSize) {
      WholeHalf(chunk, blockSize);
    }
  }

  lemma WholeHalf(chunk: nat, blockSize: nat)
    requires 0 < blockSize < chunk && IsWhole(chunk, blockSize)
    ensures var rounded := Blocks(chunk / 2 / blockSize, blockSize); blockSize <= rounded && chunk <= 3 * rounded
  {
    var count: nat :| chunk == Blocks(count, blockSize);
    var half := chunk / 2;
    var q := half / blockSize;
    RoundDown(half, blockSize);
    FewerBlocks(1, count, blockSize);
    FewerBlocks(2, count, blockSize);
    FewerBlocks(count, 3, blockSize);
    FewerBlocks(3, count, blockSize);
    FewerBlocks(4, count, blockSize);
    FewerBlocks(1, q, blockSize);
    FewerBlocks(2, q, blockSize);
  }

  function Power2(n: nat): nat { if n == 0 then 1 else 2 * Power2(n - 1) }

  lemma {:induction false} Power2Monotone(m: nat, n: nat)
    requires m <= n
    ensures Power2(m) <= Power2(n)
  {
    if m < n { Power2Monotone(m, n - 1); }
  }

  lemma HalvingsBounded(halvings: nat)
    requires Power2(halvings) <= FIRST_CHUNK
    ensures halvings <= MAX_HALVINGS
  {
    assert Power2(8) == 0x100;
    assert Power2(16) == 0x1_0000;
    assert Power2(24) == 0x100_0000;
    assert Power2(29) == 0x2000_0000;
    if halvings > MAX_HALVINGS { Power2Monotone(29, halvings); }
  }

  // ---------------------------------------------------------------------------------------
  // The search.
  // ---------------------------------------------------------------------------------------

  ghost function Sum(runs: seq<nat>): nat {
    if runs == [] then 0 else Sum(runs[..|runs| - 1]) + runs[|runs| - 1]
  }

  /** The successes before the first halving and after each halving so far: never more than two after a halving. */
  ghost predicate GoodRuns(runs: seq<nat>) {
    runs != [] && forall i | 1 <= i < |runs| :: runs[i] <= 2
  }

  lemma {:induction false} SumBounded(runs: seq<nat>)
    requires GoodRuns(runs)
    ensures Sum(runs) <= runs[0] + 2 * (|runs| - 1)
  {
    if |runs| > 1 {
      SumBounded(runs[..|runs| - 1]);
    } else {
      assert runs[..0] == [];
    }
  }

  /**
   How the search stands: what fits, what has been tried, and how the chunk got there. Once halved, the
   rest together with the successes since the last halving is less than three chunks.
   */
  ghost predicate Searching(total: nat, first: nat, chunk: nat, allocatedBytes: nat, free: nat, attempts: nat,
                            runs: seq<nat>)
  {
    && GoodRuns(runs) && allocatedBytes + free == total
    && attempts == Sum(runs) + |runs| - 1
    && Blocks(runs[0], first) <= total
    && (|runs| == 1 ==> chunk == first && allocatedBytes == Blocks(runs[0], first))
    && (|runs| > 1 ==> free + Blocks(runs[|runs| - 1], chunk) < 3 * chunk)
    && Blocks(chunk, Power2(|runs| - 1)) <= first
  }

  lemma OneMore(count: nat, chunk: nat)
    ensures Blocks(count + 1, chunk) == Blocks(count, chunk) + chunk
  {
  }

  lemma HalfPower(next: nat, chunk: nat, p: nat)
    requires 2 * next <= chunk
    ensures Blocks(next, 2 * p) <= Blocks(chunk, p)
  {
    FewerBlocks(2 * next, chunk, p);
  }

  lemma Succeeds(total: nat, first: nat, chunk: nat, allocatedBytes: nat, free: nat, attempts: nat, runs: seq<nat>)
    requires Searching(total, first, chunk, allocatedBytes, free, attempts, runs) && 0 < chunk <= free
    ensures var n := |runs| - 1;
            Searching(total, first, chunk, allocatedBytes + chunk, free - chunk, attempts + 1, runs[n := runs[n] + 1])
  {
    var n := |runs| - 1;
    var runs' := runs[n := runs[n] + 1];
    assert runs'[..n] == runs[..n];
    OneMore(runs[n], chunk);
    FewerBlocks(runs[n], 2, chunk);
  }

  lemma Halves(total: nat, first: nat, chunk: nat, next: nat, allocatedBytes: nat, free: nat, attempts: nat,
               runs: seq<nat>)
    requires Searching(total, first, chunk, allocatedBytes, free, attempts, runs)
    requires free < chunk && 0 < 2 * next <= chunk <= 3 * next
    ensures Searching(total, first, next, allocatedBytes, free, attempts + 1, runs + [0])
  {
    var runs' := runs + [0];
    assert runs'[..|runs|] == runs;
    HalfPower(next, chunk, Power2(|runs| - 1));
  }

  lemma AttemptsBounded(total: nat, first: nat, chunk: nat, allocatedBytes: nat, free: nat, attempts: nat,
                        runs: seq<nat>)
    requires Searching(total, first, chunk, allocatedBytes, free, attempts, runs) && 0 < chunk
             && 0 < first <= FIRST_CHUNK
    ensures |runs| - 1 <= MAX_HALVINGS
    ensures attempts <= total / first + 3 * MAX_HALVINGS
  {
    FewerBlocks(1, chunk, Power2(|runs| - 1));
    HalvingsBounded(|runs| - 1);
    SumBounded(runs);
    RoundDown(total, first);
    OneMore(total / first, first);
    FewerBlocks(runs[0], total / first + 1, first);
  }

  /**
   The fill. With `total` bytes free at the start: success leaves less than one block free and has
   allocated all the rest; every attempted range ends within a signed 64-bit offset; the successes
   after each halving are at most two; no attempt before the last met a device error, and none at all
   if the fill succeeds; and an error gives the space back.
   */
  method Fill(volume: Volume, blockSize: nat, faulty: nat -> bool)
    returns (r: FillResult, ghost attempts: nat, ghost runs: seq<nat>)
    modifies volume
    ensures r.InvalidBlockSize? <==> !(0 < blockSize <= MAX_BLOCK)
    ensures r.Filled? ==>
              && volume.free < blockSize && r.allocatedBytes + volume.free == old(volume.free)
              && r.availableBefore == old(volume.free) && r.availableAtENOSPC == volume.free
              && r.allocatedBytes <= MAX_INT64
              && GoodRuns(runs)
              && attempts <= old(volume.free) / InitialChunk(old(volume.free), blockSize) + 3 * MAX_HALVINGS + 1
    ensures !r.Filled? ==> volume.free == old(volume.free)
    ensures r.OffsetOverflow? ==> old(volume.free) + FIRST_CHUNK > MAX_INT64
    ensures attempts <= MAX_ATTEMPTS && forall k | 0 <= k < attempts :: !faulty(k)
    ensures r.DeviceError? ==> attempts < MAX_ATTEMPTS && faulty(attempts)
    ensures r.AttemptLimit? ==>
              old(volume.free) / InitialChunk(old(volume.free), blockSize) >= MAX_ATTEMPTS - 3 * MAX_HALVINGS
  {
    attempts, runs := 0, [0];
    if blockSize == 0 || blockSize > MAX_BLOCK {
      return InvalidBlockSize, attempts, runs;
    }
    var before := volume.free;
    var chunk: nat := InitialChunk(before, blockSize);
    var allocatedBytes: nat := 0;
    ghost var first: nat := chunk;
    InitialChunkIsValid(before, blockSize);
    assert runs[..0] == [];
    for attempt := 0 to MAX_ATTEMPTS
      invariant attempt == attempts && ValidChunk(chunk, blockSize)
      invariant Searching(before, first, chunk, allocatedBytes, volume.free, attempts, runs)
      invariant allocatedBytes <= MAX_INT64 && forall k | 0 <= k < attempt :: !faulty(k)
    {
      AttemptsBounded(before, first, chunk, allocatedBytes, volume.free, attempts, runs);
      if allocatedBytes > MAX_INT64 || chunk > MAX_INT64 - allocatedBytes {
        volume.free := volume.free + allocatedBytes;
        return OffsetOverflow, attempts, runs;
      }
      if faulty(attempt) {
        volume.free := volume.free + allocatedBytes;
        return DeviceError, attempts, runs;
      }
      var fits := volume.Allocate(allocatedBytes, chunk);
      if fits {
        Succeeds(before, first, chunk, allocatedBytes, volume.free + chunk, attempts, runs);
        allocatedBytes := allocatedBytes + chunk;
        runs := runs[|runs| - 1 := runs[|runs| - 1] + 1];
        attempts := attempts + 1;
      } else if chunk > blockSize {
        HalvingIsGradual(chunk, blockSize);
        Halves(before, first, chunk, Halve(chunk, blockSize), allocatedBytes, volume.free, attempts, runs);
        chunk := Halve(chunk, blockSize);
        runs := runs + [0];
        attempts := attempts + 1;
      } else {
        attempts := attempts + 1;
        return Filled(allocatedBytes, before, volume.free), attempts, runs;
      }
    }
    AttemptsBounded(before, first, chunk, allocatedBytes, volume.free, attempts, runs);
    volume.free := volume.free + allocatedBytes;
    r := AttemptLimit;
  }
}
