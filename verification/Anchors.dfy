/**
 Rollback anchors: the monotonic tuple (database identity, commit sequence, generation)
 that the qualification tools observe, advance and certify.
 */
module Anchors {

  /** A `[16]byte` database identity, read as one big-endian number. */
  newtype DatabaseID = x: int | 0 <= x < 0x1_00000000_00000000_00000000_00000000

  const ZERO_ID: DatabaseID := 0

  /** A stored anchor, or its absence. */
  datatype Value = Value(present: bool, databaseID: DatabaseID, commitSequence: nat, generation: nat)

  const ABSENT: Value := Value(false, ZERO_ID, 0, 0)

  /** Both anchors are of one database and `left` is ahead in neither coordinate. */
  predicate BeforeOrEqual(left: Value, right: Value) {
    && left.databaseID == right.databaseID
    && left.commitSequence <= right.commitSequence
    && left.generation <= right.generation
  }

  /** `newer` keeps everything that `older` promises. */
  predicate Covers(newer: Value, older: Value) {
    older.present ==> newer.present && BeforeOrEqual(older, newer)
  }

  lemma CoversTransitive(a: Value, b: Value, c: Value)
    requires Covers(b, a) && Covers(c, b)
    ensures Covers(c, a)
  {
  }
}
