/** Counting facts about finite sets and about sequences without repetition. */
module Permutations {

  lemma {:induction false} SubsetSize<T>(a: set<T>, b: set<T>)
    requires a <= b
    ensures |a| <= |b|
    ensures |a| == |b| ==> a == b
  {
    if a == {} {
    } else {
      var x :| x in a;
      SubsetSize(a - {x}, b - {x});
    }
  }

  predicate Increasing(values: seq<nat>) { forall i, j | 0 <= i < j < |values| :: values[i] < values[j] }

  ghost function Below(n: nat): (s: set<nat>)
    ensures |s| == n
    ensures forall i: nat :: i in s <==> i < n
  {
    if n == 0 then {} else Below(n - 1) + {n - 1}
  }

  ghost function Elements(order: seq<nat>): (s: set<nat>)
    ensures forall i: nat :: i in s <==> i in order
  {
    set i | i in order
  }

  lemma {:induction false} DistinctSize(order: seq<nat>)
    requires forall i, j | 0 <= i < j < |order| :: order[i] != order[j]
    ensures |Elements(order)| == |order|
  {
    if order == [] {
    } else {
      var rest, last := order[..|order| - 1], order[|order| - 1];
      DistinctSize(rest);
      assert Elements(order) == Elements(rest) + {last};
      assert last !in rest;
    }
  }

  /** Distinct numbers below `n` are all the numbers below `n` exactly when there are `n` of them. */
  lemma OrderCovers(n: nat, order: seq<nat>)
    requires forall i | 0 <= i < |order| :: order[i] < n
    requires forall i, j | 0 <= i < j < |order| :: order[i] != order[j]
    ensures |order| == n <==> forall i: nat | i < n :: i in order
  {
    DistinctSize(order);
    assert Elements(order) <= Below(n);
    SubsetSize(Elements(order), Below(n));
    if |order| == n {
      forall i: nat | i < n ensures i in order { assert i in Below(n); }
    }
    if forall i: nat | i < n :: i in order {
      forall i | i in Below(n) ensures i in Elements(order) { }
      assert Elements(order) == Below(n);
    }
  }

  /** Two sets that together outnumber the members share a member. */
  lemma MajoritiesMeet(n: nat, a: set<nat>, b: set<nat>) returns (m: nat)
    requires a <= Below(n) && b <= Below(n) && |a| + |b| > n
    ensures m in a && m in b
  {
    if a * b == {} {
      assert |a + b| == |a| + |b|;
      SubsetSize(a + b, Below(n));
    }
    m :| m in a * b;
  }
}
