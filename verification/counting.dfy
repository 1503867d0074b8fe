/** Sizes of finite sets of vertex and constraint numbers. */
module Counting {

  /** The numbers 0 .. n-1. */
  function Range(n: int): (s: set<int>)
    ensures forall v :: v in s <==> 0 <= v < n
    decreases n
  {
    if n <= 0 then {} else Range(n - 1) + {n - 1}
  }

  lemma {:induction false} RangeCard(n: nat)
    ensures |Range(n)| == n
  {
    if n > 0 {
      RangeCard(n - 1);
    }
  }

  /** A subset is no larger than its superset, and as large only when equal. */
  lemma SubsetCard(a: set<int>, b: set<int>)
    requires a <= b
    ensures |a| <= |b|
    ensures |a| == |b| ==> a == b
  {
    assert b == a + (b - a);
    assert a * (b - a) == {};
    if |a| == |b| {
      assert |b - a| == 0;
    }
  }

  /** A set of numbers below `n` has at most `n` members, and exactly `n`
      only when it is all of them. */
  lemma BoundedCard(a: set<int>, n: nat)
    requires forall v :: v in a ==> 0 <= v < n
    ensures |a| <= n
    ensures |a| == n ==> a == Range(n)
  {
    RangeCard(n);
    SubsetCard(a, Range(n));
  }
}
