/** Integer sums, shared by the potion solvers (amount totals) and the
    prefix-sum array. */
module Sums {

  function Sum(w: seq<int>): int {
    if |w| == 0 then 0 else w[0] + Sum(w[1..])
  }

  /** The sum of a concatenation is the sum of the parts. */
  lemma {:induction false} SumConcat(a: seq<int>, b: seq<int>)
    ensures Sum(a + b) == Sum(a) + Sum(b)
    decreases |a|
  {
    if |a| == 0 {
      assert a + b == b;
    } else {
      assert (a + b)[1..] == a[1..] + b;
      SumConcat(a[1..], b);
    }
  }

  /** A sum of values that are never negative is 0 exactly when every value
      is 0. */
  lemma {:induction false} SumZeroIff(w: seq<int>)
    requires forall i :: 0 <= i < |w| ==> w[i] >= 0
    ensures Sum(w) >= 0
    ensures Sum(w) == 0 <==> forall i :: 0 <= i < |w| ==> w[i] == 0
    decreases |w|
  {
    if |w| > 0 {
      var t := w[1..];
      assert forall i :: 0 <= i < |t| ==> t[i] == w[i + 1];
      SumZeroIff(t);
      if Sum(w) == 0 {
        forall i | 0 <= i < |w| ensures w[i] == 0 {
          if i > 0 {
            assert w[i] == t[i - 1];
          }
        }
      }
    }
  }
}
