/** The prefix-sum array of PrefixSumArray.cpp: v[i] is the sum of the input
    up to and including position i, so the sum of any range is the
    difference of two entries. */
module PrefixSum {
  import opened Sums

  /** v is the prefix-sum array of iv. */
  ghost predicate IsPrefixSums(v: seq<int>, iv: seq<int>) {
    |v| == |iv| && forall i :: 0 <= i < |iv| ==> v[i] == Sum(iv[..i + 1])
  }

  /** The constructor: a vector of |iv| entries, left as it is for an empty
      input, otherwise filled by running totals. */
  method Build(iv: seq<int>) returns (v: seq<int>)
    ensures IsPrefixSums(v, iv)
  {
    v := seq(|iv|, _ => 0);
    if |iv| <= 0 {
      return;
    }
    v := v[0 := iv[0]];
    assert iv[..1] == [iv[0]];
    var i := 1;
    while i < |iv|
      invariant 1 <= i <= |iv|
      invariant |v| == |iv|
      invariant forall k :: 0 <= k < i ==> v[k] == Sum(iv[..k + 1])
    {
      assert iv[..i + 1] == iv[..i] + [iv[i]];
      SumConcat(iv[..i], [iv[i]]);
      v := v[i := v[i - 1] + iv[i]];
      i := i + 1;
    }
  }

  /** The prefix sums determine the input: each value is the difference of
      two neighbouring entries. */
  lemma Differences(v: seq<int>, iv: seq<int>)
    requires IsPrefixSums(v, iv)
    ensures forall i :: 0 < i < |iv| ==> iv[i] == v[i] - v[i - 1]
    ensures |iv| > 0 ==> iv[0] == v[0]
  {
    forall i | 0 < i < |iv| ensures iv[i] == v[i] - v[i - 1] {
      assert iv[..i + 1] == iv[..i] + [iv[i]];
      SumConcat(iv[..i], [iv[i]]);
    }
    if |iv| > 0 {
      assert v[0] == Sum(iv[..1]);
      assert iv[..1] == [iv[0]];
      assert [iv[0]][1..] == [];
      assert Sum([iv[0]]) == iv[0] + Sum([]);
    }
  }

  /** RangeSumQuery: v[r] less v[l - 1] when l is positive. For l .. r a
      range of the input this is its sum; a negative l counts from 0, and an
      l past r + 1 gives the negated sum of the values between. */
  method RangeSumQuery(v: seq<int>, ghost iv: seq<int>, l: int, r: int) returns (rsum: int)
    requires IsPrefixSums(v, iv)
    requires 0 <= r < |v| && l <= |v|
    ensures 0 <= l <= r + 1 ==> rsum == Sum(iv[l..r + 1])
    ensures l < 0 ==> rsum == Sum(iv[..r + 1])
    ensures l <= 0 ==> rsum == v[r]
    ensures r + 1 < l ==> rsum == -Sum(iv[r + 1..l])
  {
    rsum := v[r];
    if l > 0 {
      rsum := rsum - v[l - 1];
    }
    if 0 <= l <= r + 1 {
      assert iv[..l] + iv[l..r + 1] == iv[..r + 1];
      SumConcat(iv[..l], iv[l..r + 1]);
    }
    if r + 1 < l {
      assert iv[..r + 1] + iv[r + 1..l] == iv[..l];
      SumConcat(iv[..r + 1], iv[r + 1..l]);
    }
  }

  /** The three queries of PrefixSumArray.cpp's main over 1 .. 8. */
  method Sample() returns (sums: seq<int>)
    ensures sums == [15, 14, 36]
  {
    var iv := [1, 2, 3, 4, 5, 6, 7, 8];
    var v := Build(iv);
    var a := RangeSumQuery(v, iv, 3, 5);
    var b := RangeSumQuery(v, iv, 1, 4);
    var c := RangeSumQuery(v, iv, 0, 7);
    assert iv[3..6] == [4, 5, 6];
    assert iv[1..5] == [2, 3, 4, 5];
    assert iv[0..8] == iv;
    assert Sum([4, 5, 6]) == 15;
    assert Sum([2, 3, 4, 5]) == 14;
    assert Sum(iv) == 36;
    sums := [a, b, c];
  }
}
