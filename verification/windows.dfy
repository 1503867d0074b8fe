/** Windows of an integer sequence and the table layout shared by the two
    range-query structures (SparseTable/SparseTable.cpp and
    StaticRangeQuery.cpp). Both keep one row per power of two: row i holds,
    for every start j, a summary of the window iv[j .. j + 2^i - 1], and the
    rows are laid end to end in one vector. */
module Windows {

  /** 2^k, the `1 << k` of the sources. */
  function Pow2(k: nat): (r: nat)
    ensures r >= 1
  {
    if k == 0 then 1 else 2 * Pow2(k - 1)
  }

  /** Powers of two grow with the exponent, doubling at each step. */
  lemma {:induction false} Pow2Monotone(j: nat, k: nat)
    requires j <= k
    ensures Pow2(j) <= Pow2(k)
    ensures j < k ==> 2 * Pow2(j) <= Pow2(k)
    decreases k
  {
    if j < k {
      Pow2Monotone(j, k - 1);
    }
  }

  /** std::min: the first argument unless the second is smaller. */
  function Min2(a: int, b: int): int {
    if b < a then b else a
  }

  /** std::max: the first argument unless it is smaller than the second. */
  function Max2(a: int, b: int): int {
    if a < b then b else a
  }

  /** The least value of a non-empty sequence, what std::min_element finds;
      MinOfIsLeast says so. */
  function MinOf(s: seq<int>): int
    requires |s| > 0
  {
    if |s| == 1 then s[0] else Min2(s[0], MinOf(s[1..]))
  }

  /** The greatest value of a non-empty sequence, what std::max_element
      finds; MaxOfIsGreatest says so. */
  function MaxOf(s: seq<int>): int
    requires |s| > 0
  {
    if |s| == 1 then s[0] else Max2(s[0], MaxOf(s[1..]))
  }

  /** MinOf is a lower bound of the sequence and one of its values. */
  lemma {:induction false} MinOfIsLeast(s: seq<int>)
    requires |s| > 0
    ensures forall i :: 0 <= i < |s| ==> MinOf(s) <= s[i]
    ensures exists i :: 0 <= i < |s| && MinOf(s) == s[i]
  {
    if |s| > 1 {
      var t := s[1..];
      MinOfIsLeast(t);
      forall i | 1 <= i < |s| ensures MinOf(t) <= s[i] {
        assert s[i] == t[i - 1];
      }
      var k :| 0 <= k < |t| && MinOf(t) == t[k];
      if MinOf(s) == s[0] {
        assert 0 < |s| && MinOf(s) == s[0];
      } else {
        assert MinOf(s) == s[k + 1];
      }
    } else {
      assert MinOf(s) == s[0];
    }
  }

  /** MaxOf is an upper bound of the sequence and one of its values. */
  lemma {:induction false} MaxOfIsGreatest(s: seq<int>)
    requires |s| > 0
    ensures forall i :: 0 <= i < |s| ==> s[i] <= MaxOf(s)
    ensures exists i :: 0 <= i < |s| && MaxOf(s) == s[i]
  {
    if |s| > 1 {
      var t := s[1..];
      MaxOfIsGreatest(t);
      forall i | 1 <= i < |s| ensures s[i] <= MaxOf(t) {
        assert s[i] == t[i - 1];
      }
      var k :| 0 <= k < |t| && MaxOf(t) == t[k];
      if MaxOf(s) == s[0] {
        assert 0 < |s| && MaxOf(s) == s[0];
      } else {
        assert MaxOf(s) == s[k + 1];
      }
    } else {
      assert MaxOf(s) == s[0];
    }
  }

  /** A value that is below every element and is one of them is the least. */
  lemma MinOfUnique(s: seq<int>, x: int)
    requires |s| > 0
    requires forall i :: 0 <= i < |s| ==> x <= s[i]
    requires exists i :: 0 <= i < |s| && x == s[i]
    ensures x == MinOf(s)
  {
    MinOfIsLeast(s);
  }

  /** A value that is above every element and is one of them is the
      greatest. */
  lemma MaxOfUnique(s: seq<int>, x: int)
    requires |s| > 0
    requires forall i :: 0 <= i < |s| ==> s[i] <= x
    requires exists i :: 0 <= i < |s| && x == s[i]
    ensures x == MaxOf(s)
  {
    MaxOfIsGreatest(s);
  }

  /** Two windows that together cover s[lo .. hi-1], possibly overlapping:
      the least value of the whole is the lesser of their least values. This
      is why a table of power-of-two windows answers any range. */
  lemma MinOfCover(s: seq<int>, lo: int, m1: int, m2: int, hi: int)
    requires 0 <= lo <= m2 <= m1 <= hi <= |s| && lo < m1 && m2 < hi
    ensures MinOf(s[lo..hi]) == Min2(MinOf(s[lo..m1]), MinOf(s[m2..hi]))
  {
    var left, right, whole := s[lo..m1], s[m2..hi], s[lo..hi];
    MinOfIsLeast(left);
    MinOfIsLeast(right);
    var x := Min2(MinOf(left), MinOf(right));
    forall i | 0 <= i < |whole| ensures x <= whole[i] {
      if lo + i < m1 {
        assert whole[i] == left[i];
      } else {
        assert whole[i] == right[lo + i - m2];
      }
    }
    if x == MinOf(left) {
      var k :| 0 <= k < |left| && x == left[k];
      assert whole[k] == x;
    } else {
      var k :| 0 <= k < |right| && x == right[k];
      assert whole[k + m2 - lo] == x;
    }
    MinOfUnique(whole, x);
  }

  lemma MaxOfCover(s: seq<int>, lo: int, m1: int, m2: int, hi: int)
    requires 0 <= lo <= m2 <= m1 <= hi <= |s| && lo < m1 && m2 < hi
    ensures MaxOf(s[lo..hi]) == Max2(MaxOf(s[lo..m1]), MaxOf(s[m2..hi]))
  {
    var left, right, whole := s[lo..m1], s[m2..hi], s[lo..hi];
    MaxOfIsGreatest(left);
    MaxOfIsGreatest(right);
    var x := Max2(MaxOf(left), MaxOf(right));
    forall i | 0 <= i < |whole| ensures whole[i] <= x {
      if lo + i < m1 {
        assert whole[i] == left[i];
      } else {
        assert whole[i] == right[lo + i - m2];
      }
    }
    if x == MaxOf(left) {
      var k :| 0 <= k < |left| && x == left[k];
      assert whole[k] == x;
    } else {
      var k :| 0 <= k < |right| && x == right[k];
      assert whole[k + m2 - lo] == x;
    }
    MaxOfUnique(whole, x);
  }

  /** The least value of the window of `len` values starting at j. */
  function WindowMin(s: seq<int>, j: int, len: int): int
    requires 0 <= j && 0 < len && j + len <= |s|
  {
    MinOf(s[j..j + len])
  }

  /** The greatest value of the window of `len` values starting at j. */
  function WindowMax(s: seq<int>, j: int, len: int): int
    requires 0 <= j && 0 < len && j + len <= |s|
  {
    MaxOf(s[j..j + len])
  }

  /** A range of between w and 2w values is covered by its first and its
      last w values, so its extremes are those of the two windows. */
  lemma WindowCover(s: seq<int>, lo: int, hi: int, w: int)
    requires 0 <= lo && 0 < w <= hi - lo <= 2 * w && hi <= |s|
    ensures MinOf(s[lo..hi]) == Min2(WindowMin(s, lo, w), WindowMin(s, hi - w, w))
    ensures MaxOf(s[lo..hi]) == Max2(WindowMax(s, lo, w), WindowMax(s, hi - w, w))
  {
    MinOfCover(s, lo, lo + w, hi - w, hi);
    MaxOfCover(s, lo, lo + w, hi - w, hi);
  }

  /** GetCumSize of both sources: the number of cells in rows 0 .. p of a
      table over n values, where row i has one cell per window of length
      2^i, that is n - 2^i + 1 cells. Row i therefore starts at cell
      CumSize(n, i - 1). */
  function CumSize(n: int, p: int): (r: int)
    ensures (p < 0 || Pow2(p) <= n + 1) ==> r >= 0
    decreases p
  {
    if p < 0 then 0 else CumSize(n, p - 1) + (n - Pow2(p) + 1)
  }

  /** The rows' sizes add up to (p + 1)(n + 1) + 1 - 2^(p+1). */
  lemma {:induction false} CumSizeClosedForm(n: int, p: int)
    requires p >= -1
    ensures CumSize(n, p) == (p + 1) * (n + 1) + 1 - Pow2(p + 1)
    decreases p + 1
  {
    if p >= 0 {
      CumSizeClosedForm(n, p - 1);
      assert (p + 1) * (n + 1) == p * (n + 1) + (n + 1);
    }
  }

  /** Rows whose windows fit in the input are never empty, so later rows
      start no earlier than earlier ones end. */
  lemma {:induction false} CumSizeMonotone(n: int, a: int, b: int)
    requires -1 <= a <= b
    requires b < 0 || Pow2(b) <= n + 1
    ensures CumSize(n, a) <= CumSize(n, b)
    decreases b - a
  {
    if a < b {
      if b - 1 >= 0 {
        Pow2Monotone(b - 1, b);
      }
      CumSizeMonotone(n, a, b - 1);
    }
  }

  /** The position in the vector of cell j of row i. */
  function Cell(n: int, i: nat, j: int): int {
    CumSize(n, i - 1) + j
  }
}
