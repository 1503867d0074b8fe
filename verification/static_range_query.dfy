/** The range minimum-and-maximum table of StaticRangeQuery.cpp. It has the
    layout of the sparse table, but every cell holds a (minimum, maximum)
    pair, its Log2 is the floor of the logarithm (-1 for no values), an
    empty input is allowed, and a one-value query short-cuts to row 0. */
module StaticRangeQuery {
  import opened Windows

  /** The table: the input length n and the rows of pairs laid end to end. */
  datatype Table = Table(n: int, v: seq<(int, int)>)

  /** The loop of Log2, from exponent p on: it steps while the next power of
      two still fits in num. */
  function Log2From(num: int, p: int): (r: int)
    requires p >= -1
    requires p == -1 || Pow2(p) <= num
    ensures p <= r
    ensures r == -1 || Pow2(r) <= num
    ensures num < Pow2(r + 1)
    decreases num - Pow2(p + 1)
  {
    if Pow2(p + 1) <= num then Log2From(num, p + 1) else p
  }

  /** Log2: the floor of the base-two logarithm, and -1 when num has no
      value to count. */
  function Log2(num: int): (p: int)
    ensures num <= 0 ==> p == -1
    ensures num >= 1 ==> 0 <= p && Pow2(p) <= num < Pow2(p + 1)
  {
    Log2From(num, -1)
  }

  /** Only one exponent brackets num that way. */
  lemma Log2Unique(num: int, q: nat)
    requires Pow2(q) <= num < Pow2(q + 1)
    ensures Log2(num) == q
  {
    var p := Log2(num);
    if p < q {
      Pow2Monotone(p + 1, q);
    } else if q < p {
      Pow2Monotone(q + 1, p);
    }
  }

  /** At exact powers of two the answer is the exponent itself. */
  lemma Log2OfPowerOfTwo(k: nat)
    ensures Log2(Pow2(k)) == k
  {
    assert Pow2(k + 1) == 2 * Pow2(k);
    Log2Unique(Pow2(k), k);
  }

  /** A longer range never needs a lower row. */
  lemma Log2Monotone(a: int, b: int)
    requires 0 < a <= b
    ensures Log2(a) <= Log2(b)
  {
    var pa, pb := Log2(a), Log2(b);
    if pb < pa {
      Pow2Monotone(pb + 1, pa);
    }
  }

  /** Row i is in place: its cells lie inside v and cell j holds the minimum
      and the maximum of iv[j .. j + 2^i - 1]. */
  ghost predicate RowHolds(v: seq<(int, int)>, iv: seq<int>, i: nat) {
    Pow2(i) <= |iv| && CumSize(|iv|, i) <= |v| &&
    forall j :: 0 <= j <= |iv| - Pow2(i) ==>
      v[Cell(|iv|, i, j)] == (WindowMin(iv, j, Pow2(i)), WindowMax(iv, j, Pow2(i)))
  }

  /** The vector has the length the constructor gives it. */
  predicate Sized(t: Table) {
    t.n >= 0 && |t.v| == CumSize(t.n, Log2(t.n))
  }

  /** t is the table of iv: every row up to Log2(n) is in place. */
  ghost predicate Holds(t: Table, iv: seq<int>) {
    t.n == |iv| && Sized(t) &&
    forall i :: 0 <= i <= Log2(t.n) ==> RowHolds(t.v, iv, i)
  }

  /** A row stays in place when no cell before `bound` changes. */
  lemma RowKept(v0: seq<(int, int)>, v: seq<(int, int)>, iv: seq<int>, i: nat, bound: int)
    requires RowHolds(v0, iv, i)
    requires CumSize(|iv|, i) <= bound <= |v0| == |v|
    requires forall c :: 0 <= c < bound ==> v[c] == v0[c]
    ensures RowHolds(v, iv, i)
  {
    forall j | 0 <= j <= |iv| - Pow2(i)
      ensures v[Cell(|iv|, i, j)] == (WindowMin(iv, j, Pow2(i)), WindowMax(iv, j, Pow2(i)))
    {
      assert Cell(|iv|, i, j) < CumSize(|iv|, i);
    }
  }

  /** The two cells of row i - 1 that the constructor combines for cell j
      of row i lie before row i, and combining them gives the extremes of the
      window of 2^i values starting at j. */
  lemma RowStep(v: seq<(int, int)>, iv: seq<int>, i: nat, beg: int, j: int)
    requires 1 <= i && Pow2(i) <= |iv|
    requires beg == CumSize(|iv|, i - 2)
    requires RowHolds(v, iv, i - 1)
    requires 0 <= j <= |iv| - Pow2(i)
    ensures 0 <= beg + j && beg + j + Pow2(i - 1) < CumSize(|iv|, i - 1)
    ensures var a, b := v[beg + j], v[beg + j + Pow2(i - 1)];
      (Min2(a.0, b.0), Max2(a.1, b.1)) == (WindowMin(iv, j, Pow2(i)), WindowMax(iv, j, Pow2(i)))
  {
    var n, pw2 := |iv|, Pow2(i - 1);
    assert Pow2(i) == 2 * pw2;
    assert Cell(n, i - 1, j) == beg + j;
    assert Cell(n, i - 1, j + pw2) == beg + j + pw2;
    WindowCover(iv, j, j + Pow2(i), pw2);
  }

  /** Row i is in place once its cells, from `end` on, hold their extremes. */
  lemma RowFromCells(v: seq<(int, int)>, iv: seq<int>, i: nat, end: int)
    requires Pow2(i) <= |iv| && CumSize(|iv|, i) <= |v|
    requires end == CumSize(|iv|, i - 1)
    requires forall k :: 0 <= k <= |iv| - Pow2(i) ==>
      v[end + k] == (WindowMin(iv, k, Pow2(i)), WindowMax(iv, k, Pow2(i)))
    ensures RowHolds(v, iv, i)
  {
    forall j | 0 <= j <= |iv| - Pow2(i)
      ensures v[Cell(|iv|, i, j)] == (WindowMin(iv, j, Pow2(i)), WindowMax(iv, j, Pow2(i)))
    {
      assert Cell(|iv|, i, j) == end + j;
    }
  }

  /** One pass of the constructor's inner loop: row i from row i - 1, whose
      cells start at beg; row i starts at end. */
  method BuildRow(v0: seq<(int, int)>, iv: seq<int>, i: nat, beg: int, end: int)
    returns (v: seq<(int, int)>)
    requires 1 <= i && Pow2(i) <= |iv|
    requires beg == CumSize(|iv|, i - 2) && end == CumSize(|iv|, i - 1)
    requires CumSize(|iv|, i) <= |v0|
    requires RowHolds(v0, iv, i - 1)
    ensures |v| == |v0|
    ensures forall c :: 0 <= c < end ==> v[c] == v0[c]
    ensures RowHolds(v, iv, i)
  {
    var n := |iv|;
    var sz := n - Pow2(i) + 1;
    var pw2 := Pow2(i - 1);
    v := v0;
    var j := 0;
    while j < sz
      invariant 0 <= j <= sz
      invariant |v| == |v0|
      invariant forall c :: 0 <= c < end ==> v[c] == v0[c]
      invariant forall k :: 0 <= k < j ==>
        v[end + k] == (WindowMin(iv, k, Pow2(i)), WindowMax(iv, k, Pow2(i)))
    {
      RowStep(v0, iv, i, beg, j);
      var val1 := v[beg + j];
      var val2 := v[beg + j + pw2];
      v := v[end + j := (Min2(val1.0, val2.0), Max2(val1.1, val2.1))];
      j := j + 1;
    }
    RowFromCells(v, iv, i, end);
  }

  /** A vector that starts with every input value paired with itself holds
      row 0. */
  lemma RowZero(v: seq<(int, int)>, iv: seq<int>)
    requires 0 < |iv| <= |v|
    requires forall k :: 0 <= k < |iv| ==> v[k] == (iv[k], iv[k])
    ensures RowHolds(v, iv, 0)
  {
    forall j | 0 <= j < |iv| ensures v[Cell(|iv|, 0, j)] == (WindowMin(iv, j, 1), WindowMax(iv, j, 1)) {
      assert iv[j..j + 1] == [iv[j]];
    }
  }

  /** Rows 0 .. i - 1 lie before `end`, so they survive the pass that
      builds row i, which changes nothing there. */
  lemma RowsKept(v0: seq<(int, int)>, v: seq<(int, int)>, iv: seq<int>, i: nat, end: int)
    requires 1 <= i && Pow2(i - 1) <= |iv| && end == CumSize(|iv|, i - 1)
    requires |v0| == |v| && end <= |v|
    requires forall r :: 0 <= r < i ==> RowHolds(v0, iv, r)
    requires forall c :: 0 <= c < end ==> v[c] == v0[c]
    requires RowHolds(v, iv, i)
    ensures forall r :: 0 <= r <= i ==> RowHolds(v, iv, r)
  {
    forall r | 0 <= r < i ensures RowHolds(v, iv, r) {
      Pow2Monotone(r, i - 1);
      CumSizeMonotone(|iv|, r, i - 1);
      RowKept(v0, v, iv, r, end);
    }
  }

  /** The constructor: row 0 pairs every value with itself in a vector sized
      for rows 0 .. Log2(n), then each further row is built from the one
      before. An empty input gives an empty table. */
  method Build(iv: seq<int>) returns (t: Table)
    ensures Holds(t, iv)
  {
    var n: int := |iv|;
    var p := Log2(n);
    var sz := CumSize(n, p);
    if n > 0 {
      CumSizeMonotone(n, 0, p);
    }
    var v := seq(n, k requires 0 <= k < n => (iv[k], iv[k])) + seq(sz - n, _ => (0, 0));
    if n > 0 {
      RowZero(v, iv);
    }
    var beg: int, end: int := 0, n;
    var i: int := 1;
    while i <= p
      invariant 1 <= i && (p < 0 || i <= p + 1)
      invariant beg == CumSize(n, i - 2) && end == CumSize(n, i - 1)
      invariant |v| == sz
      invariant forall r :: 0 <= r < i && r <= p ==> RowHolds(v, iv, r)
    {
      Pow2Monotone(i, p);
      CumSizeMonotone(n, i, p);
      var v0 := v;
      v := BuildRow(v0, iv, i, beg, end);
      RowsKept(v0, v, iv, i, end);
      assert CumSize(n, i) == end + (n - Pow2(i) + 1);
      beg := end;
      end := end + (n - Pow2(i) + 1);
      i := i + 1;
    }
    t := Table(n, v);
  }

  /** Row 0 of a built table pairs every input value with itself. */
  lemma RowZeroPairs(t: Table, iv: seq<int>)
    requires Holds(t, iv)
    ensures |iv| <= |t.v|
    ensures forall k :: 0 <= k < |iv| ==> t.v[k] == (iv[k], iv[k])
  {
    if |iv| > 0 {
      assert RowHolds(t.v, iv, 0);
      CumSizeMonotone(t.n, 0, Log2(t.n));
      forall k | 0 <= k < |iv| ensures t.v[k] == (iv[k], iv[k]) {
        assert Cell(t.n, 0, k) == k;
        assert iv[k..k + 1] == [iv[k]];
      }
    }
  }

  /** Row p = Log2(sz) of a table over n >= sz values exists: its windows
      fit in the input and its cells lie inside the vector. */
  lemma RowFits(n: int, sz: int)
    requires 0 < sz <= n
    ensures var p := Log2(sz);
      0 <= p && Pow2(p) <= sz < 2 * Pow2(p) &&
      0 <= CumSize(n, p - 1) && CumSize(n, p) <= CumSize(n, Log2(n))
  {
    var p := Log2(sz);
    Log2Monotone(sz, n);
    Pow2Monotone(p, Log2(n));
    CumSizeMonotone(n, p, Log2(n));
    if p > 0 {
      Pow2Monotone(p - 1, p);
    }
  }

  /** GetIndices: with p = Log2 of the range length, the two windows of
      length 2^p that start at beg and end at end cover the range, and the
      result is their cells in row p, both inside the vector. The one-value
      short cut returns the same cells as the general formula. */
  function GetIndices(t: Table, beg: int, end: int): (r: (int, int))
    requires Sized(t)
    requires 0 <= beg <= end < t.n
    ensures 0 <= r.0 <= r.1 < |t.v|
    ensures beg == end ==> r == (beg, end)
    ensures var p := Log2(end - beg + 1);
      0 <= p && Pow2(p) <= end - beg + 1 < 2 * Pow2(p) &&
      r.0 == Cell(t.n, p, beg) && r.1 == Cell(t.n, p, end - Pow2(p) + 1)
  {
    var p := Log2(end - beg + 1);
    RowFits(t.n, end - beg + 1);
    if beg == end then
      Log2OfPowerOfTwo(0);
      (beg, end)
    else
      (Cell(t.n, p, beg), Cell(t.n, p, end - Pow2(p) + 1))
  }

  /** The two cells GetIndices picks hold the extremes of the first and the
      last 2^p values of the range, and together give the range's extremes. */
  lemma QueryCells(t: Table, iv: seq<int>, beg: int, end: int)
    requires Holds(t, iv)
    requires 0 <= beg <= end < t.n
    ensures var pr := GetIndices(t, beg, end);
      MinOf(iv[beg..end + 1]) == Min2(t.v[pr.0].0, t.v[pr.1].0) &&
      MaxOf(iv[beg..end + 1]) == Max2(t.v[pr.0].1, t.v[pr.1].1)
  {
    var pr := GetIndices(t, beg, end);
    var p, hi := Log2(end - beg + 1), end + 1;
    var w := Pow2(p);
    WindowCover(iv, beg, hi, w);
    Log2Monotone(end - beg + 1, t.n);
    assert RowHolds(t.v, iv, p);
    var a, b := t.v[pr.0], t.v[pr.1];
    assert a == (WindowMin(iv, beg, w), WindowMax(iv, beg, w));
    assert b == (WindowMin(iv, hi - w, w), WindowMax(iv, hi - w, w)) by {
      assert pr.1 == Cell(t.n, p, hi - w);
    }
  }

  /** Min: the least of iv[beg .. end], what std::min_element finds. */
  method Min(t: Table, ghost iv: seq<int>, beg: int, end: int) returns (ans: int)
    requires Holds(t, iv)
    requires 0 <= beg <= end < t.n
    ensures ans == MinOf(iv[beg..end + 1])
  {
    var pr := GetIndices(t, beg, end);
    ans := t.v[pr.0].0;
    if pr.0 != pr.1 {
      ans := Min2(ans, t.v[pr.1].0);
    }
    QueryCells(t, iv, beg, end);
  }

  /** Max: the greatest of iv[beg .. end], what std::max_element finds. */
  method Max(t: Table, ghost iv: seq<int>, beg: int, end: int) returns (ans: int)
    requires Holds(t, iv)
    requires 0 <= beg <= end < t.n
    ensures ans == MaxOf(iv[beg..end + 1])
  {
    var pr := GetIndices(t, beg, end);
    ans := t.v[pr.0].1;
    if pr.0 != pr.1 {
      ans := Max2(ans, t.v[pr.1].1);
    }
    QueryCells(t, iv, beg, end);
  }
}
