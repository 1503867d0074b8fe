/** The range-minimum sparse table of SparseTable/SparseTable.cpp. Row 0 is a
    copy of the input; row i holds the minimum of every window of 2^i values,
    each the lesser of two cells of row i - 1. A query on beg .. end reads two
    cells of one row whose windows cover the range from both ends. */
module SparseTable {
  import opened Windows

  /** The table: the input length n and the rows laid end to end in v. */
  datatype Table = Table(n: int, v: seq<int>)

  /** The loop of SparseTable.cpp's Log2, from exponent p on: it doubles
      while twice the current power is still below sz. */
  function Log2From(sz: int, p: nat): (r: nat)
    requires 0 < sz
    requires p == 0 || Pow2(p) < sz
    ensures p <= r
    ensures r == 0 || Pow2(r) < sz
    ensures sz <= 2 * Pow2(r)
    decreases sz - Pow2(p)
  {
    if 2 * Pow2(p) < sz then Log2From(sz, p + 1) else p
  }

  /** Log2 of SparseTable.cpp. It is the p with 2^p < sz <= 2^(p+1) (and 0
      for a single value), one less than the floor of the logarithm at exact
      powers of two; see Log2OfPowerOfTwo. */
  function Log2(sz: int): (p: nat)
    requires 0 < sz
    ensures sz == 1 ==> p == 0
    ensures sz >= 2 ==> Pow2(p) < sz <= Pow2(p + 1)
  {
    Log2From(sz, 0)
  }

  /** Only one exponent brackets sz that way. */
  lemma Log2Unique(sz: int, q: nat)
    requires sz >= 2 && Pow2(q) < sz <= Pow2(q + 1)
    ensures Log2(sz) == q
  {
    var p := Log2(sz);
    if p < q {
      Pow2Monotone(p, q);
    } else if q < p {
      Pow2Monotone(q, p);
    }
  }

  /** At sz = 2^(q+1) the function answers q, not the q + 1 of "the highest
      p with 2^p <= sz". */
  lemma Log2OfPowerOfTwo(q: nat)
    ensures Log2(Pow2(q + 1)) == q
  {
    assert Pow2(q + 1) == 2 * Pow2(q);
    Log2Unique(Pow2(q + 1), q);
  }

  /** A longer range never needs a lower row. */
  lemma Log2Monotone(a: int, b: int)
    requires 0 < a <= b
    ensures Log2(a) <= Log2(b)
  {
    var pa, pb := Log2(a), Log2(b);
    if pb < pa {
      Pow2Monotone(pb, pa);
    }
  }

  /** Row i is in place: its cells lie inside v and cell j holds the minimum
      of iv[j .. j + 2^i - 1]. */
  ghost predicate RowHolds(v: seq<int>, iv: seq<int>, i: nat) {
    Pow2(i) <= |iv| && CumSize(|iv|, i) <= |v| &&
    forall j :: 0 <= j <= |iv| - Pow2(i) ==> v[Cell(|iv|, i, j)] == WindowMin(iv, j, Pow2(i))
  }

  /** The vector has the length the constructor gives it. */
  predicate Sized(t: Table) {
    t.n > 0 && |t.v| == CumSize(t.n, Log2(t.n))
  }

  /** t is the table of iv: every row up to Log2(n) is in place. */
  ghost predicate Holds(t: Table, iv: seq<int>) {
    t.n == |iv| && Sized(t) &&
    forall i :: 0 <= i <= Log2(t.n) ==> RowHolds(t.v, iv, i)
  }

  /** A row stays in place when no cell before `bound` changes. */
  lemma RowKept(v0: seq<int>, v: seq<int>, iv: seq<int>, i: nat, bound: int)
    requires RowHolds(v0, iv, i)
    requires CumSize(|iv|, i) <= bound <= |v0| == |v|
    requires forall c :: 0 <= c < bound ==> v[c] == v0[c]
    ensures RowHolds(v, iv, i)
  {
    forall j | 0 <= j <= |iv| - Pow2(i)
      ensures v[Cell(|iv|, i, j)] == WindowMin(iv, j, Pow2(i))
    {
      assert Cell(|iv|, i, j) < CumSize(|iv|, i);
    }
  }

  /** The two cells of row i - 1 that the constructor combines for cell j
      of row i lie before row i, and their lesser value is the minimum of the
      window of 2^i values starting at j. */
  lemma RowStep(v: seq<int>, iv: seq<int>, i: nat, beg: int, j: int)
    requires 1 <= i && Pow2(i) <= |iv|
    requires beg == CumSize(|iv|, i - 2)
    requires RowHolds(v, iv, i - 1)
    requires 0 <= j <= |iv| - Pow2(i)
    ensures 0 <= beg + j && beg + j + Pow2(i - 1) < CumSize(|iv|, i - 1)
    ensures Min2(v[beg + j], v[beg + j + Pow2(i - 1)]) == WindowMin(iv, j, Pow2(i))
  {
    var n, pw2 := |iv|, Pow2(i - 1);
    assert Pow2(i) == 2 * pw2;
    assert Cell(n, i - 1, j) == beg + j;
    assert Cell(n, i - 1, j + pw2) == beg + j + pw2;
    WindowCover(iv, j, j + Pow2(i), pw2);
  }

  /** Row i is in place once its cells, from `end` on, hold their minima. */
  lemma RowFromCells(v: seq<int>, iv: seq<int>, i: nat, end: int)
    requires Pow2(i) <= |iv| && CumSize(|iv|, i) <= |v|
    requires end == CumSize(|iv|, i - 1)
    requires forall k :: 0 <= k <= |iv| - Pow2(i) ==> v[end + k] == WindowMin(iv, k, Pow2(i))
    ensures RowHolds(v, iv, i)
  {
    forall j | 0 <= j <= |iv| - Pow2(i) ensures v[Cell(|iv|, i, j)] == WindowMin(iv, j, Pow2(i)) {
      assert Cell(|iv|, i, j) == end + j;
    }
  }

  /** One pass of the constructor's inner loop: row i from row i - 1, whose
      cells start at beg; row i starts at end. */
  method BuildRow(v0: seq<int>, iv: seq<int>, i: nat, beg: int, end: int) returns (v: seq<int>)
    requires 1 <= i && Pow2(i) <= |iv|
    requires beg == CumSize(|iv|, i - 2) && end == CumSize(|iv|, i - 1)
    requires CumSize(|iv|, i) <= |v0|
    requires RowHolds(v0, iv, i - 1)
    ensures |v| == |v0|
    ensures forall c :: 0 <= c < end ==> v[c] == v0[c]
    ensures RowHolds(v, iv, i)
  {
    var n := |iv|;
    var sz := n - Pow2(i) + 1;
    var pw2 := Pow2(i - 1);
    v := v0;
    var j := 0;
    while j < sz
      invariant 0 <= j <= sz
      invariant |v| == |v0|
      invariant forall c :: 0 <= c < end ==> v[c] == v0[c]
      invariant forall k :: 0 <= k < j ==> v[end + k] == WindowMin(iv, k, Pow2(i))
    {
      RowStep(v0, iv, i, beg, j);
      v := v[end + j := Min2(v[beg + j], v[beg + j + pw2])];
      j := j + 1;
    }
    RowFromCells(v, iv, i, end);
  }

  /** A vector that starts with a copy of the input holds row 0. */
  lemma RowZero(v: seq<int>, iv: seq<int>)
    requires 0 < |iv| <= |v| && v[..|iv|] == iv
    ensures RowHolds(v, iv, 0)
  {
    forall j | 0 <= j < |iv| ensures v[Cell(|iv|, 0, j)] == WindowMin(iv, j, 1) {
      assert v[j] == v[..|iv|][j];
      assert iv[j..j + 1] == [iv[j]];
    }
  }

  /** Rows 0 .. i - 1 lie before `end`, so they survive the pass that
      builds row i, which changes nothing there. */
  lemma RowsKept(v0: seq<int>, v: seq<int>, iv: seq<int>, i: nat, end: int)
    requires 1 <= i && Pow2(i - 1) <= |iv| && end == CumSize(|iv|, i - 1)
    requires |v0| == |v| && end <= |v|
    requires forall r :: 0 <= r < i ==> RowHolds(v0, iv, r)
    requires forall c :: 0 <= c < end ==> v[c] == v0[c]
    requires RowHolds(v, iv, i)
    ensures forall r :: 0 <= r <= i ==> RowHolds(v, iv, r)
  {
    forall r | 0 <= r < i ensures RowHolds(v, iv, r) {
      Pow2Monotone(r, i - 1);
      CumSizeMonotone(|iv|, r, i - 1);
      RowKept(v0, v, iv, r, end);
    }
  }

  /** The constructor: row 0 copies the input into a vector sized for rows
      0 .. Log2(n), then each further row is built from the one before. */
  method Build(iv: seq<int>) returns (t: Table)
    requires |iv| > 0
    ensures Holds(t, iv)
  {
    var n: int := |iv|;
    var p := Log2(n);
    var sz := CumSize(n, p);
    CumSizeMonotone(n, 0, p);
    var v := iv + seq(sz - n, _ => 0);
    assert v[..n] == iv;
    RowZero(v, iv);
    var beg: int, end: int := 0, n;
    var i: int := 1;
    while i <= p
      invariant 1 <= i <= p + 1
      invariant beg == CumSize(n, i - 2) && end == CumSize(n, i - 1)
      invariant |v| == sz
      invariant forall r :: 0 <= r < i ==> RowHolds(v, iv, r)
    {
      Pow2Monotone(i, p);
      CumSizeMonotone(n, i, p);
      var v0 := v;
      v := BuildRow(v0, iv, i, beg, end);
      RowsKept(v0, v, iv, i, end);
      assert CumSize(n, i) == end + (n - Pow2(i) + 1);
      beg := end;
      end := end + (n - Pow2(i) + 1);
      i := i + 1;
    }
    t := Table(n, v);
  }

  /** Row 0 of a built table is a copy of the input. */
  lemma RowZeroCopies(t: Table, iv: seq<int>)
    requires Holds(t, iv)
    ensures |iv| <= |t.v| && t.v[..|iv|] == iv
  {
    assert RowHolds(t.v, iv, 0);
    CumSizeMonotone(t.n, 0, Log2(t.n));
    forall j | 0 <= j < |iv| ensures t.v[j] == iv[j] {
      assert Cell(t.n, 0, j) == j;
      assert iv[j..j + 1] == [iv[j]];
    }
  }

  /** Row p = Log2(sz) of a table over n >= sz values exists: its windows
      fit in the input and its cells lie inside the vector. */
  lemma RowFits(n: int, sz: int)
    requires 0 < sz <= n
    ensures var p := Log2(sz);
      Pow2(p) <= sz <= 2 * Pow2(p) &&
      0 <= CumSize(n, p - 1) && CumSize(n, p) <= CumSize(n, Log2(n))
  {
    var p := Log2(sz);
    Log2Monotone(sz, n);
    Pow2Monotone(p, Log2(n));
    CumSizeMonotone(n, p, Log2(n));
    if p > 0 {
      Pow2Monotone(p - 1, p);
    }
  }

  /** GetIndices: with p = Log2 of the range length, the two windows of
      length 2^p that start at beg and end at end cover the range, and the
      result is their cells in row p, both inside the vector. */
  function GetIndices(t: Table, beg: int, end: int): (r: (int, int))
    requires Sized(t)
    requires 0 <= beg <= end < t.n
    ensures 0 <= r.0 <= r.1 < |t.v|
    ensures var p := Log2(end - beg + 1);
      Pow2(p) <= end - beg + 1 <= 2 * Pow2(p) &&
      r.0 == Cell(t.n, p, beg) && r.1 == Cell(t.n, p, end - Pow2(p) + 1)
  {
    var p := Log2(end - beg + 1);
    RowFits(t.n, end - beg + 1);
    (Cell(t.n, p, beg), Cell(t.n, p, end - Pow2(p) + 1))
  }

  /** The two cells GetIndices picks hold the minima of the first and the
      last 2^p values of the range, and together give the range's minimum. */
  lemma QueryCells(t: Table, iv: seq<int>, beg: int, end: int)
    requires Holds(t, iv)
    requires 0 <= beg <= end < t.n
    ensures var pr := GetIndices(t, beg, end);
      MinOf(iv[beg..end + 1]) == Min2(t.v[pr.0], t.v[pr.1])
  {
    var pr := GetIndices(t, beg, end);
    var p, hi := Log2(end - beg + 1), end + 1;
    var w := Pow2(p);
    WindowCover(iv, beg, hi, w);
    Log2Monotone(end - beg + 1, t.n);
    assert RowHolds(t.v, iv, p);
    assert t.v[pr.0] == WindowMin(iv, beg, w);
    assert t.v[pr.1] == WindowMin(iv, hi - w, w) by {
      assert pr.1 == Cell(t.n, p, hi - w);
    }
  }

  /** Min: the least of iv[beg .. end]. */
  method Min(t: Table, ghost iv: seq<int>, beg: int, end: int) returns (mn: int)
    requires Holds(t, iv)
    requires 0 <= beg <= end < t.n
    ensures mn == MinOf(iv[beg..end + 1])
  {
    var pr := GetIndices(t, beg, end);
    mn := t.v[pr.0];
    if pr.0 != pr.1 {
      mn := Min2(mn, t.v[pr.1]);
    }
    QueryCells(t, iv, beg, end);
  }

  /** The basic test of SparseTable/Main.cpp: the least of 4, 9, -3, 7, 8. */
  method Sample() returns (mn: int)
    ensures mn == -3
  {
    var iv := [45, 4, 9, -3, 7, 8, 75, 12];
    var t := Build(iv);
    mn := Min(t, iv, 1, 5);
    assert iv[1..6][2] == -3;
    MinOfUnique(iv[1..6], -3);
  }
}
