/** Unnormalised integer weights, their normalisation to proportions summing
    to one (over exact reals, not IEEE doubles), and the uniqueness of the
    normalised solution on a connected constraint graph. */
module Weights {
  import opened Constraints
  import opened Connectivity
  import opened Sums

  function RealSum(r: seq<real>): real {
    if |r| == 0 then 0.0 else r[0] + RealSum(r[1..])
  }

  /** Every weight is strictly positive. */
  predicate Positive(w: seq<int>) {
    forall i :: 0 <= i < |w| ==> w[i] > 0
  }

  /** Each weight divided by `s`. */
  function DivideAll(w: seq<int>, s: real): (r: seq<real>)
    requires s != 0.0
    ensures |r| == |w|
    ensures forall i :: 0 <= i < |w| ==> r[i] == w[i] as real / s
  {
    if |w| == 0 then [] else [w[0] as real / s] + DivideAll(w[1..], s)
  }

  lemma {:induction false} SumPositive(w: seq<int>)
    requires |w| > 0 && Positive(w)
    ensures Sum(w) > 0
    decreases |w|
  {
    if |w| > 1 {
      SumPositive(w[1..]);
    }
  }

  lemma {:induction false} RealSumDivideAll(w: seq<int>, s: real)
    requires s != 0.0
    ensures RealSum(DivideAll(w, s)) == Sum(w) as real / s
    decreases |w|
  {
    if |w| > 0 {
      RealSumDivideAll(w[1..], s);
      assert DivideAll(w, s)[1..] == DivideAll(w[1..], s);
    }
  }

  lemma QuotientPositive(x: int, s: real)
    requires x > 0 && s > 0.0
    ensures x as real / s > 0.0
  {
  }

  lemma QuotientSelf(s: real)
    requires s != 0.0
    ensures s / s == 1.0
  {
  }

  /** Dividing two quantities by the same non-zero total keeps their cross products. */
  lemma QuotientRatio(a: real, b: real, x: real, y: real, s: real)
    requires s != 0.0 && a == x / s && b == y / s
    ensures a * y == b * x
  {
    calc {
      a * y;
      a * (b * s);
      b * (a * s);
      b * x;
    }
  }

  lemma ProductAsReal(x: int, y: int)
    ensures (x * y) as real == x as real * y as real
  {
  }

  /** Dividing two quantities by the same non-zero total keeps a ratio between them. */
  lemma CrossRatio(r1: real, r2: real, x1: real, x2: real, e1: real, e2: real, s: real)
    requires s != 0.0 && r1 == x1 / s && r2 == x2 / s
    requires x1 * e2 == x2 * e1
    ensures r1 * e2 == r2 * e1
  {
    calc {
      r1 * e2 * s;
      x1 * e2;
      x2 * e1;
      r2 * e1 * s;
    }
  }

  /** An integer ratio wa : wb = ea : eb survives dividing both weights by s. */
  lemma ScaledRatio(wa: int, wb: int, ea: int, eb: int, s: real, ra: real, rb: real)
    requires s != 0.0 && ra == wa as real / s && rb == wb as real / s
    requires wa * eb == wb * ea
    ensures ra * eb as real == rb * ea as real
  {
    ProductAsReal(wa, eb);
    ProductAsReal(wb, ea);
    CrossRatio(ra, rb, wa as real, wb as real, ea as real, eb as real, s);
  }

  lemma DividePositive(w: seq<int>, s: real)
    requires s > 0.0 && Positive(w)
    ensures forall i :: 0 <= i < |w| ==> DivideAll(w, s)[i] > 0.0
  {
    forall i | 0 <= i < |w| ensures DivideAll(w, s)[i] > 0.0 {
      QuotientPositive(w[i], s);
    }
  }

  /** The normalisation step of every solver: weight i becomes
      weight i / (sum of all weights). The result is positive, sums to one and
      keeps every ratio between weights. */
  function Normalise(w: seq<int>): (r: seq<real>)
    requires |w| > 0 && Positive(w)
    ensures |r| == |w|
    ensures forall i :: 0 <= i < |w| ==> r[i] > 0.0
    ensures RealSum(r) == 1.0
    ensures Sum(w) > 0
    ensures forall i :: 0 <= i < |w| ==> r[i] == w[i] as real / Sum(w) as real
  {
    SumPositive(w);
    var s := Sum(w) as real;
    RealSumDivideAll(w, s);
    QuotientSelf(s);
    DividePositive(w, s);
    DivideAll(w, s)
  }

  /** A ratio that holds on the integer weights holds on their normalisation. */
  lemma NormalisePreservesRatio(w: seq<int>, p: Proportion)
    requires |w| > 0 && Positive(w)
    requires 0 <= p.one.index < |w| && 0 <= p.two.index < |w|
    requires RatioHolds(w, p)
    ensures RealRatioHolds(Normalise(w), p)
  {
    var r := Normalise(w);
    DividedRatio(w, r, Sum(w) as real, p);
  }

  /** A ratio that holds on integer weights holds on the weights divided by
      one non-zero total. */
  lemma DividedRatio(w: seq<int>, r: seq<real>, s: real, p: Proportion)
    requires s != 0.0 && |r| == |w|
    requires 0 <= p.one.index < |w| && 0 <= p.two.index < |w|
    requires r[p.one.index] == w[p.one.index] as real / s
    requires r[p.two.index] == w[p.two.index] as real / s
    requires RatioHolds(w, p)
    ensures RealRatioHolds(r, p)
  {
    var a := p.one.index;
    var b := p.two.index;
    ScaledRatio(w[a], w[b], p.one.amount, p.two.amount, s, r[a], r[b]);
  }

  /** `r` is a solution of the proportion problem: one positive proportion per
      ingredient, summing to one, reproducing every constraint. */
  ghost predicate NormalisedSolution(r: seq<real>, n: int, es: seq<Proportion>)
    requires EdgesIn(n, es)
  {
    && |r| == n
    && (forall i :: 0 <= i < n ==> r[i] > 0.0)
    && RealSum(r) == 1.0
    && (forall k :: 0 <= k < |es| ==> RealRatioHolds(r, es[k]))
  }

  /** Normalising weights that satisfy every constraint yields a solution. */
  lemma NormaliseSolves(w: seq<int>, es: seq<Proportion>)
    requires |w| > 0 && Positive(w) && EdgesIn(|w|, es)
    requires AllRatiosHold(w, es)
    ensures NormalisedSolution(Normalise(w), |w|, es)
  {
    forall k | 0 <= k < |es| ensures RealRatioHolds(Normalise(w), es[k]) {
      NormalisePreservesRatio(w, es[k]);
    }
  }

  lemma {:induction false} RealSumScaled(r: seq<real>, r': seq<real>, c: real)
    requires |r| == |r'|
    requires forall i :: 0 <= i < |r| ==> r[i] == c * r'[i]
    ensures RealSum(r) == c * RealSum(r')
    decreases |r|
  {
    if |r| > 0 {
      RealSumScaled(r[1..], r'[1..], c);
    }
  }

  lemma QuotientTimes(x: real, y: real)
    requires y != 0.0
    ensures x == (x / y) * y
  {
  }

  /** Two solutions of one constraint a : b that agree up to the factor c at
      one end agree up to c at the other. */
  lemma ScaleAcross(ra: real, rb: real, ra': real, rb': real, ea: real, eb: real, c: real)
    requires ea > 0.0 && eb > 0.0
    requires ra * eb == rb * ea && ra' * eb == rb' * ea
    ensures ra == c * ra' <==> rb == c * rb'
  {
    if ra == c * ra' {
      calc {
        rb * ea;
        ra * eb;
        c * ra' * eb;
        c * (rb' * ea);
      }
    }
    if rb == c * rb' {
      calc {
        ra * eb;
        rb * ea;
        c * rb' * ea;
        c * (ra' * eb);
      }
    }
  }

  /** On a connected constraint graph, two solutions of every constraint
      are proportional: each is the other scaled by the factor at
      ingredient 0. */
  lemma ProportionalToFirst(r: seq<real>, r': seq<real>, n: int, es: seq<Proportion>)
    requires n >= 1 && EdgesIn(n, es) && AllConnected(n, es)
    requires |r| == |r'| == n && r'[0] != 0.0
    requires forall k :: 0 <= k < |es| ==> RealRatioHolds(r, es[k]) && RealRatioHolds(r', es[k])
    ensures forall v :: 0 <= v < n ==> r[v] == (r[0] / r'[0]) * r'[v]
  {
    var c := r[0] / r'[0];
    QuotientTimes(r[0], r'[0]);
    var vs := set v | 0 <= v < n && r[v] == c * r'[v];
    assert 0 in vs;
    forall k | 0 <= k < |es|
      ensures es[k].one.index in vs <==> es[k].two.index in vs
    {
      var a := es[k].one.index;
      var b := es[k].two.index;
      assert WellFormed(n, es[k]);
      assert RealRatioHolds(r, es[k]) && RealRatioHolds(r', es[k]);
      ScaleAcross(r[a], r[b], r'[a], r'[b], es[k].one.amount as real, es[k].two.amount as real, c);
    }
    forall v | 0 <= v < n ensures r[v] == c * r'[v] {
      ClosedSetContainsReachable(es, vs, 0, v);
    }
  }

  /** On a connected constraint graph the solution is unique: any two
      normalised solutions are equal. This is why the two solvers, whatever
      integer weights they build, must print the same proportions. */
  lemma UniqueSolution(r: seq<real>, r': seq<real>, n: int, es: seq<Proportion>)
    requires n >= 1 && EdgesIn(n, es) && AllConnected(n, es)
    requires NormalisedSolution(r, n, es) && NormalisedSolution(r', n, es)
    ensures r == r'
  {
    var c := r[0] / r'[0];
    ProportionalToFirst(r, r', n, es);
    RealSumScaled(r, r', c);
    assert c == 1.0;
    assert forall v :: 0 <= v < n ==> r[v] == r'[v];
  }
}
