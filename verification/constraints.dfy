/** The shared vocabulary of the potion solvers: an ingredient side of a
    constraint, a ratio constraint between two ingredients, and what it means
    for a vector of weights to honour a constraint. */
module Constraints {

  /** One side of a constraint: the ingredient's index and its relative amount. */
  datatype Ingredient = Ingredient(index: int, amount: int)

  /** The constraint "ingredient one.index : ingredient two.index = one.amount : two.amount". */
  datatype Proportion = Proportion(one: Ingredient, two: Ingredient)

  /** True when `v` is one of the two ingredients the constraint relates. */
  predicate Endpoint(p: Proportion, v: int) {
    p.one.index == v || p.two.index == v
  }

  /** A constraint the solvers can work with among `n` ingredients: both indices
      in range, distinct, and both amounts strictly positive. The solvers never
      check this themselves; it is the caller's obligation. */
  predicate WellFormed(n: int, p: Proportion) {
    && 0 <= p.one.index < n
    && 0 <= p.two.index < n
    && p.one.index != p.two.index
    && p.one.amount > 0
    && p.two.amount > 0
  }

  /** Every constraint of `es` is well formed among `n` ingredients. */
  predicate EdgesIn(n: int, es: seq<Proportion>) {
    forall k :: 0 <= k < |es| ==> WellFormed(n, es[k])
  }

  /** The input both solvers accept: at least one ingredient and exactly
      `n - 1` well-formed constraints. */
  predicate ValidInput(n: int, props: seq<Proportion>) {
    && n >= 1
    && |props| == n - 1
    && EdgesIn(n, props)
  }

  /** Integer weights `w` reproduce the ratio of constraint `p`. */
  predicate RatioHolds(w: seq<int>, p: Proportion)
    requires 0 <= p.one.index < |w| && 0 <= p.two.index < |w|
  {
    w[p.one.index] * p.two.amount == w[p.two.index] * p.one.amount
  }

  /** Real proportions `r` reproduce the ratio of constraint `p`. */
  predicate RealRatioHolds(r: seq<real>, p: Proportion)
    requires 0 <= p.one.index < |r| && 0 <= p.two.index < |r|
  {
    r[p.one.index] * p.two.amount as real == r[p.two.index] * p.one.amount as real
  }

  /** Every constraint of `es` holds on the integer weights `w`. */
  predicate AllRatiosHold(w: seq<int>, es: seq<Proportion>)
    requires EdgesIn(|w|, es)
  {
    forall k :: 0 <= k < |es| ==> RatioHolds(w, es[k])
  }

  lemma MulPositive(x: int, y: int)
    requires x > 0 && y > 0
    ensures x * y > 0
  {
  }

  /** Scaling both sides of a ratio by the same factor keeps it. */
  lemma ScaleKeepsRatio(wa: int, wb: int, ea: int, eb: int, m: int)
    requires wa * eb == wb * ea
    ensures (wa * m) * eb == (wb * m) * ea
  {
    calc {
      (wa * m) * eb;
      (wa * eb) * m;
      (wb * ea) * m;
      (wb * m) * ea;
    }
  }

  /** The ratio a new ingredient is given when it joins a group. */
  lemma JoinRatio(existing: int, xa: int, ya: int)
    ensures (existing * xa) * ya == (ya * existing) * xa
  {
  }

  /** The ratio that holds after the cross-rescaling of a merge. */
  lemma MergeRatio(va: int, vb: int, ea: int, eb: int)
    ensures (va * (ea * vb)) * eb == (vb * (eb * va)) * ea
  {
    calc {
      (va * (ea * vb)) * eb;
      va * vb * ea * eb;
      (vb * (eb * va)) * ea;
    }
  }
}
