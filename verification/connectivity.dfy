/** The constraint graph: ingredients are vertices, constraints are undirected
    edges. `Connected` is reachability, defined by adding the edges one at a
    time; `Forest`, `AllConnected` and `SpanningTree` are the structural
    conditions under which the solvers succeed. */
module Connectivity {
  import opened Constraints

  /** x and y are joined by a path in the graph whose edges are `es`.
      Adding the edge a-b to a graph joins x and y exactly when they were
      already joined, or x reaches one end and the other end reaches y. */
  ghost predicate Connected(es: seq<Proportion>, x: int, y: int)
    decreases |es|
  {
    if |es| == 0 then x == y
    else
      var rest := es[..|es| - 1];
      var a := es[|es| - 1].one.index;
      var b := es[|es| - 1].two.index;
      || Connected(rest, x, y)
      || (Connected(rest, x, a) && Connected(rest, b, y))
      || (Connected(rest, x, b) && Connected(rest, a, y))
  }

  /** Vertex v is mentioned by some constraint of `es`. */
  ghost predicate Touched(es: seq<Proportion>, v: int) {
    exists k :: 0 <= k < |es| && Endpoint(es[k], v)
  }

  /** No constraint closes a cycle: each one joins two vertices that the
      constraints before it did not already connect. */
  ghost predicate Forest(es: seq<Proportion>) {
    forall k :: 0 <= k < |es| ==> !Connected(es[..k], es[k].one.index, es[k].two.index)
  }

  /** Every one of the `n` vertices is reachable from vertex 0. */
  ghost predicate AllConnected(n: int, es: seq<Proportion>) {
    forall v :: 0 <= v < n ==> Connected(es, 0, v)
  }

  /** The constraints form one spanning tree over the `n` vertices. */
  ghost predicate SpanningTree(n: int, es: seq<Proportion>) {
    Forest(es) && AllConnected(n, es)
  }

  /** Unfolding `Connected` over a graph that ends with the edge `e`. */
  lemma ConnectedSnoc(es: seq<Proportion>, e: Proportion, x: int, y: int)
    ensures Connected(es + [e], x, y) <==>
      || Connected(es, x, y)
      || (Connected(es, x, e.one.index) && Connected(es, e.two.index, y))
      || (Connected(es, x, e.two.index) && Connected(es, e.one.index, y))
  {
    assert (es + [e])[..|es|] == es;
  }

  lemma {:induction false} ConnectedRefl(es: seq<Proportion>, x: int)
    ensures Connected(es, x, x)
    decreases |es|
  {
    if |es| > 0 {
      ConnectedRefl(es[..|es| - 1], x);
    }
  }

  lemma {:induction false} ConnectedSym(es: seq<Proportion>, x: int, y: int)
    requires Connected(es, x, y)
    ensures Connected(es, y, x)
    decreases |es|
  {
    if |es| > 0 {
      var rest := es[..|es| - 1];
      var a := es[|es| - 1].one.index;
      var b := es[|es| - 1].two.index;
      if Connected(rest, x, y) {
        ConnectedSym(rest, x, y);
      } else if Connected(rest, x, a) && Connected(rest, b, y) {
        ConnectedSym(rest, x, a);
        ConnectedSym(rest, b, y);
      } else {
        ConnectedSym(rest, x, b);
        ConnectedSym(rest, a, y);
      }
    }
  }

  lemma {:induction false} ConnectedTrans(es: seq<Proportion>, x: int, y: int, z: int)
    requires Connected(es, x, y) && Connected(es, y, z)
    ensures Connected(es, x, z)
    decreases |es|
  {
    if |es| > 0 {
      var rest := es[..|es| - 1];
      var a := es[|es| - 1].one.index;
      var b := es[|es| - 1].two.index;
      forall p, q, r | Connected(rest, p, q) && Connected(rest, q, r)
        ensures Connected(rest, p, r)
      {
        ConnectedTrans(rest, p, q, r);
      }
      forall p, q | Connected(rest, p, q)
        ensures Connected(rest, q, p)
      {
        ConnectedSym(rest, p, q);
      }
    }
  }

  /** Adding edges never disconnects: a prefix's connections survive. */
  lemma {:induction false} ConnectedPrefix(es: seq<Proportion>, k: int, x: int, y: int)
    requires 0 <= k <= |es|
    requires Connected(es[..k], x, y)
    ensures Connected(es, x, y)
    decreases |es| - k
  {
    if k < |es| {
      var rest := es[..|es| - 1];
      assert rest[..k] == es[..k];
      ConnectedPrefix(rest, k, x, y);
    } else {
      assert es[..k] == es;
    }
  }

  /** Each constraint joins its own two ingredients. */
  lemma {:induction false} EdgeConnected(es: seq<Proportion>, k: int)
    requires 0 <= k < |es|
    ensures Connected(es, es[k].one.index, es[k].two.index)
    decreases |es|
  {
    var rest := es[..|es| - 1];
    if k == |es| - 1 {
      ConnectedRefl(rest, es[k].one.index);
      ConnectedRefl(rest, es[k].two.index);
    } else {
      EdgeConnected(rest, k);
    }
  }

  /** A vertex no constraint mentions is connected only to itself. */
  lemma {:induction false} UntouchedIsolated(es: seq<Proportion>, v: int, y: int)
    requires !Touched(es, v)
    ensures Connected(es, v, y) <==> v == y
    ensures Connected(es, y, v) <==> v == y
    decreases |es|
  {
    if |es| == 0 {
    } else {
      var rest := es[..|es| - 1];
      var a := es[|es| - 1].one.index;
      var b := es[|es| - 1].two.index;
      assert !Endpoint(es[|es| - 1], v);
      assert !Touched(rest, v) by {
        forall k | 0 <= k < |rest| ensures !Endpoint(rest[k], v) {
          assert rest[k] == es[k];
        }
      }
      UntouchedIsolated(rest, v, y);
      UntouchedIsolated(rest, v, a);
      UntouchedIsolated(rest, v, b);
    }
    if v == y {
      ConnectedRefl(es, v);
    }
  }

  /** A set of vertices closed under every edge of `es` contains everything
      reachable from any of its members: reachability is the least such
      closure. */
  lemma {:induction false} ClosedSetContainsReachable(es: seq<Proportion>, vs: set<int>, x: int, y: int)
    requires forall k :: 0 <= k < |es| ==> (es[k].one.index in vs <==> es[k].two.index in vs)
    requires x in vs
    requires Connected(es, x, y)
    ensures y in vs
    decreases |es|
  {
    if |es| > 0 {
      var rest := es[..|es| - 1];
      var a := es[|es| - 1].one.index;
      var b := es[|es| - 1].two.index;
      assert forall k :: 0 <= k < |rest| ==> rest[k] == es[k];
      if Connected(rest, x, y) {
        ClosedSetContainsReachable(rest, vs, x, y);
      } else if Connected(rest, x, a) && Connected(rest, b, y) {
        ClosedSetContainsReachable(rest, vs, x, a);
        ClosedSetContainsReachable(rest, vs, b, y);
      } else {
        ClosedSetContainsReachable(rest, vs, x, b);
        ClosedSetContainsReachable(rest, vs, a, y);
      }
    }
  }

  /** Two distinct vertices can only be connected through constraints that
      mention them. */
  lemma ConnectedDistinctTouched(es: seq<Proportion>, x: int, y: int)
    requires Connected(es, x, y) && x != y
    ensures Touched(es, x) && Touched(es, y)
  {
    if !Touched(es, x) {
      UntouchedIsolated(es, x, y);
    }
    if !Touched(es, y) {
      UntouchedIsolated(es, y, x);
    }
  }

  /** Appending a constraint keeps a forest exactly when its two ingredients
      were not yet connected. */
  lemma ForestSnocIff(es: seq<Proportion>, e: Proportion)
    ensures Forest(es + [e]) <==> Forest(es) && !Connected(es, e.one.index, e.two.index)
  {
    var es' := es + [e];
    assert es'[..|es|] == es;
    assert forall k :: 0 <= k < |es| ==> es'[..k] == es[..k] && es'[k] == es[k];
  }

  /** Every prefix of a forest is a forest. */
  lemma ForestPrefix(es: seq<Proportion>, k: int)
    requires 0 <= k <= |es| && Forest(es)
    ensures Forest(es[..k])
  {
    assert forall j :: 0 <= j < k ==> es[..k][..j] == es[..j] && es[..k][j] == es[j];
  }

  /** A constraint whose ingredients the earlier ones already connect closes
      a cycle. */
  lemma CycleNotForest(es: seq<Proportion>, k: int)
    requires 0 <= k < |es|
    requires Connected(es[..k], es[k].one.index, es[k].two.index)
    ensures !Forest(es)
  {
  }
}
