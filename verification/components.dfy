/** Counting the connected components of the constraint graph by their least
    ingredients. Each constraint that joins two components removes exactly one
    least member; one that closes a cycle removes none. Hence n-1 constraints
    over n ingredients connect everything exactly when they form a forest,
    which is why the breadth-first solver, which never looks for cycles,
    succeeds on exactly the inputs the group-merge solver accepts. */
module Components {
  import opened Constraints
  import opened Connectivity
  import opened Counting
  import Windows

  /** v is the least ingredient of its component. */
  ghost predicate IsLeast(es: seq<Proportion>, v: int) {
    forall u :: 0 <= u < v ==> !Connected(es, u, v)
  }

  /** The least members of the components among ingredients 0 .. n-1: one per
      component. */
  ghost function Leaders(n: int, es: seq<Proportion>): (s: set<int>)
    ensures forall v :: v in s <==> 0 <= v < n && IsLeast(es, v)
  {
    set v | 0 <= v < n && IsLeast(es, v)
  }

  /** The least ingredient connected to v, searching upward from `from`. */
  ghost function LeastFrom(es: seq<Proportion>, v: int, from: int): (r: int)
    requires 0 <= from <= v
    requires forall u :: 0 <= u < from ==> !Connected(es, u, v)
    ensures from <= r <= v && Connected(es, r, v)
    ensures forall u :: 0 <= u < r ==> !Connected(es, u, v)
    decreases v - from
  {
    ConnectedRefl(es, v);
    if Connected(es, from, v) then from else LeastFrom(es, v, from + 1)
  }

  /** The leader of v's component. */
  ghost function LeaderOf(es: seq<Proportion>, v: int): (r: int)
    requires 0 <= v
    ensures 0 <= r <= v && Connected(es, r, v) && IsLeast(es, r)
    ensures forall u :: 0 <= u < r ==> !Connected(es, u, v)
  {
    var r := LeastFrom(es, v, 0);
    forall u | 0 <= u < r && Connected(es, u, r) ensures false {
      ConnectedTrans(es, u, r, v);
    }
    r
  }

  /** A component has one leader. */
  lemma LeaderUnique(es: seq<Proportion>, r1: int, r2: int)
    requires 0 <= r1 && 0 <= r2 && IsLeast(es, r1) && IsLeast(es, r2)
    requires Connected(es, r1, r2)
    ensures r1 == r2
  {
    if r2 < r1 {
      ConnectedSym(es, r1, r2);
    }
  }

  /** With no constraints every ingredient leads its own component. */
  lemma LeadersEmpty(n: nat)
    ensures Leaders(n, []) == Range(n)
  {
  }

  /** A constraint inside one component changes no connection. */
  lemma CycleKeepsLeaders(n: int, es: seq<Proportion>, e: Proportion)
    requires Connected(es, e.one.index, e.two.index)
    ensures Leaders(n, es + [e]) == Leaders(n, es)
  {
    forall u, v ensures Connected(es + [e], u, v) <==> Connected(es, u, v) {
      ConnectedSnoc(es, e, u, v);
      if Connected(es, u, e.one.index) && Connected(es, e.two.index, v) {
        ConnectedTrans(es, u, e.one.index, e.two.index);
        ConnectedTrans(es, u, e.two.index, v);
      }
      if Connected(es, u, e.two.index) && Connected(es, e.one.index, v) {
        ConnectedSym(es, e.one.index, e.two.index);
        ConnectedTrans(es, u, e.two.index, e.one.index);
        ConnectedTrans(es, u, e.one.index, v);
      }
    }
  }

  /** One member of a component stays a leader after the component is joined
      to the component of the lesser leader `other`. */
  lemma JoinedLeader(es: seq<Proportion>, e: Proportion, v: int, mine: int, other: int, u: int)
    requires 0 <= e.one.index && 0 <= e.two.index
    requires !Connected(es, e.one.index, e.two.index)
    requires (mine == e.one.index && other == e.two.index) || (mine == e.two.index && other == e.one.index)
    requires 0 <= v && IsLeast(es, v) && Connected(es, mine, v)
    requires LeaderOf(es, other) > v
    requires 0 <= u < v
    ensures !Connected(es + [e], u, v)
  {
    ConnectedSnoc(es, e, u, v);
    if Connected(es, other, v) {
      ConnectedSym(es, mine, v);
      ConnectedTrans(es, other, v, mine);
      ConnectedSym(es, other, mine);
    }
    if Connected(es, u, other) {
      ConnectedSym(es, u, other);
    }
  }

  /** A constraint joining two components removes exactly the greater of
      their two leaders. */
  lemma JoinRemovesOneLeader(n: int, es: seq<Proportion>, e: Proportion)
    requires WellFormed(n, e)
    requires !Connected(es, e.one.index, e.two.index)
    ensures var m := Windows.Max2(LeaderOf(es, e.one.index), LeaderOf(es, e.two.index));
      m in Leaders(n, es) && Leaders(n, es + [e]) == Leaders(n, es) - {m}
  {
    var a := e.one.index;
    var b := e.two.index;
    var ra := LeaderOf(es, a);
    var rb := LeaderOf(es, b);
    var m := Windows.Max2(ra, rb);
    if ra == rb {
      ConnectedSym(es, ra, a);
      ConnectedTrans(es, a, ra, b);
    }
    forall v | 0 <= v < n
      ensures v in Leaders(n, es + [e]) <==> v in Leaders(n, es) && v != m
    {
      // a leader after the join was a leader before it
      if IsLeast(es + [e], v) {
        forall u | 0 <= u < v ensures !Connected(es, u, v) {
          ConnectedSnoc(es, e, u, v);
        }
      }
      // the greater leader loses its place
      if v == m && ra > rb {
        ConnectedSnoc(es, e, rb, ra);
        ConnectedSym(es, ra, a);
      }
      if v == m && rb > ra {
        ConnectedSnoc(es, e, ra, rb);
        ConnectedSym(es, rb, b);
      }
      // every other leader keeps it
      if IsLeast(es, v) && v != m {
        forall u | 0 <= u < v ensures !Connected(es + [e], u, v) {
          ConnectedSnoc(es, e, u, v);
          if Connected(es, a, v) {
            LeaderUnique(es, ra, v) by { ConnectedTrans(es, ra, a, v); }
            JoinedLeader(es, e, v, a, b, u);
          } else if Connected(es, b, v) {
            LeaderUnique(es, rb, v) by { ConnectedTrans(es, rb, b, v); }
            JoinedLeader(es, e, v, b, a, u);
          }
        }
      }
    }
  }

  /** n ingredients and the constraints `es` leave at least n - |es|
      components, exactly n - |es| when the constraints form a forest. */
  lemma {:induction false} LeaderCount(n: nat, es: seq<Proportion>)
    requires EdgesIn(n, es)
    ensures |Leaders(n, es)| >= n - |es|
    ensures Forest(es) <==> |Leaders(n, es)| == n - |es|
    decreases |es|
  {
    if |es| == 0 {
      LeadersEmpty(n);
      RangeCard(n);
    } else {
      var init := es[..|es| - 1];
      var e := es[|es| - 1];
      assert es == init + [e];
      assert EdgesIn(n, init) by {
        forall k | 0 <= k < |init| ensures WellFormed(n, init[k]) {
          assert init[k] == es[k];
        }
      }
      LeaderCount(n, init);
      ForestSnocIff(init, e);
      if Connected(init, e.one.index, e.two.index) {
        CycleKeepsLeaders(n, init, e);
      } else {
        JoinRemovesOneLeader(n, init, e);
      }
    }
  }

  /** When everything is connected, ingredient 0 is the only leader. */
  lemma ConnectedOneLeader(n: int, es: seq<Proportion>)
    requires n >= 1 && AllConnected(n, es)
    ensures Leaders(n, es) == {0}
  {
    forall v | 0 < v < n ensures !IsLeast(es, v) {
      assert Connected(es, 0, v);
    }
  }

  /** For inputs of n ingredients and n-1 constraints the three conditions
      coincide: the constraints connect every ingredient, they form a
      forest, and they form a spanning tree. */
  lemma TreeIffConnected(n: int, props: seq<Proportion>)
    requires ValidInput(n, props)
    ensures AllConnected(n, props) <==> SpanningTree(n, props)
    ensures Forest(props) <==> SpanningTree(n, props)
  {
    LeaderCount(n, props);
    if AllConnected(n, props) {
      ConnectedOneLeader(n, props);
    }
    if Forest(props) {
      assert |Leaders(n, props)| == 1;
      assert 0 in Leaders(n, props);
      forall v | 0 <= v < n ensures Connected(props, 0, v) {
        var r := LeaderOf(props, v);
        assert r in Leaders(n, props);
        if r != 0 {
          assert {0, r} <= Leaders(n, props);
          SubsetCard({0, r}, Leaders(n, props));
        }
      }
    }
  }
}
