/** The breadth-first solver determineProportionsUsingDFS of potion.cpp,
    repeated verbatim in PotionDFS.cpp and ported to Potion.java. Starting
    from ingredient 0 with amount 1, every constraint that reaches an
    undiscovered ingredient rescales all amounts found so far by the current
    ingredient's ratio value and appends the new ingredient with
    (its ratio value) * (the current ingredient's old amount). The solver
    succeeds when every ingredient was discovered; the found amounts are then
    sorted by ingredient and normalised. */
module Traversal {
  import opened Constraints
  import opened Connectivity
  import opened Weights
  import opened Sums
  import opened Counting

  // ---------------------------------------------------------------------
  // The connections table
  // ---------------------------------------------------------------------

  /** adj[v] lists, in increasing order, exactly the constraints that mention v. */
  predicate IsConnections(n: int, props: seq<Proportion>, adj: seq<seq<int>>) {
    && |adj| == n
    && (forall v, t :: 0 <= v < n && 0 <= t < |adj[v]| ==>
          0 <= adj[v][t] < |props| && Endpoint(props[adj[v][t]], v))
    && (forall v, k :: 0 <= v < n && 0 <= k < |props| && Endpoint(props[k], v) ==> k in adj[v])
    && (forall v, s, t :: 0 <= v < n && 0 <= s < t < |adj[v]| ==> adj[v][s] < adj[v][t])
  }

  /** adj lists, in increasing order, exactly the constraints before i that
      mention each ingredient. */
  predicate ConnectionsUpTo(n: int, props: seq<Proportion>, adj: seq<seq<int>>, i: int)
    requires 0 <= i <= |props|
  {
    && |adj| == n
    && (forall v, t :: 0 <= v < n && 0 <= t < |adj[v]| ==>
          0 <= adj[v][t] < i && Endpoint(props[adj[v][t]], v))
    && (forall v, k :: 0 <= v < n && 0 <= k < i && Endpoint(props[k], v) ==> k in adj[v])
    && (forall v, s, t :: 0 <= v < n && 0 <= s < t < |adj[v]| ==> adj[v][s] < adj[v][t])
  }

  /** Constraint i appended to the lists of both of its ingredients. */
  function Record(adj: seq<seq<int>>, p: Proportion, i: int): seq<seq<int>>
    requires 0 <= p.one.index < |adj| && 0 <= p.two.index < |adj|
  {
    var a := p.one.index;
    var b := p.two.index;
    var adj' := adj[a := adj[a] + [i]];
    adj'[b := adj'[b] + [i]]
  }

  /** The list of v after recording constraint i. */
  lemma RecordAt(adj: seq<seq<int>>, p: Proportion, i: int, v: int)
    requires 0 <= p.one.index < |adj| && 0 <= p.two.index < |adj| && p.one.index != p.two.index
    requires 0 <= v < |adj|
    ensures |Record(adj, p, i)| == |adj|
    ensures Record(adj, p, i)[v] == if Endpoint(p, v) then adj[v] + [i] else adj[v]
  {
  }

  lemma RecordEntries(n: int, props: seq<Proportion>, adj: seq<seq<int>>, i: int)
    requires 0 <= i < |props| && WellFormed(n, props[i]) && |adj| == n
    requires forall v, t :: 0 <= v < n && 0 <= t < |adj[v]| ==>
      0 <= adj[v][t] < i && Endpoint(props[adj[v][t]], v)
    ensures var r := Record(adj, props[i], i);
      forall v, t :: 0 <= v < n && 0 <= t < |r[v]| ==>
        0 <= r[v][t] < i + 1 && Endpoint(props[r[v][t]], v)
  {
    var r := Record(adj, props[i], i);
    forall v, t | 0 <= v < n && 0 <= t < |r[v]|
      ensures 0 <= r[v][t] < i + 1 && Endpoint(props[r[v][t]], v)
    {
      RecordAt(adj, props[i], i, v);
      if t < |adj[v]| {
        assert r[v][t] == adj[v][t];
      }
    }
  }

  lemma RecordComplete(n: int, props: seq<Proportion>, adj: seq<seq<int>>, i: int)
    requires 0 <= i < |props| && WellFormed(n, props[i]) && |adj| == n
    requires forall v, k :: 0 <= v < n && 0 <= k < i && Endpoint(props[k], v) ==> k in adj[v]
    ensures var r := Record(adj, props[i], i);
      forall v, k :: 0 <= v < n && 0 <= k < i + 1 && Endpoint(props[k], v) ==> k in r[v]
  {
    var r := Record(adj, props[i], i);
    forall v, k | 0 <= v < n && 0 <= k < i + 1 && Endpoint(props[k], v)
      ensures k in r[v]
    {
      RecordAt(adj, props[i], i, v);
      if k < i {
        assert k in adj[v];
      } else {
        assert r[v][|r[v]| - 1] == i;
      }
    }
  }

  lemma RecordAscending(n: int, props: seq<Proportion>, adj: seq<seq<int>>, i: int)
    requires 0 <= i < |props| && WellFormed(n, props[i]) && |adj| == n
    requires forall v, t :: 0 <= v < n && 0 <= t < |adj[v]| ==> adj[v][t] < i
    requires forall v, s, t :: 0 <= v < n && 0 <= s < t < |adj[v]| ==> adj[v][s] < adj[v][t]
    ensures var r := Record(adj, props[i], i);
      forall v, s, t :: 0 <= v < n && 0 <= s < t < |r[v]| ==> r[v][s] < r[v][t]
  {
    var r := Record(adj, props[i], i);
    forall v, s, t | 0 <= v < n && 0 <= s < t < |r[v]|
      ensures r[v][s] < r[v][t]
    {
      RecordAt(adj, props[i], i, v);
      if t < |adj[v]| {
        assert r[v][s] == adj[v][s] && r[v][t] == adj[v][t];
      } else {
        assert r[v][s] == adj[v][s];
      }
    }
  }

  /** Recording constraint i extends the table from the constraints before i
      to those up to i. */
  lemma RecordStep(n: int, props: seq<Proportion>, adj: seq<seq<int>>, i: int)
    requires 0 <= i < |props| && WellFormed(n, props[i])
    requires ConnectionsUpTo(n, props, adj, i)
    ensures ConnectionsUpTo(n, props, Record(adj, props[i], i), i + 1)
  {
    RecordAt(adj, props[i], i, 0);
    RecordEntries(n, props, adj, i);
    RecordComplete(n, props, adj, i);
    RecordAscending(n, props, adj, i);
  }

  /** The loop at potion.cpp:317-322: constraint i is appended to the lists
      of both of its ingredients. */
  method BuildConnections(n: int, props: seq<Proportion>) returns (adj: seq<seq<int>>)
    requires ValidInput(n, props)
    ensures IsConnections(n, props, adj)
  {
    adj := seq(n, _ => []);
    var i := 0;
    while i < n - 1
      invariant 0 <= i <= n - 1
      invariant ConnectionsUpTo(n, props, adj, i)
    {
      RecordStep(n, props, adj, i);
      var a := props[i].one.index;
      var b := props[i].two.index;
      adj := adj[a := adj[a] + [i]];
      adj := adj[b := adj[b] + [i]];
      i := i + 1;
    }
  }

  // ---------------------------------------------------------------------
  // The list of discovered ingredients
  // ---------------------------------------------------------------------

  /** Some entry of `ings` is for ingredient v. */
  predicate Has(ings: seq<Ingredient>, v: int) {
    exists j :: 0 <= j < |ings| && ings[j].index == v
  }

  predicate DistinctIndices(ings: seq<Ingredient>) {
    forall i, j :: 0 <= i < j < |ings| ==> ings[i].index != ings[j].index
  }

  predicate IndicesBelow(ings: seq<Ingredient>, n: int) {
    forall j :: 0 <= j < |ings| ==> 0 <= ings[j].index < n
  }

  predicate AmountsPositive(ings: seq<Ingredient>) {
    forall j :: 0 <= j < |ings| ==> ings[j].amount > 0
  }

  /** The ingredients that have an entry. */
  function IndexSet(ings: seq<Ingredient>): (s: set<int>)
    ensures forall v :: v in s <==> Has(ings, v)
    decreases |ings|
  {
    if |ings| == 0 then {}
    else
      var init := ings[..|ings| - 1];
      assert forall j :: 0 <= j < |init| ==> init[j] == ings[j];
      IndexSet(init) + {ings[|ings| - 1].index}
  }

  lemma {:induction false} IndexSetCard(ings: seq<Ingredient>)
    requires DistinctIndices(ings)
    ensures |IndexSet(ings)| == |ings|
    decreases |ings|
  {
    if |ings| > 0 {
      var init := ings[..|ings| - 1];
      assert forall j :: 0 <= j < |init| ==> init[j] == ings[j];
      IndexSetCard(init);
      assert !Has(init, ings[|ings| - 1].index);
    }
  }

  /** Distinct entries for ingredients below n, one of which, x, is missing:
      fewer than n entries. */
  lemma EntriesBelowMissing(ings: seq<Ingredient>, n: int, x: int)
    requires DistinctIndices(ings) && IndicesBelow(ings, n)
    requires 0 <= x < n && !Has(ings, x)
    ensures |ings| < n
  {
    IndexSetCard(ings);
    BoundedCard(IndexSet(ings) + {x}, n);
  }

  /** The amount the rescaling loop reads for ingredient v: that of the last
      entry for v, or -1 when there is none. */
  function Lookup(ings: seq<Ingredient>, v: int): (r: int)
    ensures !Has(ings, v) ==> r == -1
    ensures Has(ings, v) ==> exists j :: 0 <= j < |ings| && ings[j].index == v && ings[j].amount == r
    decreases |ings|
  {
    if |ings| == 0 then -1
    else if ings[|ings| - 1].index == v then ings[|ings| - 1].amount
    else
      var init := ings[..|ings| - 1];
      assert forall j :: 0 <= j < |init| ==> init[j] == ings[j];
      Lookup(init, v)
  }

  /** With distinct entries, the lookup finds the one entry for v. */
  lemma LookupAt(ings: seq<Ingredient>, j: int)
    requires DistinctIndices(ings) && 0 <= j < |ings|
    ensures Lookup(ings, ings[j].index) == ings[j].amount
  {
  }

  lemma LookupPositive(ings: seq<Ingredient>, v: int)
    requires AmountsPositive(ings) && Has(ings, v)
    ensures Lookup(ings, v) > 0
  {
  }

  lemma LookupAppend(ings: seq<Ingredient>, e: Ingredient, v: int)
    ensures Lookup(ings + [e], v) == if e.index == v then e.amount else Lookup(ings, v)
  {
    assert (ings + [e])[..|ings|] == ings;
  }

  /** The rescaling loop at potion.cpp:355-362: every amount found so far is
      multiplied by `factor`, and the loop remembers the amount of the entry
      for `index` before it was multiplied (-1 when there is none). */
  method Rescale(ings: seq<Ingredient>, index: int, factor: int)
    returns (scaled: seq<Ingredient>, currentAmount: int)
    ensures |scaled| == |ings|
    ensures forall j :: 0 <= j < |ings| ==>
      scaled[j] == Ingredient(ings[j].index, ings[j].amount * factor)
    ensures currentAmount == Lookup(ings, index)
  {
    scaled := ings;
    currentAmount := -1;
    var j := 0;
    while j < |scaled|
      invariant 0 <= j <= |scaled| == |ings|
      invariant forall t :: 0 <= t < j ==> scaled[t] == Ingredient(ings[t].index, ings[t].amount * factor)
      invariant forall t :: j <= t < |scaled| ==> scaled[t] == ings[t]
      invariant currentAmount == Lookup(ings[..j], index)
    {
      if scaled[j].index == index {
        currentAmount := scaled[j].amount;
      }
      scaled := scaled[j := Ingredient(scaled[j].index, scaled[j].amount * factor)];
      assert ings[..j + 1][..j] == ings[..j];
      j := j + 1;
    }
    assert ings[..|ings|] == ings;
  }

  /** Scaling every entry by the same factor scales every lookup. */
  lemma LookupScaled(ings: seq<Ingredient>, scaled: seq<Ingredient>, factor: int, v: int)
    requires DistinctIndices(ings) && |scaled| == |ings|
    requires forall j :: 0 <= j < |ings| ==>
      scaled[j] == Ingredient(ings[j].index, ings[j].amount * factor)
    requires Has(ings, v)
    ensures Has(scaled, v)
    ensures Lookup(scaled, v) == Lookup(ings, v) * factor
  {
    var j :| 0 <= j < |ings| && ings[j].index == v;
    LookupAt(ings, j);
    assert DistinctIndices(scaled);
    LookupAt(scaled, j);
  }

  // ---------------------------------------------------------------------
  // The traversal
  // ---------------------------------------------------------------------

  /** The side of a constraint that is ingredient `index` (potion.cpp:345). */
  function Current(p: Proportion, index: int): Ingredient {
    if index == p.one.index then p.one else p.two
  }

  /** The other side of a constraint (potion.cpp:348). */
  function Other(p: Proportion, index: int): Ingredient {
    if index == p.one.index then p.two else p.one
  }

  /** Constraint `p` holds on the amounts the entries give its ingredients. */
  predicate LookupRatio(ings: seq<Ingredient>, p: Proportion) {
    Lookup(ings, p.one.index) * p.two.amount == Lookup(ings, p.two.index) * p.one.amount
  }

  predicate BothVisited(visited: seq<bool>, p: Proportion) {
    && 0 <= p.one.index < |visited| && visited[p.one.index]
    && 0 <= p.two.index < |visited| && visited[p.two.index]
  }

  /** The entries are for distinct ingredients below n, with positive amounts. */
  predicate EntriesOk(ings: seq<Ingredient>, n: int) {
    DistinctIndices(ings) && IndicesBelow(ings, n) && AmountsPositive(ings)
  }

  /** The discovered flags mark exactly the ingredients that have an entry. */
  ghost predicate VisitedIsEntries(visited: seq<bool>, ings: seq<Ingredient>) {
    forall v :: 0 <= v < |visited| ==> (visited[v] <==> Has(ings, v))
  }

  /** Every discovered ingredient is reachable from ingredient 0. */
  ghost predicate VisitedReachable(props: seq<Proportion>, visited: seq<bool>) {
    forall v :: 0 <= v < |visited| && visited[v] ==> Connected(props, 0, v)
  }

  /** Each constraint of `tree` joins discovered ingredients and holds on the
      amounts of the entries. */
  ghost predicate TreeHolds(props: seq<Proportion>, visited: seq<bool>, ings: seq<Ingredient>, tree: set<int>) {
    forall k :: k in tree ==>
      0 <= k < |props| && BothVisited(visited, props[k]) && LookupRatio(ings, props[k])
  }

  /** What the traversal state means: the discovered ingredients are exactly
      those with an entry, each is reachable from ingredient 0, the entries
      are distinct with positive amounts, and `tree` holds one discovering
      constraint per entry after the first, each holding on the amounts. */
  ghost predicate Explored(n: int, props: seq<Proportion>, visited: seq<bool>,
                           ings: seq<Ingredient>, tree: set<int>) {
    && |visited| == n
    && 0 < n && visited[0]
    && EntriesOk(ings, n)
    && VisitedIsEntries(visited, ings)
    && VisitedReachable(props, visited)
    && TreeHolds(props, visited, ings, tree)
    && |tree| + 1 == |ings|
  }

  /** Every discovered ingredient other than `except` that is no longer
      waiting in the queue has all its constraints leading to discovered
      ingredients. */
  ghost predicate Settled(props: seq<Proportion>, visited: seq<bool>, q: seq<int>, except: int) {
    forall v, k :: (0 <= v < |visited| && visited[v] && v !in q && v != except && 0 <= k < |props|
      && Endpoint(props[k], v)) ==> BothVisited(visited, props[k])
  }

  lemma ExploredInitial(n: int, props: seq<Proportion>)
    requires ValidInput(n, props)
    ensures Explored(n, props, seq(n, v => v == 0), [Ingredient(0, 1)], {})
  {
    ConnectedRefl(props, 0);
    var visited := seq(n, v => v == 0);
    forall v | 0 <= v < n ensures visited[v] <==> Has([Ingredient(0, 1)], v) {
      if v == 0 {
        assert [Ingredient(0, 1)][0].index == 0;
      }
    }
  }

  /** The entries after appending a new ingredient `e` to the rescaled ones. */
  lemma DiscoverEntries(n: int, ings: seq<Ingredient>, scaled: seq<Ingredient>, factor: int, e: Ingredient)
    requires EntriesOk(ings, n)
    requires factor > 0 && e.amount > 0 && 0 <= e.index < n && !Has(ings, e.index)
    requires |scaled| == |ings|
    requires forall j :: 0 <= j < |ings| ==>
      scaled[j] == Ingredient(ings[j].index, ings[j].amount * factor)
    ensures EntriesOk(scaled + [e], n)
    ensures forall v :: Has(scaled + [e], v) <==> Has(ings, v) || v == e.index
  {
    var ings' := scaled + [e];
    forall j | 0 <= j < |ings| ensures ings'[j].amount > 0 {
      MulPositive(ings[j].amount, factor);
    }
    forall v ensures Has(ings', v) <==> Has(ings, v) || v == e.index {
      if Has(ings, v) {
        var j :| 0 <= j < |ings| && ings[j].index == v;
        assert ings'[j].index == v;
      }
      if v == e.index {
        assert ings'[|ings|].index == v;
      }
      if Has(ings', v) {
        var j :| 0 <= j < |ings'| && ings'[j].index == v;
        if j < |ings| {
          assert ings[j].index == v;
        }
      }
    }
  }

  /** The amounts the new entries give: every old ingredient scaled, and the
      new one as appended. */
  lemma DiscoverLookup(ings: seq<Ingredient>, scaled: seq<Ingredient>, factor: int, e: Ingredient, v: int)
    requires DistinctIndices(ings)
    requires |scaled| == |ings|
    requires forall j :: 0 <= j < |ings| ==>
      scaled[j] == Ingredient(ings[j].index, ings[j].amount * factor)
    requires Has(ings, v) || v == e.index
    ensures Lookup(scaled + [e], v) == if v == e.index then e.amount else Lookup(ings, v) * factor
  {
    LookupAppend(scaled, e, v);
    if v != e.index {
      LookupScaled(ings, scaled, factor, v);
    }
  }

  lemma DiscoverVisited(visited: seq<bool>, ings: seq<Ingredient>, ings': seq<Ingredient>, x: int)
    requires VisitedIsEntries(visited, ings) && 0 <= x < |visited|
    requires forall v :: Has(ings', v) <==> Has(ings, v) || v == x
    ensures VisitedIsEntries(visited[x := true], ings')
  {
  }

  lemma DiscoverReachable(props: seq<Proportion>, visited: seq<bool>, index: int, k: int)
    requires VisitedReachable(props, visited)
    requires 0 <= index < |visited| && visited[index]
    requires 0 <= k < |props| && Endpoint(props[k], index)
    requires 0 <= Other(props[k], index).index < |visited|
    ensures VisitedReachable(props, visited[Other(props[k], index).index := true])
  {
    var p := props[k];
    var o := Other(p, index).index;
    EdgeConnected(props, k);
    if index == p.one.index {
      ConnectedTrans(props, 0, index, o);
    } else {
      ConnectedSym(props, p.one.index, p.two.index);
      ConnectedTrans(props, 0, index, o);
    }
  }

  /** Rescaling every entry keeps the constraints already in the tree. */
  lemma DiscoverTree(props: seq<Proportion>, visited: seq<bool>, ings: seq<Ingredient>,
                     scaled: seq<Ingredient>, factor: int, e: Ingredient, tree: set<int>)
    requires TreeHolds(props, visited, ings, tree) && VisitedIsEntries(visited, ings)
    requires DistinctIndices(ings) && 0 <= e.index < |visited| && !visited[e.index]
    requires |scaled| == |ings|
    requires forall j :: 0 <= j < |ings| ==>
      scaled[j] == Ingredient(ings[j].index, ings[j].amount * factor)
    ensures TreeHolds(props, visited[e.index := true], scaled + [e], tree)
  {
    forall t | t in tree
      ensures 0 <= t < |props| && BothVisited(visited[e.index := true], props[t])
      ensures LookupRatio(scaled + [e], props[t])
    {
      var u := props[t].one.index;
      var w := props[t].two.index;
      assert visited[u] && visited[w];
      DiscoverLookup(ings, scaled, factor, e, u);
      DiscoverLookup(ings, scaled, factor, e, w);
      ScaleKeepsRatio(Lookup(ings, u), Lookup(ings, w), props[t].one.amount, props[t].two.amount, factor);
    }
  }

  /** The discovering constraint holds on the new entries. */
  lemma DiscoverEdge(ings: seq<Ingredient>, scaled: seq<Ingredient>, p: Proportion, index: int, cur: int)
    requires DistinctIndices(ings) && Has(ings, index) && !Has(ings, Other(p, index).index)
    requires Endpoint(p, index) && p.one.index != p.two.index
    requires |scaled| == |ings|
    requires forall j :: 0 <= j < |ings| ==>
      scaled[j] == Ingredient(ings[j].index, ings[j].amount * Current(p, index).amount)
    requires cur == Lookup(ings, index)
    ensures LookupRatio(scaled + [Ingredient(Other(p, index).index, Other(p, index).amount * cur)], p)
  {
    var c := Current(p, index);
    var o := Other(p, index);
    var e := Ingredient(o.index, o.amount * cur);
    DiscoverLookup(ings, scaled, c.amount, e, index);
    DiscoverLookup(ings, scaled, c.amount, e, o.index);
    if index == p.one.index {
      JoinRatio(cur, p.one.amount, p.two.amount);
    } else {
      JoinRatio(cur, p.two.amount, p.one.amount);
    }
  }

  /** A constraint that holds and joins discovered ingredients can join the
      discovering constraints. */
  lemma TreeAdd(props: seq<Proportion>, visited: seq<bool>, ings: seq<Ingredient>, tree: set<int>, k: int)
    requires TreeHolds(props, visited, ings, tree)
    requires 0 <= k < |props| && k !in tree
    requires BothVisited(visited, props[k]) && LookupRatio(ings, props[k])
    ensures TreeHolds(props, visited, ings, tree + {k})
    ensures |tree + {k}| == |tree| + 1
  {
  }

  /** One discovery keeps the traversal state meaningful. */
  lemma DiscoverStep(n: int, props: seq<Proportion>, visited: seq<bool>, ings: seq<Ingredient>,
                     tree: set<int>, index: int, k: int, scaled: seq<Ingredient>, cur: int)
    requires ValidInput(n, props) && Explored(n, props, visited, ings, tree)
    requires 0 <= index < n && visited[index]
    requires 0 <= k < |props| && Endpoint(props[k], index)
    requires !visited[Other(props[k], index).index]
    requires |scaled| == |ings|
    requires forall j :: 0 <= j < |ings| ==>
      scaled[j] == Ingredient(ings[j].index, ings[j].amount * Current(props[k], index).amount)
    requires cur == Lookup(ings, index)
    ensures cur > 0 && |ings| < n
    ensures Explored(n, props, visited[Other(props[k], index).index := true],
                     scaled + [Ingredient(Other(props[k], index).index, Other(props[k], index).amount * cur)],
                     tree + {k})
  {
    var p := props[k];
    var o := Other(p, index);
    var e := Ingredient(o.index, o.amount * cur);
    var ings' := scaled + [e];
    var visited' := visited[o.index := true];
    assert WellFormed(n, p);
    assert Has(ings, index) && !Has(ings, o.index);
    LookupPositive(ings, index);
    MulPositive(o.amount, cur);
    EntriesBelowMissing(ings, n, o.index);
    DiscoverEntries(n, ings, scaled, Current(p, index).amount, e);
    DiscoverVisited(visited, ings, ings', o.index);
    DiscoverReachable(props, visited, index, k);
    DiscoverTree(props, visited, ings, scaled, Current(p, index).amount, e, tree);
    DiscoverEdge(ings, scaled, p, index, cur);
    assert BothVisited(visited', p);
    assert k !in tree;
    TreeAdd(props, visited', ings', tree, k);
  }

  lemma SettledPop(props: seq<Proportion>, visited: seq<bool>, q: seq<int>)
    requires |q| > 0 && Settled(props, visited, q, -1)
    ensures Settled(props, visited, q[1..], q[0])
  {
    forall v | v !in q[1..] && v != q[0] ensures v !in q {
      assert q == [q[0]] + q[1..];
    }
  }

  lemma SettledDiscover(props: seq<Proportion>, visited: seq<bool>, q: seq<int>, index: int, x: int)
    requires Settled(props, visited, q, index) && 0 <= x < |visited| && !visited[x]
    ensures Settled(props, visited[x := true], q + [x], index)
  {
    var visited' := visited[x := true];
    forall v, k | 0 <= v < |visited'| && visited'[v] && v !in q + [x] && v != index
      && 0 <= k < |props| && Endpoint(props[k], v)
      ensures BothVisited(visited', props[k])
    {
      assert v !in q && visited[v];
    }
  }

  lemma SettledFinish(props: seq<Proportion>, visited: seq<bool>, q: seq<int>, index: int)
    requires Settled(props, visited, q, index)
    requires forall k :: 0 <= k < |props| && Endpoint(props[k], index) ==> BothVisited(visited, props[k])
    ensures Settled(props, visited, q, -1)
  {
  }

  /** The queue holds discovered ingredients. */
  predicate QueueDiscovered(q: seq<int>, visited: seq<bool>) {
    forall t :: 0 <= t < |q| ==> 0 <= q[t] < |visited| && visited[q[t]]
  }

  /** potion.cpp:351-367: constraint k leads from `index` to the undiscovered
      ingredient `Other(props[k], index)`, which is queued, marked, and given
      an entry after every amount is rescaled. */
  method Discover(n: int, props: seq<Proportion>, index: int, k: int,
                  visited: seq<bool>, q: seq<int>, ings: seq<Ingredient>, count: int,
                  ghost tree: set<int>)
    returns (visited': seq<bool>, q': seq<int>, ings': seq<Ingredient>, count': int, ghost tree': set<int>)
    requires ValidInput(n, props)
    requires Explored(n, props, visited, ings, tree) && count == |ings| <= n
    requires 0 <= index < n && visited[index]
    requires 0 <= k < |props| && Endpoint(props[k], index)
    requires !visited[Other(props[k], index).index]
    requires QueueDiscovered(q, visited) && Settled(props, visited, q, index)
    ensures Explored(n, props, visited', ings', tree') && count' == |ings'| <= n
    ensures QueueDiscovered(q', visited') && Settled(props, visited', q', index)
    ensures visited' == visited[Other(props[k], index).index := true]
    ensures |ings'| > |ings|
  {
    var proportion := props[k];
    var current := Current(proportion, index);
    var other := Other(proportion, index);
    var scaled, currentAmount := Rescale(ings, index, current.amount);
    DiscoverStep(n, props, visited, ings, tree, index, k, scaled, currentAmount);
    SettledDiscover(props, visited, q, index, other.index);
    q' := q + [other.index];
    visited' := visited[other.index := true];
    ings' := scaled + [Ingredient(other.index, other.amount * currentAmount)];
    count' := count + 1;
    tree' := tree + {k};
  }

  /** potion.cpp:341-367: the constraints of the ingredient `index` just taken
      from the queue, in order; each one leading to an undiscovered ingredient
      discovers it. Afterwards `index` is settled, and the queue is unchanged
      unless something was discovered. */
  method VisitConnections(n: int, props: seq<Proportion>, adj: seq<seq<int>>, index: int,
                          visited: seq<bool>, q: seq<int>, ings: seq<Ingredient>, count: int,
                          ghost tree: set<int>)
    returns (visited': seq<bool>, q': seq<int>, ings': seq<Ingredient>, count': int, ghost tree': set<int>)
    requires ValidInput(n, props) && IsConnections(n, props, adj)
    requires Explored(n, props, visited, ings, tree) && count == |ings| <= n
    requires 0 <= index < n && visited[index]
    requires QueueDiscovered(q, visited) && Settled(props, visited, q, index)
    ensures Explored(n, props, visited', ings', tree') && count' == |ings'| <= n
    ensures QueueDiscovered(q', visited') && Settled(props, visited', q', -1)
    ensures |ings'| >= |ings| && (|ings'| == |ings| ==> q' == q)
  {
    visited', q', ings', count', tree' := visited, q, ings, count, tree;
    var i := 0;
    while i < |adj[index]|
      invariant 0 <= i <= |adj[index]|
      invariant Explored(n, props, visited', ings', tree') && count' == |ings'| <= n
      invariant QueueDiscovered(q', visited') && visited'[index]
      invariant Settled(props, visited', q', index)
      invariant forall t :: 0 <= t < i ==> BothVisited(visited', props[adj[index][t]])
      invariant |ings'| >= |ings| && (|ings'| == |ings| ==> q' == q)
    {
      var k := adj[index][i];
      if !visited'[Other(props[k], index).index] {
        visited', q', ings', count', tree' := Discover(n, props, index, k, visited', q', ings', count', tree');
      }
      i := i + 1;
    }
    forall k | 0 <= k < |props| && Endpoint(props[k], index)
      ensures BothVisited(visited', props[k])
    {
      var t :| 0 <= t < |adj[index]| && adj[index][t] == k;
    }
    SettledFinish(props, visited', q', index);
  }

  /** potion.cpp:324-369: the breadth-first discovery. Afterwards the entries
      are exactly the ingredients reachable from ingredient 0; all of them
      were discovered exactly when the constraints connect everything, and
      then every constraint holds on the found amounts. */
  method Traverse(n: int, props: seq<Proportion>, adj: seq<seq<int>>)
    returns (count: int, ings: seq<Ingredient>)
    requires ValidInput(n, props) && IsConnections(n, props, adj)
    ensures count == |ings|
    ensures EntriesOk(ings, n)
    ensures forall v :: 0 <= v < n ==> (Has(ings, v) <==> Connected(props, 0, v))
    ensures count == n <==> AllConnected(n, props)
    ensures count == n ==> forall k :: 0 <= k < |props| ==> LookupRatio(ings, props[k])
  {
    ings := [Ingredient(0, 1)];
    var visited := seq(n, v => v == 0);
    var q := [0];
    count := 1;
    ghost var tree: set<int> := {};
    ExploredInitial(n, props);
    while |q| > 0
      invariant Explored(n, props, visited, ings, tree)
      invariant count == |ings| <= n
      invariant QueueDiscovered(q, visited)
      invariant Settled(props, visited, q, -1)
      decreases n - |ings|, |q|
    {
      var index := q[0];
      SettledPop(props, visited, q);
      q := q[1..];
      visited, q, ings, count, tree := VisitConnections(n, props, adj, index, visited, q, ings, count, tree);
    }
    TraversalComplete(n, props, visited, ings, tree);
  }

  /** With the queue empty, the discovered set is closed under every
      constraint, hence it holds everything reachable from ingredient 0. */
  lemma ClosedDiscovered(n: int, props: seq<Proportion>, visited: seq<bool>, ings: seq<Ingredient>)
    requires ValidInput(n, props) && |visited| == n && IndicesBelow(ings, n)
    requires VisitedIsEntries(visited, ings) && visited[0]
    requires Settled(props, visited, [], -1)
    ensures forall v :: Connected(props, 0, v) ==> Has(ings, v)
  {
    var vs := IndexSet(ings);
    forall k | 0 <= k < |props|
      ensures props[k].one.index in vs <==> props[k].two.index in vs
    {
      assert WellFormed(n, props[k]);
    }
    forall v | Connected(props, 0, v) ensures Has(ings, v) {
      ClosedSetContainsReachable(props, vs, 0, v);
    }
  }

  /** Distinct entries for ingredients below n number n exactly when every
      ingredient below n has one. */
  lemma EntriesCover(ings: seq<Ingredient>, n: nat)
    requires DistinctIndices(ings) && IndicesBelow(ings, n)
    ensures |ings| == n <==> forall v :: 0 <= v < n ==> Has(ings, v)
  {
    var vs := IndexSet(ings);
    IndexSetCard(ings);
    BoundedCard(vs, n);
    if forall v :: 0 <= v < n ==> Has(ings, v) {
      assert Range(n) <= vs;
      SubsetCard(Range(n), vs);
      RangeCard(n);
    }
  }

  /** When the queue runs dry the entries are exactly the ingredients
      reachable from 0. */
  lemma DiscoveredIffReachable(n: int, props: seq<Proportion>, visited: seq<bool>,
                               ings: seq<Ingredient>, tree: set<int>)
    requires ValidInput(n, props) && Explored(n, props, visited, ings, tree)
    requires Settled(props, visited, [], -1)
    ensures forall v :: 0 <= v < n ==> (Has(ings, v) <==> Connected(props, 0, v))
  {
    ClosedDiscovered(n, props, visited, ings);
    forall v | 0 <= v < n && Has(ings, v) ensures Connected(props, 0, v) {
      assert visited[v];
    }
  }

  /** With all n entries found, the discovering constraints are all of them,
      so every constraint holds on the amounts. */
  lemma TreeIsEverything(n: int, props: seq<Proportion>, visited: seq<bool>,
                         ings: seq<Ingredient>, tree: set<int>)
    requires |props| == n - 1 && TreeHolds(props, visited, ings, tree)
    requires |tree| + 1 == |ings| == n
    ensures forall k :: 0 <= k < |props| ==> LookupRatio(ings, props[k])
  {
    assert forall k :: k in tree ==> 0 <= k < |props|;
    BoundedCard(tree, |props|);
    forall k | 0 <= k < |props| ensures LookupRatio(ings, props[k]) {
      assert k in Range(|props|);
      assert k in tree;
    }
  }

  /** When the queue runs dry the entries are the ingredients reachable from
      0; all n were found exactly when everything is connected, and then the
      tree is every constraint. */
  lemma TraversalComplete(n: int, props: seq<Proportion>, visited: seq<bool>,
                          ings: seq<Ingredient>, tree: set<int>)
    requires ValidInput(n, props) && Explored(n, props, visited, ings, tree)
    requires Settled(props, visited, [], -1)
    ensures forall v :: 0 <= v < n ==> (Has(ings, v) <==> Connected(props, 0, v))
    ensures |ings| == n <==> AllConnected(n, props)
    ensures |ings| == n ==> forall k :: 0 <= k < |props| ==> LookupRatio(ings, props[k])
  {
    DiscoveredIffReachable(n, props, visited, ings, tree);
    EntriesCover(ings, n);
    if |ings| == n {
      TreeIsEverything(n, props, visited, ings, tree);
    }
  }

  // ---------------------------------------------------------------------
  // Sorting the entries by ingredient (std::sort / Collections.sort)
  // ---------------------------------------------------------------------

  predicate SortedByIndex(s: seq<Ingredient>) {
    forall i, j :: 0 <= i < j < |s| ==> s[i].index <= s[j].index
  }

  predicate StrictlySortedByIndex(s: seq<Ingredient>) {
    forall i, j :: 0 <= i < j < |s| ==> s[i].index < s[j].index
  }

  /** No entry of `s` is for the ingredient of `x`. */
  predicate Fresh(x: Ingredient, s: seq<Ingredient>) {
    forall j :: 0 <= j < |s| ==> s[j].index != x.index
  }

  /** Insert `x` before the first entry whose ingredient does not come
      before its own: the entries of `s` with `x` added. */
  function Insert(x: Ingredient, s: seq<Ingredient>): (r: seq<Ingredient>)
    ensures |r| == |s| + 1
    ensures multiset(r) == multiset(s) + multiset{x}
    decreases |s|
  {
    if |s| == 0 then [x]
    else if x.index <= s[0].index then [x] + s
    else
      assert s == [s[0]] + s[1..];
      [s[0]] + Insert(x, s[1..])
  }

  /** Inserting into a sorted sequence keeps it sorted, strictly so when the
      new entry's ingredient is not yet present; the new first entry is `x`
      or the old first one. */
  lemma {:induction false} InsertSorted(x: Ingredient, s: seq<Ingredient>)
    requires SortedByIndex(s)
    ensures var r := Insert(x, s);
      && (r[0] == x || (|s| > 0 && r[0] == s[0]))
      && SortedByIndex(r)
      && (StrictlySortedByIndex(s) && Fresh(x, s) ==> StrictlySortedByIndex(r))
    decreases |s|
  {
    if |s| == 0 {
    } else if x.index <= s[0].index {
      ConsSorted(x, s);
    } else {
      var tail := s[1..];
      assert SortedByIndex(tail);
      assert StrictlySortedByIndex(s) ==> StrictlySortedByIndex(tail);
      assert Fresh(x, s) ==> Fresh(x, tail);
      assert |tail| > 0 ==> s[0].index <= tail[0].index;
      assert |tail| > 0 && StrictlySortedByIndex(s) ==> s[0].index < tail[0].index;
      InsertSorted(x, tail);
      ConsSorted(s[0], Insert(x, tail));
    }
  }

  /** Putting an entry in front of a sorted sequence keeps it sorted when
      the entry's ingredient comes no later than the first; strictly so
      when it comes strictly earlier. */
  lemma ConsSorted(a: Ingredient, t: seq<Ingredient>)
    requires SortedByIndex(t)
    requires |t| > 0 ==> a.index <= t[0].index
    ensures SortedByIndex([a] + t)
    ensures StrictlySortedByIndex(t) && (|t| > 0 ==> a.index < t[0].index) ==>
      StrictlySortedByIndex([a] + t)
  {
  }

  /** Sequences with the same elements have entries for the same ingredients. */
  lemma SameElementsSameIndices(r: seq<Ingredient>, s: seq<Ingredient>, x: Ingredient)
    requires multiset(r) == multiset(s)
    ensures Fresh(x, r) <==> Fresh(x, s)
  {
    forall j | 0 <= j < |r| && r[j].index == x.index ensures !Fresh(x, s) {
      assert r[j] in multiset(s);
    }
    forall j | 0 <= j < |s| && s[j].index == x.index ensures !Fresh(x, r) {
      assert s[j] in multiset(r);
    }
  }

  /** The sort of the entries by ingredient number: a permutation of its
      input, in ascending ingredient order; strictly ascending when no
      ingredient has two entries. */
  function SortByIndex(s: seq<Ingredient>): (r: seq<Ingredient>)
    ensures |r| == |s|
    ensures multiset(r) == multiset(s)
    ensures SortedByIndex(r)
    ensures DistinctIndices(s) ==> StrictlySortedByIndex(r)
    decreases |s|
  {
    if |s| == 0 then []
    else
      var init := s[..|s| - 1];
      var x := s[|s| - 1];
      assert s == init + [x];
      var r := SortByIndex(init);
      SameElementsSameIndices(r, init, x);
      InsertSorted(x, r);
      assert DistinctIndices(s) ==> DistinctIndices(init) && Fresh(x, init);
      Insert(x, r)
  }

  lemma {:induction false} StrictGap(t: seq<Ingredient>, i: int, j: int)
    requires StrictlySortedByIndex(t) && 0 <= i <= j < |t|
    ensures t[j].index - t[i].index >= j - i
    decreases j - i
  {
    if i < j {
      StrictGap(t, i, j - 1);
    }
  }

  /** n strictly ascending ingredient numbers below n are 0, 1, ..., n-1: after
      sorting, entry i is ingredient i, with the amount the traversal found. */
  lemma SortedIsIdentity(ings: seq<Ingredient>, n: int)
    requires DistinctIndices(ings) && IndicesBelow(ings, n) && |ings| == n
    ensures forall i :: 0 <= i < n ==> SortByIndex(ings)[i].index == i
    ensures forall i :: 0 <= i < n ==> SortByIndex(ings)[i].amount == Lookup(ings, i)
  {
    var t := SortByIndex(ings);
    forall i | 0 <= i < n ensures t[i].index == i && t[i].amount == Lookup(ings, i) {
      SortedAt(t, ings, n, i);
    }
  }

  /** Entry i of a strictly ascending rearrangement of n distinct entries
      below n is the entry for ingredient i. */
  lemma SortedAt(t: seq<Ingredient>, ings: seq<Ingredient>, n: int, i: int)
    requires DistinctIndices(ings) && IndicesBelow(ings, n) && |ings| == n
    requires |t| == n && multiset(t) == multiset(ings) && StrictlySortedByIndex(t)
    requires 0 <= i < n
    ensures t[i].index == i && t[i].amount == Lookup(ings, i)
  {
    assert t[0] in multiset(ings) && t[n - 1] in multiset(ings) && t[i] in multiset(ings);
    var j0 :| 0 <= j0 < |ings| && ings[j0] == t[0];
    var j1 :| 0 <= j1 < |ings| && ings[j1] == t[n - 1];
    StrictGap(t, 0, i);
    StrictGap(t, i, n - 1);
    var j :| 0 <= j < |ings| && ings[j] == t[i];
    LookupAt(ings, j);
  }

  // ---------------------------------------------------------------------
  // The solver
  // ---------------------------------------------------------------------

  /** The amounts of the entries, in order. */
  function AmountsOf(t: seq<Ingredient>): (w: seq<int>)
    ensures |w| == |t| && forall i :: 0 <= i < |t| ==> w[i] == t[i].amount
  {
    seq(|t|, i requires 0 <= i < |t| => t[i].amount)
  }

  /** The check at potion.cpp:380-384: entry i is ingredient i. */
  predicate IsIdentity(t: seq<Ingredient>) {
    forall i | 0 <= i < |t| :: t[i].index == i
  }

  /** potion.cpp determineProportionsUsingDFS (and PotionDFS.cpp). It
      succeeds exactly when the constraints connect every ingredient to
      ingredient 0, and then writes the normalised solution; otherwise the
      output vector is left as it was. */
  method DetermineProportionsUsingDFS(n: int, props: seq<Proportion>, outIn: seq<real>)
    returns (ok: bool, out: seq<real>)
    requires ValidInput(n, props) && |outIn| == n
    ensures ok <==> AllConnected(n, props)
    ensures !ok ==> out == outIn
    ensures ok ==> NormalisedSolution(out, n, props)
  {
    var adj := BuildConnections(n, props);
    var count, ings := Traverse(n, props, adj);
    if count != n {
      return false, outIn;
    }
    var sorted := SortByIndex(ings);
    SortedIsIdentity(ings, n);
    if !IsIdentity(sorted) {
      ok, out := false, outIn;
    } else {
      var w := AmountsOf(sorted);
      forall v | 0 <= v < n ensures w[v] > 0 {
        LookupPositive(ings, v);
      }
      forall k | 0 <= k < |props| ensures RatioHolds(w, props[k]) {
        assert LookupRatio(ings, props[k]);
      }
      NormaliseSolves(w, props);
      out := Normalise(w);
      ok := true;
    }
  }

  datatype Option<T> = None | Some(value: T)

  /** Potion.java determineProportionsUsingDFS, called with N = (number of
      constraints) + 1: the same traversal, returning the proportions or
      nothing. */
  method DetermineProportionsJava(props: seq<Proportion>) returns (r: Option<seq<real>>)
    requires EdgesIn(|props| + 1, props)
    ensures r.Some? <==> AllConnected(|props| + 1, props)
    ensures r.Some? ==> NormalisedSolution(r.value, |props| + 1, props)
  {
    var n := |props| + 1;
    var proportions := seq(n, _ => 0.0);
    var ok, out := DetermineProportionsUsingDFS(n, props, proportions);
    r := if ok then Some(out) else None;
  }
}
