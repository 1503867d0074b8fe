/** The incremental group-merge solver of potion.cpp (class Potion and
    determineProportions). Each ingredient carries an amount and a group id
    (0 = not yet grouped); constraints are applied in input order, creating,
    extending or merging groups, and the solver gives up as soon as a
    constraint joins two ingredients of the same group. */
module GroupMerge {
  import opened Constraints
  import opened Connectivity
  import opened Weights
  import opened Sums

  /** The state potion.cpp keeps per ingredient. */
  datatype Slot = Slot(amount: int, group: int)

  /** The Potion object: one slot per ingredient and the next fresh group id. */
  datatype Potion = Potion(slots: seq<Slot>, maxGroup: int)

  function Amounts(p: Potion): (w: seq<int>)
    ensures |w| == |p.slots|
    ensures forall i :: 0 <= i < |w| ==> w[i] == p.slots[i].amount
  {
    seq(|p.slots|, i requires 0 <= i < |p.slots| => p.slots[i].amount)
  }

  /** Potion(N): every slot value-initialised to amount 0, group 0; next id 1. */
  function NewPotion(n: nat): (p: Potion)
    ensures |p.slots| == n && p.maxGroup == 1
    ensures forall i :: 0 <= i < n ==> p.slots[i].group == 0 && p.slots[i].amount == 0
  {
    Potion(seq(n, _ => Slot(0, 0)), 1)
  }

  /** Group ids are below the next fresh id, which is at least 1. */
  predicate GroupsBelow(p: Potion) {
    && p.maxGroup >= 1
    && forall i :: 0 <= i < |p.slots| ==> 0 <= p.slots[i].group < p.maxGroup
  }

  /** An ingredient has a group exactly when some constraint of `es` mentions it. */
  ghost predicate GroupedIffTouched(p: Potion, es: seq<Proportion>) {
    forall i :: 0 <= i < |p.slots| ==> (p.slots[i].group == 0 <==> !Touched(es, i))
  }

  /** Ungrouped ingredients have amount 0, grouped ones a positive amount. */
  predicate AmountsFollowGroups(p: Potion) {
    forall i :: 0 <= i < |p.slots| ==>
      if p.slots[i].group == 0 then p.slots[i].amount == 0 else p.slots[i].amount > 0
  }

  /** Two ingredients, the first grouped, share a group exactly when the
      constraints `es` connect them: the groups are the connected components. */
  ghost predicate GroupsAreComponents(p: Potion, es: seq<Proportion>) {
    forall i, j :: 0 <= i < |p.slots| && 0 <= j < |p.slots| && p.slots[i].group != 0 ==>
      (p.slots[i].group == p.slots[j].group <==> Connected(es, i, j))
  }

  /** What the Potion state means after the constraints `es` were applied to
      `n` ingredients: the four properties above, and every applied
      constraint holds on the amounts. */
  ghost predicate Inv(p: Potion, n: int, es: seq<Proportion>) {
    && |p.slots| == n
    && EdgesIn(n, es)
    && GroupsBelow(p)
    && GroupedIffTouched(p, es)
    && AmountsFollowGroups(p)
    && GroupsAreComponents(p, es)
    && AllRatiosHold(Amounts(p), es)
  }

  lemma InvInitial(n: nat)
    ensures Inv(NewPotion(n), n, [])
  {
  }

  // ---------------------------------------------------------------------
  // The private helpers of class Potion
  // ---------------------------------------------------------------------

  /** potion.cpp multiply: scale every member of `group`, leave the rest. */
  method Multiply(p: Potion, m: int, group: int) returns (q: Potion)
    ensures q.maxGroup == p.maxGroup && |q.slots| == |p.slots|
    ensures forall i :: 0 <= i < |p.slots| && p.slots[i].group == group ==>
      q.slots[i] == Slot(p.slots[i].amount * m, group)
    ensures forall i :: 0 <= i < |p.slots| && p.slots[i].group != group ==> q.slots[i] == p.slots[i]
  {
    var s := p.slots;
    var i := 0;
    while i < |s|
      invariant 0 <= i <= |s| == |p.slots|
      invariant forall j :: 0 <= j < i && p.slots[j].group == group ==> s[j] == Slot(p.slots[j].amount * m, group)
      invariant forall j :: 0 <= j < i && p.slots[j].group != group ==> s[j] == p.slots[j]
      invariant forall j :: i <= j < |s| ==> s[j] == p.slots[j]
    {
      if s[i].group == group {
        s := s[i := Slot(s[i].amount * m, s[i].group)];
      }
      i := i + 1;
    }
    q := Potion(s, p.maxGroup);
  }

  /** potion.cpp modifyGroup: relabel every member of `fromGroup` as `toGroup`. */
  method ModifyGroup(p: Potion, fromGroup: int, toGroup: int) returns (q: Potion)
    ensures q.maxGroup == p.maxGroup && |q.slots| == |p.slots|
    ensures forall i :: 0 <= i < |p.slots| && p.slots[i].group == fromGroup ==>
      q.slots[i] == Slot(p.slots[i].amount, toGroup)
    ensures forall i :: 0 <= i < |p.slots| && p.slots[i].group != fromGroup ==> q.slots[i] == p.slots[i]
  {
    var s := p.slots;
    var i := 0;
    while i < |s|
      invariant 0 <= i <= |s| == |p.slots|
      invariant forall j :: 0 <= j < i && p.slots[j].group == fromGroup ==> s[j] == Slot(p.slots[j].amount, toGroup)
      invariant forall j :: 0 <= j < i && p.slots[j].group != fromGroup ==> s[j] == p.slots[j]
      invariant forall j :: i <= j < |s| ==> s[j] == p.slots[j]
    {
      if s[i].group == fromGroup {
        s := s[i := Slot(s[i].amount, toGroup)];
      }
      i := i + 1;
    }
    q := Potion(s, p.maxGroup);
  }

  /** potion.cpp set: give one ingredient an amount and a group. */
  function SetSlot(p: Potion, ing: Ingredient, group: int): (q: Potion)
    requires 0 <= ing.index < |p.slots|
    ensures |q.slots| == |p.slots| && q.maxGroup == p.maxGroup
    ensures q.slots[ing.index] == Slot(ing.amount, group)
    ensures forall i :: 0 <= i < |p.slots| && i != ing.index ==> q.slots[i] == p.slots[i]
  {
    p.(slots := p.slots[ing.index := Slot(ing.amount, group)])
  }

  /** potion.cpp addNewGroup: both ingredients of the constraint get their own
      ratio values as amounts and the fresh group id, which is then consumed. */
  function AddNewGroup(p: Potion, prop: Proportion): (q: Potion)
    requires 0 <= prop.one.index < |p.slots| && 0 <= prop.two.index < |p.slots|
    requires prop.one.index != prop.two.index
    ensures |q.slots| == |p.slots| && q.maxGroup == p.maxGroup + 1
    ensures q.slots[prop.one.index] == Slot(prop.one.amount, p.maxGroup)
    ensures q.slots[prop.two.index] == Slot(prop.two.amount, p.maxGroup)
    ensures forall i :: 0 <= i < |p.slots| && !Endpoint(prop, i) ==> q.slots[i] == p.slots[i]
  {
    var r := SetSlot(SetSlot(p, prop.one, p.maxGroup), prop.two, p.maxGroup);
    r.(maxGroup := p.maxGroup + 1)
  }

  /** potion.cpp isSingleGroup: every ingredient is in ingredient 0's group,
      which is to say that any two ingredients share a group. */
  function IsSingleGroup(p: Potion): (r: bool)
    requires |p.slots| > 0
    ensures r <==> forall i, j :: 0 <= i < |p.slots| && 0 <= j < |p.slots| ==>
      p.slots[i].group == p.slots[j].group
  {
    forall i | 0 <= i < |p.slots| :: p.slots[i].group == p.slots[0].group
  }

  // ---------------------------------------------------------------------
  // Arithmetic and graph facts used by the three transitions
  // ---------------------------------------------------------------------

  lemma TouchedSnoc(es: seq<Proportion>, e: Proportion, v: int)
    ensures Touched(es + [e], v) <==> Touched(es, v) || Endpoint(e, v)
  {
    var es' := es + [e];
    if Touched(es, v) {
      var k :| 0 <= k < |es| && Endpoint(es[k], v);
      assert es'[k] == es[k];
    }
    if Endpoint(e, v) {
      assert es'[|es|] == e;
    }
    if Touched(es', v) {
      var k :| 0 <= k < |es'| && Endpoint(es'[k], v);
      if k < |es| {
        assert es'[k] == es[k];
      }
    }
  }

  lemma EdgesInSnoc(n: int, es: seq<Proportion>, e: Proportion)
    requires EdgesIn(n, es) && WellFormed(n, e)
    ensures EdgesIn(n, es + [e])
  {
    var es' := es + [e];
    forall k | 0 <= k < |es'| ensures WellFormed(n, es'[k]) {
      if k < |es| {
        assert es'[k] == es[k];
      }
    }
  }

  /** Under the invariant, the two ends of an applied constraint are grouped
      and share their group. */
  lemma EdgeInOneGroup(p: Potion, es: seq<Proportion>, k: int)
    requires EdgesIn(|p.slots|, es) && GroupedIffTouched(p, es) && GroupsAreComponents(p, es)
    requires 0 <= k < |es|
    ensures p.slots[es[k].one.index].group != 0
    ensures p.slots[es[k].one.index].group == p.slots[es[k].two.index].group
  {
    assert Touched(es, es[k].one.index);
    EdgeConnected(es, k);
  }

  /** After a transition, exactly the ingredients mentioned so far are grouped. */
  lemma GroupedAfterStep(q: Potion, es: seq<Proportion>, prop: Proportion)
    requires forall i :: 0 <= i < |q.slots| ==>
      (q.slots[i].group == 0 <==> !Touched(es, i) && !Endpoint(prop, i))
    ensures GroupedIffTouched(q, es + [prop])
  {
    forall i | 0 <= i < |q.slots| ensures q.slots[i].group == 0 <==> !Touched(es + [prop], i) {
      TouchedSnoc(es, prop, i);
    }
  }

  // ---------------------------------------------------------------------
  // The three successful transitions preserve the invariant
  // ---------------------------------------------------------------------

  /** Neither ingredient grouped: the components are the old ones plus the
      new pair. */
  lemma NewGroupPair(p: Potion, q: Potion, es: seq<Proportion>, prop: Proportion, i: int, j: int)
    requires GroupsBelow(p) && GroupsAreComponents(p, es) && WellFormed(|p.slots|, prop)
    requires !Touched(es, prop.one.index) && !Touched(es, prop.two.index)
    requires q == AddNewGroup(p, prop)
    requires 0 <= i < |p.slots| && 0 <= j < |p.slots| && q.slots[i].group != 0
    ensures q.slots[i].group == q.slots[j].group <==> Connected(es + [prop], i, j)
  {
    var a := prop.one.index;
    var b := prop.two.index;
    ConnectedSnoc(es, prop, i, j);
    UntouchedIsolated(es, a, i);
    UntouchedIsolated(es, a, j);
    UntouchedIsolated(es, b, i);
    UntouchedIsolated(es, b, j);
    if i != a && i != b {
      assert p.slots[i].group == p.slots[j].group <==> Connected(es, i, j);
    }
  }

  lemma NewGroupComponents(p: Potion, q: Potion, n: int, es: seq<Proportion>, prop: Proportion)
    requires Inv(p, n, es) && WellFormed(n, prop)
    requires p.slots[prop.one.index].group == 0 && p.slots[prop.two.index].group == 0
    requires q == AddNewGroup(p, prop)
    ensures GroupsAreComponents(q, es + [prop])
  {
    forall i, j | 0 <= i < n && 0 <= j < n && q.slots[i].group != 0
      ensures q.slots[i].group == q.slots[j].group <==> Connected(es + [prop], i, j)
    {
      NewGroupPair(p, q, es, prop, i, j);
    }
  }

  lemma NewGroupRatios(p: Potion, q: Potion, n: int, es: seq<Proportion>, prop: Proportion)
    requires |p.slots| == n && EdgesIn(n, es) && WellFormed(n, prop)
    requires GroupedIffTouched(p, es) && AllRatiosHold(Amounts(p), es)
    requires p.slots[prop.one.index].group == 0 && p.slots[prop.two.index].group == 0
    requires q == AddNewGroup(p, prop)
    ensures AllRatiosHold(Amounts(q), es + [prop])
  {
    var es' := es + [prop];
    forall k | 0 <= k < |es'| ensures RatioHolds(Amounts(q), es'[k]) {
      if k < |es| {
        var e := es[k];
        assert es'[k] == e;
        assert !Touched(es, prop.one.index) && !Touched(es, prop.two.index);
        assert !Endpoint(prop, e.one.index) by { assert Endpoint(es[k], e.one.index); }
        assert !Endpoint(prop, e.two.index) by { assert Endpoint(es[k], e.two.index); }
        assert Amounts(q)[e.one.index] == Amounts(p)[e.one.index];
        assert Amounts(q)[e.two.index] == Amounts(p)[e.two.index];
        assert RatioHolds(Amounts(p), e);
      } else {
        assert es'[k] == prop;
      }
    }
  }

  lemma NewGroupStep(p: Potion, q: Potion, n: int, es: seq<Proportion>, prop: Proportion)
    requires Inv(p, n, es) && WellFormed(n, prop)
    requires p.slots[prop.one.index].group == 0 && p.slots[prop.two.index].group == 0
    requires q == AddNewGroup(p, prop)
    ensures Inv(q, n, es + [prop])
  {
    EdgesInSnoc(n, es, prop);
    GroupedAfterStep(q, es, prop);
    NewGroupComponents(p, q, n, es, prop);
    NewGroupRatios(p, q, n, es, prop);
  }

  /** `x` and `y` are the two sides of `prop`, in either order. */
  predicate Sides(prop: Proportion, x: Ingredient, y: Ingredient) {
    (x == prop.one && y == prop.two) || (x == prop.two && y == prop.one)
  }

  /** `q` is `p` after the one-grouped transition: the group of `x` is scaled
      by x.amount, and `y` joins it with amount y.amount * (old amount of x). */
  predicate Extended(p: Potion, q: Potion, x: Ingredient, y: Ingredient)
    requires 0 <= x.index < |p.slots| && 0 <= y.index < |p.slots|
  {
    var g := p.slots[x.index].group;
    && |q.slots| == |p.slots|
    && q.maxGroup == p.maxGroup
    && (forall i :: 0 <= i < |p.slots| && i != y.index && p.slots[i].group == g ==>
          q.slots[i] == Slot(p.slots[i].amount * x.amount, g))
    && (forall i :: 0 <= i < |p.slots| && i != y.index && p.slots[i].group != g ==>
          q.slots[i] == p.slots[i])
    && q.slots[y.index] == Slot(y.amount * p.slots[x.index].amount, g)
  }

  lemma ExtendPair(p: Potion, q: Potion, es: seq<Proportion>, prop: Proportion,
                   x: Ingredient, y: Ingredient, i: int, j: int)
    requires GroupsAreComponents(p, es) && WellFormed(|p.slots|, prop) && Sides(prop, x, y)
    requires p.slots[x.index].group != 0 && !Touched(es, y.index)
    requires Extended(p, q, x, y)
    requires 0 <= i < |p.slots| && 0 <= j < |p.slots| && q.slots[i].group != 0
    ensures q.slots[i].group == q.slots[j].group <==> Connected(es + [prop], i, j)
  {
    ConnectedSnoc(es, prop, i, j);
    UntouchedIsolated(es, y.index, i);
    UntouchedIsolated(es, y.index, j);
    if i == y.index && j == y.index {
      ConnectedRefl(es + [prop], i);
    } else if i == y.index {
      assert p.slots[x.index].group == p.slots[j].group <==> Connected(es, x.index, j);
    } else if j == y.index {
      assert p.slots[i].group == p.slots[x.index].group <==> Connected(es, i, x.index);
    } else {
      assert p.slots[i].group == p.slots[j].group <==> Connected(es, i, j);
    }
  }

  lemma ExtendRatio(p: Potion, q: Potion, es: seq<Proportion>, x: Ingredient, y: Ingredient, k: int)
    requires EdgesIn(|p.slots|, es) && GroupedIffTouched(p, es) && GroupsAreComponents(p, es)
    requires AllRatiosHold(Amounts(p), es)
    requires 0 <= x.index < |p.slots| && 0 <= y.index < |p.slots| && !Touched(es, y.index)
    requires Extended(p, q, x, y)
    requires 0 <= k < |es|
    ensures RatioHolds(Amounts(q), es[k])
  {
    var e := es[k];
    EdgeInOneGroup(p, es, k);
    assert Touched(es, e.one.index) && Touched(es, e.two.index);
    assert RatioHolds(Amounts(p), e);
    if p.slots[e.one.index].group == p.slots[x.index].group {
      ScaleKeepsRatio(p.slots[e.one.index].amount, p.slots[e.two.index].amount,
                      e.one.amount, e.two.amount, x.amount);
    }
  }

  lemma ExtendAmounts(p: Potion, q: Potion, n: int, x: Ingredient, y: Ingredient)
    requires |p.slots| == n && AmountsFollowGroups(p) && x.amount > 0 && y.amount > 0
    requires 0 <= x.index < n && 0 <= y.index < n
    requires p.slots[x.index].group != 0 && p.slots[y.index].group == 0
    requires Extended(p, q, x, y)
    ensures AmountsFollowGroups(q)
  {
    var g := p.slots[x.index].group;
    forall i | 0 <= i < n
      ensures if q.slots[i].group == 0 then q.slots[i].amount == 0 else q.slots[i].amount > 0
    {
      if i == y.index {
        MulPositive(y.amount, p.slots[x.index].amount);
      } else if p.slots[i].group == g {
        MulPositive(p.slots[i].amount, x.amount);
      }
    }
  }

  lemma ExtendComponents(p: Potion, q: Potion, n: int, es: seq<Proportion>, prop: Proportion,
                         x: Ingredient, y: Ingredient)
    requires Inv(p, n, es) && WellFormed(n, prop) && Sides(prop, x, y)
    requires p.slots[x.index].group != 0 && p.slots[y.index].group == 0
    requires Extended(p, q, x, y)
    ensures GroupsAreComponents(q, es + [prop])
  {
    forall i, j | 0 <= i < n && 0 <= j < n && q.slots[i].group != 0
      ensures q.slots[i].group == q.slots[j].group <==> Connected(es + [prop], i, j)
    {
      ExtendPair(p, q, es, prop, x, y, i, j);
    }
  }

  lemma ExtendRatios(p: Potion, q: Potion, n: int, es: seq<Proportion>, prop: Proportion,
                     x: Ingredient, y: Ingredient)
    requires Inv(p, n, es) && WellFormed(n, prop) && Sides(prop, x, y)
    requires p.slots[x.index].group != 0 && p.slots[y.index].group == 0
    requires Extended(p, q, x, y)
    ensures AllRatiosHold(Amounts(q), es + [prop])
  {
    var es' := es + [prop];
    forall k | 0 <= k < |es'| ensures RatioHolds(Amounts(q), es'[k]) {
      if k < |es| {
        assert es'[k] == es[k];
        ExtendRatio(p, q, es, x, y, k);
      } else {
        assert es'[k] == prop;
        JoinRatio(p.slots[x.index].amount, x.amount, y.amount);
      }
    }
  }

  /** Exactly one ingredient grouped: its group is scaled by its own ratio
      value and the other ingredient joins with ratio * the old amount. */
  lemma ExtendStep(p: Potion, q: Potion, n: int, es: seq<Proportion>, prop: Proportion,
                   x: Ingredient, y: Ingredient)
    requires Inv(p, n, es) && WellFormed(n, prop) && Sides(prop, x, y)
    requires p.slots[x.index].group != 0 && p.slots[y.index].group == 0
    requires Extended(p, q, x, y)
    ensures Inv(q, n, es + [prop])
  {
    EdgesInSnoc(n, es, prop);
    GroupedAfterStep(q, es, prop);
    ExtendAmounts(p, q, n, x, y);
    ExtendComponents(p, q, n, es, prop, x, y);
    ExtendRatios(p, q, n, es, prop, x, y);
  }

  /** `q` is `p` after the merge transition: the group of one is scaled by
      one.amount * (amount of two), the group of two by two.amount * (amount
      of one) and relabelled as the group of one. */
  predicate Merged(p: Potion, q: Potion, prop: Proportion)
    requires 0 <= prop.one.index < |p.slots| && 0 <= prop.two.index < |p.slots|
  {
    var ga := p.slots[prop.one.index].group;
    var gb := p.slots[prop.two.index].group;
    && |q.slots| == |p.slots|
    && q.maxGroup == p.maxGroup
    && (forall i :: 0 <= i < |p.slots| && p.slots[i].group == ga ==>
          q.slots[i] == Slot(p.slots[i].amount * (prop.one.amount * p.slots[prop.two.index].amount), ga))
    && (forall i :: 0 <= i < |p.slots| && p.slots[i].group == gb ==>
          q.slots[i] == Slot(p.slots[i].amount * (prop.two.amount * p.slots[prop.one.index].amount), ga))
    && (forall i :: 0 <= i < |p.slots| && p.slots[i].group != ga && p.slots[i].group != gb ==>
          q.slots[i] == p.slots[i])
  }

  lemma MergePair(p: Potion, q: Potion, es: seq<Proportion>, prop: Proportion, i: int, j: int)
    requires GroupsAreComponents(p, es) && WellFormed(|p.slots|, prop)
    requires p.slots[prop.one.index].group != 0 && p.slots[prop.two.index].group != 0
    requires Merged(p, q, prop)
    requires 0 <= i < |p.slots| && 0 <= j < |p.slots| && q.slots[i].group != 0
    ensures q.slots[i].group == q.slots[j].group <==> Connected(es + [prop], i, j)
  {
    var a := prop.one.index;
    var b := prop.two.index;
    ConnectedSnoc(es, prop, i, j);
    assert p.slots[i].group != 0;
    assert p.slots[i].group == p.slots[j].group <==> Connected(es, i, j);
    assert p.slots[i].group == p.slots[a].group <==> Connected(es, i, a);
    assert p.slots[i].group == p.slots[b].group <==> Connected(es, i, b);
    assert p.slots[a].group == p.slots[j].group <==> Connected(es, a, j);
    assert p.slots[b].group == p.slots[j].group <==> Connected(es, b, j);
  }

  lemma MergeRatioAt(p: Potion, q: Potion, es: seq<Proportion>, prop: Proportion, k: int)
    requires EdgesIn(|p.slots|, es) && GroupedIffTouched(p, es) && GroupsAreComponents(p, es)
    requires AllRatiosHold(Amounts(p), es)
    requires 0 <= prop.one.index < |p.slots| && 0 <= prop.two.index < |p.slots|
    requires Merged(p, q, prop)
    requires 0 <= k < |es|
    ensures RatioHolds(Amounts(q), es[k])
  {
    var e := es[k];
    var u := e.one.index;
    var v := e.two.index;
    var a := prop.one.index;
    var b := prop.two.index;
    EdgeInOneGroup(p, es, k);
    assert RatioHolds(Amounts(p), e);
    if p.slots[u].group == p.slots[a].group {
      ScaleKeepsRatio(p.slots[u].amount, p.slots[v].amount, e.one.amount, e.two.amount,
                      prop.one.amount * p.slots[b].amount);
    } else if p.slots[u].group == p.slots[b].group {
      ScaleKeepsRatio(p.slots[u].amount, p.slots[v].amount, e.one.amount, e.two.amount,
                      prop.two.amount * p.slots[a].amount);
    }
  }

  lemma MergeAmounts(p: Potion, q: Potion, n: int, prop: Proportion)
    requires |p.slots| == n && AmountsFollowGroups(p) && WellFormed(n, prop)
    requires p.slots[prop.one.index].group != 0 && p.slots[prop.two.index].group != 0
    requires Merged(p, q, prop)
    ensures AmountsFollowGroups(q)
  {
    var a := prop.one.index;
    var b := prop.two.index;
    forall i | 0 <= i < n
      ensures if q.slots[i].group == 0 then q.slots[i].amount == 0 else q.slots[i].amount > 0
    {
      if p.slots[i].group == p.slots[a].group {
        MulPositive(prop.one.amount, p.slots[b].amount);
        MulPositive(p.slots[i].amount, prop.one.amount * p.slots[b].amount);
      } else if p.slots[i].group == p.slots[b].group {
        MulPositive(prop.two.amount, p.slots[a].amount);
        MulPositive(p.slots[i].amount, prop.two.amount * p.slots[a].amount);
      }
    }
  }

  lemma MergeComponents(p: Potion, q: Potion, n: int, es: seq<Proportion>, prop: Proportion)
    requires Inv(p, n, es) && WellFormed(n, prop)
    requires p.slots[prop.one.index].group != 0 && p.slots[prop.two.index].group != 0
    requires Merged(p, q, prop)
    ensures GroupsAreComponents(q, es + [prop])
  {
    forall i, j | 0 <= i < n && 0 <= j < n && q.slots[i].group != 0
      ensures q.slots[i].group == q.slots[j].group <==> Connected(es + [prop], i, j)
    {
      MergePair(p, q, es, prop, i, j);
    }
  }

  lemma MergeRatios(p: Potion, q: Potion, n: int, es: seq<Proportion>, prop: Proportion)
    requires Inv(p, n, es) && WellFormed(n, prop)
    requires p.slots[prop.one.index].group != 0 && p.slots[prop.two.index].group != 0
    requires Merged(p, q, prop)
    ensures AllRatiosHold(Amounts(q), es + [prop])
  {
    var a := prop.one.index;
    var b := prop.two.index;
    var es' := es + [prop];
    forall k | 0 <= k < |es'| ensures RatioHolds(Amounts(q), es'[k]) {
      if k < |es| {
        assert es'[k] == es[k];
        MergeRatioAt(p, q, es, prop, k);
      } else {
        assert es'[k] == prop;
        MergeRatio(p.slots[a].amount, p.slots[b].amount, prop.one.amount, prop.two.amount);
      }
    }
  }

  /** Both grouped, in different groups: the two groups become one whose
      amounts satisfy the new constraint as well as the old ones. */
  lemma MergeStep(p: Potion, q: Potion, n: int, es: seq<Proportion>, prop: Proportion)
    requires Inv(p, n, es) && WellFormed(n, prop)
    requires p.slots[prop.one.index].group != 0 && p.slots[prop.two.index].group != 0
    requires Merged(p, q, prop)
    ensures Inv(q, n, es + [prop])
  {
    EdgesInSnoc(n, es, prop);
    GroupedAfterStep(q, es, prop);
    MergeAmounts(p, q, n, prop);
    MergeComponents(p, q, n, es, prop);
    MergeRatios(p, q, n, es, prop);
  }

  // ---------------------------------------------------------------------
  // addProportion and the solver
  // ---------------------------------------------------------------------

  /** potion.cpp addProportion. Applies one constraint to the state reached
      after the constraints `es`; fails, leaving the state alone, exactly when
      the constraint's ingredients are already connected (same group). */
  method AddProportion(p: Potion, prop: Proportion, ghost n: int, ghost es: seq<Proportion>)
    returns (ok: bool, q: Potion)
    requires Inv(p, n, es) && WellFormed(n, prop)
    ensures ok <==> !Connected(es, prop.one.index, prop.two.index)
    ensures !ok ==> q == p
    ensures ok ==> Inv(q, n, es + [prop])
    ensures p.slots[prop.one.index].group == 0 && p.slots[prop.two.index].group == 0 ==>
      && q.slots[prop.one.index] == Slot(prop.one.amount, p.maxGroup)
      && q.slots[prop.two.index] == Slot(prop.two.amount, p.maxGroup)
      && q.maxGroup == p.maxGroup + 1
    ensures p.slots[prop.one.index].group != 0 || p.slots[prop.two.index].group != 0 ==>
      q.maxGroup == p.maxGroup
    ensures ok ==> forall i :: (0 <= i < n && !Endpoint(prop, i)
      && p.slots[i].group != p.slots[prop.one.index].group
      && p.slots[i].group != p.slots[prop.two.index].group) ==> q.slots[i] == p.slots[i]
  {
    var one := prop.one;
    var two := prop.two;
    if p.slots[one.index].group == 0 && p.slots[two.index].group == 0 {
      q := AddNewGroup(p, prop);
      NewGroupStep(p, q, n, es, prop);
      UntouchedIsolated(es, one.index, two.index);
      return true, q;
    }

    var oneAssigned := false;
    var grouped, ungrouped := one, two;
    if p.slots[one.index].group != 0 && p.slots[two.index].group == 0 {
      oneAssigned := true;
      grouped, ungrouped := one, two;
    } else if p.slots[one.index].group == 0 && p.slots[two.index].group != 0 {
      oneAssigned := true;
      grouped, ungrouped := two, one;
    }

    if oneAssigned {
      var existingAmount := p.slots[grouped.index].amount;
      var g := p.slots[grouped.index].group;
      var scaled := Multiply(p, grouped.amount, g);
      q := SetSlot(scaled, Ingredient(ungrouped.index, ungrouped.amount * existingAmount), g);
      ExtendStep(p, q, n, es, prop, grouped, ungrouped);
      UntouchedIsolated(es, ungrouped.index, grouped.index);
      return true, q;
    }

    // Both ingredients are grouped.
    if p.slots[one.index].group == p.slots[two.index].group {
      return false, p;
    }
    var value1 := p.slots[one.index].amount;
    var value2 := p.slots[two.index].amount;
    var r1 := Multiply(p, one.amount * value2, p.slots[one.index].group);
    var r2 := Multiply(r1, two.amount * value1, r1.slots[two.index].group);
    q := ModifyGroup(r2, r2.slots[two.index].group, r2.slots[one.index].group);
    MergeStep(p, q, n, es, prop);
    return true, q;
  }

  /** After all constraints are applied, isSingleGroup holds exactly when the
      constraints connect every ingredient to ingredient 0. */
  lemma SingleGroupIffConnected(p: Potion, n: int, es: seq<Proportion>)
    requires n >= 1 && Inv(p, n, es)
    requires n == 1 || |es| > 0
    ensures IsSingleGroup(p) <==> AllConnected(n, es)
  {
    if n == 1 {
      ConnectedRefl(es, 0);
    } else {
      if AllConnected(n, es) {
        assert Connected(es, 0, 1);
        ConnectedDistinctTouched(es, 0, 1);
        assert p.slots[0].group != 0;
        forall i | 0 <= i < n ensures p.slots[i].group == p.slots[0].group {
          assert Connected(es, 0, i);
        }
      }
      if IsSingleGroup(p) {
        var a := es[0].one.index;
        assert Touched(es, a);
        assert p.slots[a].group != 0;
        assert p.slots[0].group != 0;
        forall v | 0 <= v < n ensures Connected(es, 0, v) {
          assert p.slots[v].group == p.slots[0].group;
        }
      }
    }
  }

  /** potion.cpp determineProportions up to, but not including, the final
      normalisation: the constraints are applied in order, stopping at the
      first one whose ingredients are already in one group, and success then
      requires isSingleGroup. Success is exactly the spanning-tree condition;
      on success with two or more ingredients the amounts are positive and
      satisfy every constraint. With a single ingredient the state is never
      touched, so it reports success with the one amount still 0. */
  method Resolve(n: int, props: seq<Proportion>) returns (ok: bool, p: Potion)
    requires ValidInput(n, props)
    ensures |p.slots| == n
    ensures ok <==> SpanningTree(n, props)
    ensures ok && n >= 2 ==> Positive(Amounts(p)) && AllRatiosHold(Amounts(p), props)
    ensures n == 1 ==> ok && p == NewPotion(1)
  {
    p := NewPotion(n);
    InvInitial(n);
    assert props[..0] == [];
    var i := 0;
    while i < n - 1
      invariant 0 <= i <= n - 1
      invariant Inv(p, n, props[..i])
      invariant Forest(props[..i])
      invariant i == 0 ==> p == NewPotion(n)
    {
      assert props[..i + 1] == props[..i] + [props[i]];
      var added;
      added, p := AddProportion(p, props[i], n, props[..i]);
      if !added {
        CycleNotForest(props, i);
        return false, p;
      }
      ForestSnocIff(props[..i], props[i]);
      i := i + 1;
    }
    assert props[..n - 1] == props;
    SingleGroupIffConnected(p, n, props);
    ok := IsSingleGroup(p);
    if ok && n >= 2 {
      SolvedAmounts(p, n, props);
    }
  }

  /** Once the constraints connect two or more ingredients, every ingredient
      has a group, so every amount is positive, and every constraint holds. */
  lemma SolvedAmounts(p: Potion, n: int, es: seq<Proportion>)
    requires n >= 2 && Inv(p, n, es) && AllConnected(n, es)
    ensures Positive(Amounts(p)) && AllRatiosHold(Amounts(p), es)
  {
    forall i | 0 <= i < n ensures p.slots[i].amount > 0 {
      var other := if i == 0 then 1 else 0;
      assert Connected(es, 0, i) && Connected(es, 0, other);
      if i == 0 {
        ConnectedDistinctTouched(es, 0, 1);
      } else {
        ConnectedDistinctTouched(es, 0, i);
      }
    }
  }

  /** A double-precision quotient as the C++ division at potion.cpp:218
      produces it: a finite value, or NaN for 0.0 / 0. */
  datatype Quotient = Finite(value: real) | NotANumber

  /** potion.cpp getProportions as written: every amount divided by the sum
      of amounts. The amounts the solver leaves behind are never negative, so
      a zero sum means every amount is 0 and every quotient is 0/0. */
  function GetProportions(p: Potion): (r: seq<Quotient>)
    requires forall i :: 0 <= i < |p.slots| ==> p.slots[i].amount >= 0
    ensures |r| == |p.slots|
    ensures Sum(Amounts(p)) == 0 <==> forall i :: 0 <= i < |p.slots| ==> p.slots[i].amount == 0
    ensures Sum(Amounts(p)) == 0 ==> forall i :: 0 <= i < |r| ==> r[i] == NotANumber
    ensures Sum(Amounts(p)) != 0 ==> forall i :: 0 <= i < |r| ==>
      r[i] == Finite(p.slots[i].amount as real / Sum(Amounts(p)) as real)
  {
    SumZeroIff(Amounts(p));
    var sm := Sum(Amounts(p));
    if sm == 0 then
      seq(|p.slots|, _ => NotANumber)
    else
      seq(|p.slots|, i requires 0 <= i < |p.slots| => Finite(p.slots[i].amount as real / sm as real))
  }

  /** The values of quotients that are all finite. */
  function Values(r: seq<Quotient>): (v: seq<real>)
    requires forall i :: 0 <= i < |r| ==> r[i].Finite?
    ensures |v| == |r| && forall i :: 0 <= i < |r| ==> Finite(v[i]) == r[i]
  {
    seq(|r|, i requires 0 <= i < |r| => r[i].value)
  }

  /** What getProportions promises on the amounts a successful solver
      leaves (positive, every constraint holding; see `Resolve`): every
      share is finite, and the shares are the normalised solution of the
      constraints, positive, summing to 1 and keeping every ratio. */
  lemma GetProportionsSolves(p: Potion, n: int, es: seq<Proportion>)
    requires n >= 1 && |p.slots| == n && EdgesIn(n, es)
    requires Positive(Amounts(p)) && AllRatiosHold(Amounts(p), es)
    ensures forall i :: 0 <= i < n ==> GetProportions(p)[i].Finite?
    ensures forall i :: 0 <= i < n ==> GetProportions(p)[i] == Finite(Normalise(Amounts(p))[i])
    ensures NormalisedSolution(Values(GetProportions(p)), n, es)
  {
    var w := Amounts(p);
    NormaliseSolves(w, es);
    var r := GetProportions(p);
    assert Sum(w) != 0;
    assert forall i :: 0 <= i < n ==> r[i] == Finite(Normalise(w)[i]);
    assert Values(r) == Normalise(w);
  }

  /** For one ingredient and no constraints, determineProportions reports
      success (see `Resolve`) and then prints 0/0: NaN instead of 1. */
  lemma SingleIngredientYieldsNaN()
    ensures GetProportions(NewPotion(1)) == [NotANumber]
  {
    assert Amounts(NewPotion(1)) == [0];
  }

  /** determineProportions with the single-ingredient case corrected: on
      success the output is the normalised solution (for one ingredient,
      [1.0]); on failure the output vector is left untouched. */
  method DetermineProportions(n: int, props: seq<Proportion>, outIn: seq<real>)
    returns (ok: bool, out: seq<real>)
    requires ValidInput(n, props) && |outIn| == n
    ensures ok <==> SpanningTree(n, props)
    ensures !ok ==> out == outIn
    ensures ok ==> NormalisedSolution(out, n, props)
  {
    var p;
    ok, p := Resolve(n, props);
    if !ok {
      return false, outIn;
    }
    if n == 1 {
      out := [1.0];
      return;
    }
    GetProportionsSolves(p, n, props);
    out := Values(GetProportions(p));
  }
}
