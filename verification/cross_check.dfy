/** The two solvers of potion.cpp side by side. main may call either one;
    on every valid input they succeed together, and then they write the same
    proportions, because a connected set of ratio constraints has exactly one
    normalised solution. */
module CrossCheck {
  import opened Constraints
  import opened Connectivity
  import opened Weights
  import opened Sums
  import opened Components
  import GroupMerge
  import Traversal

  /** Run both solvers on one input, each starting from the zero-filled
      output vector main allocates. */
  method CrossValidate(n: int, props: seq<Proportion>)
    returns (okMerge: bool, outMerge: seq<real>, okSearch: bool, outSearch: seq<real>)
    requires ValidInput(n, props)
    ensures okMerge == okSearch
    ensures okMerge <==> SpanningTree(n, props)
    ensures okMerge ==> outMerge == outSearch
    ensures !okMerge ==> outMerge == outSearch == seq(n, _ => 0.0)
  {
    var zeros := seq(n, _ => 0.0);
    okMerge, outMerge := GroupMerge.DetermineProportions(n, props, zeros);
    okSearch, outSearch := Traversal.DetermineProportionsUsingDFS(n, props, zeros);
    TreeIffConnected(n, props);
    if okMerge {
      UniqueSolution(outMerge, outSearch, n, props);
    }
  }

  /** The sample of potion.cpp's header: three ingredients, 0:1 = 9:4 and
      2:1 = 1:2. */
  function SampleProportions(): seq<Proportion> {
    [Proportion(Ingredient(0, 9), Ingredient(1, 4)), Proportion(Ingredient(2, 1), Ingredient(1, 2))]
  }

  lemma SampleConnected()
    ensures ValidInput(3, SampleProportions())
    ensures AllConnected(3, SampleProportions())
  {
    var props := SampleProportions();
    ConnectedRefl(props, 0);
    EdgeConnected(props, 0);
    EdgeConnected(props, 1);
    ConnectedSym(props, 2, 1);
    ConnectedTrans(props, 0, 1, 2);
  }

  lemma SampleSolution()
    ensures NormalisedSolution([9.0 / 15.0, 4.0 / 15.0, 2.0 / 15.0], 3, SampleProportions())
  {
    var r := [9.0 / 15.0, 4.0 / 15.0, 2.0 / 15.0];
    assert RealSum(r) == 9.0 / 15.0 + (4.0 / 15.0 + (2.0 / 15.0 + 0.0)) by {
      assert r[1..] == [4.0 / 15.0, 2.0 / 15.0];
      assert r[1..][1..] == [2.0 / 15.0];
    }
  }

  /** Both solvers print 9/15, 4/15, 2/15 for the sample. */
  method SampleRun() returns (outMerge: seq<real>, outSearch: seq<real>)
    ensures outMerge == outSearch == [9.0 / 15.0, 4.0 / 15.0, 2.0 / 15.0]
  {
    var props := SampleProportions();
    SampleConnected();
    SampleSolution();
    TreeIffConnected(3, props);
    var zeros := [0.0, 0.0, 0.0];
    var okMerge, okSearch;
    okMerge, outMerge := GroupMerge.DetermineProportions(3, props, zeros);
    okSearch, outSearch := Traversal.DetermineProportionsUsingDFS(3, props, zeros);
    UniqueSolution(outMerge, [9.0 / 15.0, 4.0 / 15.0, 2.0 / 15.0], 3, props);
    UniqueSolution(outSearch, [9.0 / 15.0, 4.0 / 15.0, 2.0 / 15.0], 3, props);
  }
}
