# Potion proportions, range-query tables, prefix sums and a dynamic array

This project models four parts of rushikdm/DataStructuresAndAlgorithms and
proves their properties in Dafny.

- **The potion proportion solver** (potion.cpp, PotionDFS.cpp, Potion.java).
  N ingredients are linked by N - 1 constraints of the form "ingredient i and
  ingredient j are mixed in the ratio a_i : a_j". The solver decides whether
  the constraints pin down one mixture. If they do, it reports every
  ingredient's share of the whole. Two strategies are modelled:
  - the incremental group merge of the `Potion` class, with
    `determineProportions` (module `GroupMerge`);
  - the traversal solver `determineProportionsUsingDFS`, in its C++ form and
    its Java port (module `Traversal`). The source comments call it a
    depth-first search, but it pops a FIFO queue, so it is a breadth-first
    traversal.

  Both are proved against one reference: the graph whose vertices are the
  ingredients and whose edges are the constraints (module `Connectivity`).
  - The merge solver succeeds exactly when the constraints form a spanning
    tree.
  - The traversal succeeds exactly when every ingredient is reachable from
    ingredient 0.
  - With N - 1 constraints these two conditions are equivalent
    (`Components.TreeIffConnected`).
  - On success, both solvers return the one normalised solution: positive
    shares that sum to 1 and satisfy every ratio (`Weights.UniqueSolution`).
    `CrossCheck.CrossValidate` states that the two solvers agree.
- **Range-query tables** (SparseTable/SparseTable.cpp, StaticRangeQuery.cpp).
  Each is a sparse table whose rows 0 .. p lie end to end in one vector.
  Row i has n - 2^i + 1 cells. Cell j of row i holds the minimum (and, in
  the static table, also the maximum) of the window of 2^i values that
  starts at j. A query reads two overlapping windows of one row. The row
  layout and the window lemmas are in module `Windows`.
- **Prefix sums** (PrefixSumArray.cpp). A table of running totals, and the
  range-sum query that subtracts two of its entries.
- **A dynamic array** (DynamicArray/DynamicArray.h). The array is a buffer,
  a size and a capacity. The model covers:
  - its constructors, `operator[]` and the three `append` overloads;
  - `ensure_capacity`.

Arithmetic is over mathematical integers. Normalised shares are exact
`real` quotients.

Two places where the code and its own documentation disagree. The model
follows the code in both:
- SparseTable/SparseTable.cpp:58 says `Log2` returns the highest p with
  2^p <= sz. The loop at lines 59-71 actually returns the p with
  2^p < sz <= 2^(p+1), and 0 for sz = 1. At exact powers of two this is one
  less than the comment promises (`SparseTable.Log2OfPowerOfTwo`). Queries
  are still correct, because two windows of 2^p values cover any range of
  up to 2^(p+1) values (`Windows.WindowCover`).
- potion.cpp:78 says the merge solver reports no solution when the number
  of distinct groups is not one, and potion.cpp:17 says every proportion is
  then zero. For N = 1 the only ingredient keeps group 0 ("no group"), so it
  is in no group at all. The code's `isSingleGroup` nevertheless holds, the
  solver reports success, and it divides 0 by 0 (see Findings). N = 1 is
  outside the documented input range 2 < N < 200 (potion.cpp:37).

## Model

| member | source | states |
|---|---|---|
| GroupMerge.NewPotion | potion.cpp:140-145 | N ingredients, all without a group and with amount 0, and the first fresh group id is 1. `InvInitial` shows that this is the merge state for no constraints. |
| GroupMerge.SetSlot | potion.cpp:243-247 | The named ingredient gets the given amount and group. Every other ingredient and the fresh-group counter are unchanged. |
| GroupMerge.IsSingleGroup | potion.cpp:201-206 | True iff any two ingredients share a group, not only each ingredient with ingredient 0. `SingleGroupIffConnected` shows that, under the merge invariant, this means every ingredient is connected to ingredient 0. |
| GroupMerge.InvInitial | potion.cpp:145 | A fresh potion of N ungrouped ingredients with amount 0 satisfies the merge invariant for no constraints. The invariant says: groups are exactly the connected components of the constraints seen; an ingredient has a group iff a constraint mentions it; grouped amounts are positive; every constraint seen holds on the amounts. |
| GroupMerge.Multiply | potion.cpp:261-269 | Members of the named group have their amount multiplied by m and keep their group. Every other ingredient is unchanged. |
| GroupMerge.ModifyGroup | potion.cpp:271-278 | Members of fromGroup move to toGroup with their amounts kept. Every other ingredient is unchanged. |
| GroupMerge.AddNewGroup | potion.cpp:249-254 | Both ingredients join the group numbered by the fresh-group counter, each with its own ratio value as its amount. The counter goes up by one, so no group id is reused. Nothing else changes. |
| GroupMerge.NewGroupStep | potion.cpp:152-156 | A constraint between two ungrouped ingredients keeps the merge invariant once it is added to the constraints seen. |
| GroupMerge.ExtendStep | potion.cpp:158-181 | When exactly one end is grouped, the invariant survives: the group is scaled by the grouped end's ratio value, and the other end joins with its ratio value times the grouped end's pre-scale amount. Every earlier constraint still holds, and so does the new one. |
| GroupMerge.MergeStep | potion.cpp:183-196 | When the ends are in different groups, the invariant survives: each group is scaled by the other side's cross product and the second group is relabelled into the first. The merged group is the union of the two components, and every ratio holds. |
| GroupMerge.AddProportion | potion.cpp:147-199 | The call succeeds iff the earlier constraints do not already connect the two ends, i.e. iff they are not in one group. On failure the state is unchanged. On success the invariant holds with the constraint added. An ingredient that is neither end, and is in neither end's group, keeps its slot. A merge relabels every member of the second end's group, including ingredients the constraint never mentions. A pair of ungrouped ends takes the fresh group id; otherwise the fresh-group counter is unchanged. |
| GroupMerge.SingleGroupIffConnected | potion.cpp:201-206 | Under the merge invariant, all ingredients share one group exactly when the constraints seen connect every ingredient to ingredient 0. |
| GroupMerge.Resolve | potion.cpp:283-301 | The constraint loop with its early exit, then the single-group test. The result is true iff the constraints form a spanning tree. On success with N >= 2, the amounts are positive and satisfy every constraint. For N = 1 it succeeds and leaves amount 0. The spanning-tree condition is the source's "the groups end as one" through `GroupMerge.SingleGroupIffConnected` and `Components.TreeIffConnected`. |
| GroupMerge.GetProportions | potion.cpp:208-219 | As written, every share is 0/0 (NaN) when the total is 0. Since amounts are never negative, the total is 0 exactly when every amount is 0. |
| GroupMerge.GetProportionsSolves | potion.cpp:208-219 | On the positive amounts a successful run leaves, which satisfy every constraint, every share getProportions computes is finite. The shares are the normalised solution: positive, summing to 1.0, and keeping every ratio. `DetermineProportions` builds its output from these shares. |
| GroupMerge.SingleIngredientYieldsNaN | potion.cpp:218 | A single ingredient with no constraints reaches getProportions with total 0, and its only share is NaN. |
| GroupMerge.DetermineProportions | potion.cpp:283-305 | (Corrected for N = 1.) Succeeds iff the constraints form a spanning tree. On failure the output is not written. On success the output is the normalised solution: positive shares summing to 1 that satisfy every ratio. |
| Connectivity.ForestSnocIff | potion.cpp:75-78 | Adding a constraint keeps the constraint graph free of cycles iff its two ingredients were not already connected. This is the reference fact behind the same-group failure. |
| Connectivity.CycleNotForest | potion.cpp:185-186 | A constraint whose ends the earlier constraints already connect closes a cycle. |
| Components.LeaderCount | potion.cpp:75-78 | Each constraint removes at most one connected component, so at least N - \|es\| components remain. Exactly N - \|es\| remain iff no constraint closes a cycle. |
| Components.TreeIffConnected | potion.cpp:46-50 | With N - 1 constraints, reaching every ingredient from 0, having no cycle, and forming a spanning tree are all equivalent. |
| Weights.Normalise | potion.cpp:386-391 | Dividing positive weights by their total gives positive shares that sum to 1, each share being its weight over the positive total. |
| Weights.NormalisePreservesRatio | PotionDFS.cpp:190-195 | A ratio that holds on the weights still holds on the normalised shares. |
| Weights.NormaliseSolves | Potion.java:155-162 | Normalising positive weights that satisfy every constraint gives a normalised solution of the constraints. |
| Weights.UniqueSolution | potion.cpp:46-50 | When the constraints connect all ingredients, there is at most one normalised solution. So any two solvers that return one return the same. |
| Weights.ProportionalToFirst | potion.cpp:46-50 | Two assignments that both satisfy every ratio of a connected constraint graph are proportional: each value of one is the other's value times the same constant. |
| Traversal.BuildConnections | PotionDFS.cpp:119-124 | Each ingredient's connection list holds exactly the indices of the constraints that mention it, in order. |
| Traversal.Lookup | potion.cpp:355-362 | The recorded amount of an ingredient that has been visited, and -1 for one that has not. |
| Traversal.Rescale | PotionDFS.cpp:157-165 | Every recorded amount is multiplied by the factor, with indices kept. The value returned is the pre-scale amount of the current ingredient. |
| Traversal.Discover | PotionDFS.cpp:151-168 | Discovering an unvisited neighbour keeps the traversal invariant: visited entries are exactly the recorded ingredients; each is reachable from 0; indices are distinct; amounts are positive; every constraint between two visited ingredients holds. The new ingredient is marked visited and the record grows. |
| Traversal.VisitConnections | potion.cpp:341-367 | After all constraints of the dequeued ingredient are processed, the invariant holds and both ends of each of those constraints are visited. |
| Traversal.Traverse | potion.cpp:326-369 | The count equals the number of ingredients recorded. An ingredient is recorded iff it is reachable from 0. The count is N iff every ingredient is reachable. In that case every constraint holds on the recorded amounts. |
| Traversal.TraversalComplete | PotionDFS.cpp:137-177 | When the queue is empty and every visited ingredient is settled, the recorded set is exactly the set reachable from 0, in both directions. |
| Traversal.SortByIndex | potion.cpp:375-378 | The result is a permutation of the input ordered by index, strictly ordered when the indices are distinct. |
| Traversal.InsertSorted | potion.cpp:375-378 | Inserting a record into a list ordered by index keeps it ordered. It stays strictly ordered when the record's index is new. |
| Traversal.SortedIsIdentity | PotionDFS.cpp:184-188 | N records with distinct indices below N sort to indices 0 .. N - 1 exactly, so the post-sort index check cannot fail. Position i then carries ingredient i's amount. |
| Traversal.DetermineProportionsUsingDFS | potion.cpp:307-394 | Succeeds iff every ingredient is reachable from ingredient 0. On failure the output is not written. On success the output is the normalised solution of all constraints. |
| Traversal.DetermineProportionsJava | Potion.java:78-163 | With N = constraints + 1, returns a value iff every ingredient is reachable from 0. The value is the normalised solution of all constraints. |
| CrossCheck.CrossValidate | potion.cpp:283-394 | For any valid input, the merge solver and the traversal solver succeed together, exactly on spanning trees, and return the same shares. |
| CrossCheck.SampleRun | potion.cpp:16-33 | For 3 ingredients with constraints (0,1,9,4) and (2,1,1,2), both solvers give 9/15, 4/15, 2/15. |
| Windows.CumSize | SparseTable/SparseTable.cpp:73-82 | The cells in rows 0 .. p are non-negative in number whenever 2^p <= n + 1. |
| Windows.CumSizeClosedForm | StaticRangeQuery.cpp:55-61 | The cell count of rows 0 .. p is (p + 1)(n + 1) + 1 - 2^(p+1). For p = -1 this is 0. |
| Windows.MinOfIsLeast | SparseTable/Main.cpp:36-48 | The reference minimum bounds every value of the range from below and is one of them. |
| Windows.MaxOfIsGreatest | StaticRangeQuery.cpp:138-147 | The reference maximum bounds every value of the range from above and is one of them. |
| Windows.WindowCover | SparseTable/SparseTable.cpp:44-48 | For a range of length between w and 2w, the window of w values at its start and the window at its end together give its minimum and its maximum. |
| SparseTable.Log2 | SparseTable/SparseTable.cpp:59-71 | For sz = 1 the result is 0. Otherwise it is the p with 2^p < sz <= 2^(p+1). |
| SparseTable.Log2OfPowerOfTwo | SparseTable/SparseTable.cpp:58-71 | At sz = 2^(q+1) the result is q, one below the highest p with 2^p <= sz that the comment promises. |
| SparseTable.Log2Monotone | SparseTable/SparseTable.cpp:44-46 | A longer range never maps to a lower row, so every query's row exists in the table. |
| SparseTable.RowStep | SparseTable/SparseTable.cpp:17-18 | The two cells of row i - 1 at j and j + 2^(i-1) lie before row i, and the lesser of them is the minimum of the 2^i values starting at j. |
| SparseTable.BuildRow | SparseTable/SparseTable.cpp:15-21 | Built from a correct row i - 1, row i holds the minimum of every window of 2^i values. Cells before the row are untouched. |
| SparseTable.Build | SparseTable/SparseTable.cpp:4-23 | The vector has GetCumSize(Log2(n)) cells. Cell j of every row i <= Log2(n) holds the minimum of iv[j .. j + 2^i - 1]. |
| SparseTable.RowZeroCopies | SparseTable/SparseTable.cpp:9-10 | Row 0 of a built table is the input itself. |
| SparseTable.GetIndices | SparseTable/SparseTable.cpp:37-56 | For 0 <= beg <= end < n, the result is 0 <= b <= e < \|v\|. These are the cells of row p = Log2(length) for the windows starting at beg and ending at end. 2^p <= length <= 2^(p+1), so the windows lie inside the range and cover it. |
| SparseTable.Min | SparseTable/SparseTable.cpp:25-34 | The result is the least value of iv[beg .. end]. |
| SparseTable.Sample | SparseTable/Main.cpp:56-59 | Min(1, 5) over 45, 4, 9, -3, 7, 8, 75, 12 is -3. |
| StaticRangeQuery.Log2 | StaticRangeQuery.cpp:47-53 | For num <= 0 the result is -1. Otherwise it is the floor of log2 num: 2^p <= num < 2^(p+1). |
| StaticRangeQuery.Log2OfPowerOfTwo | StaticRangeQuery.cpp:47-53 | At num = 2^k the result is exactly k. |
| StaticRangeQuery.RowStep | StaticRangeQuery.cpp:31-35 | The two cells of row i - 1 at j and j + 2^(i-1) lie before row i, and combining them gives the (minimum, maximum) of the 2^i values starting at j. |
| StaticRangeQuery.BuildRow | StaticRangeQuery.cpp:27-39 | Built from a correct row i - 1, row i holds the (minimum, maximum) of every window of 2^i values. Cells before the row are untouched. |
| StaticRangeQuery.Build | StaticRangeQuery.cpp:16-40 | For any input, including an empty one: the vector has GetCumSize(Log2(n)) cells, and cell j of every row i <= Log2(n) holds the (minimum, maximum) of iv[j .. j + 2^i - 1]. |
| StaticRangeQuery.RowZeroPairs | StaticRangeQuery.cpp:21-23 | Row 0 of a built table pairs every input value with itself. |
| StaticRangeQuery.GetIndices | StaticRangeQuery.cpp:63-80 | For 0 <= beg <= end < n, beg == end gives (beg, end). Otherwise the result is the cells of row p = floor(log2 length) for the windows at both ends, with 2^p <= length < 2^(p+1), both inside the vector. |
| StaticRangeQuery.Min | StaticRangeQuery.cpp:82-90 | The result is the least value of iv[beg .. end]. |
| StaticRangeQuery.Max | StaticRangeQuery.cpp:92-100 | The result is the greatest value of iv[beg .. end]. |
| PrefixSum.Build | PrefixSumArray.cpp:14-22 | The table is as long as the input, so an empty input gives an empty table. Entry i is the sum of iv[0 .. i]. |
| PrefixSum.Differences | PrefixSumArray.cpp:19-21 | The table determines the input: iv[0] = v[0], and iv[i] = v[i] - v[i - 1]. |
| PrefixSum.RangeSumQuery | PrefixSumArray.cpp:24-31 | For 0 <= l <= r the result is the sum of iv[l .. r], and for l <= 0 it is exactly v[r]. A negative l counts from 0. An l past r + 1 gives the negated sum of iv[r + 1 .. l - 1]. |
| PrefixSum.Sample | PrefixSumArray.cpp:36-45 | Over 1 .. 8, the queries (3,5), (1,4) and (0,7) give 15, 14 and 36. |
| DynamicArray.Empty | DynamicArray/DynamicArray.h:154 | The default array holds nothing and has capacity 0. |
| DynamicArray.New | DynamicArray/DynamicArray.h:164-167 | size == capacity == isize. |
| DynamicArray.Filled | DynamicArray/DynamicArray.h:169-173 | isize elements, every one equal to t, with capacity isize. |
| DynamicArray.CopyOf | DynamicArray/DynamicArray.h:175-182 | The same elements as the source, with capacity equal to the source's size. |
| DynamicArray.Move | DynamicArray/DynamicArray.h:184-192 | The new array holds the source's elements with capacity equal to its size. The source is left empty with capacity 0. |
| DynamicArray.FromList | DynamicArray/DynamicArray.h:194-202 | The listed values in order, with size and capacity equal to the list's length. |
| DynamicArray.FromPointer | DynamicArray/DynamicArray.h:204-208 | The first sz values the pointer addresses, with capacity sz. |
| DynamicArray.Size | DynamicArray/DynamicArray.h:210-213 | The number of elements held. |
| DynamicArray.At | DynamicArray/DynamicArray.h:215-219 | For an index below the size, the element at that position. |
| DynamicArray.Store | DynamicArray/DynamicArray.h:221-225 | Writing through the reference replaces exactly that element. Size and capacity are unchanged. |
| DynamicArray.EnsureCapacity | DynamicArray/DynamicArray.h:276-289 | The elements are unchanged. When the capacity is below the request it becomes exactly the request; otherwise the array is returned as it was. |
| DynamicArray.AppendList | DynamicArray/DynamicArray.h:227-241 | The elements become the old ones followed by the list. The capacity becomes the new size if it was short of it, and is otherwise kept. |
| DynamicArray.AppendArray | DynamicArray/DynamicArray.h:243-257 | The elements become the old ones followed by the other array's, with the same capacity rule. |
| DynamicArray.AppendPointer | DynamicArray/DynamicArray.h:259-273 | The elements become the old ones followed by the sz pointed-to values, with the same capacity rule. |
| DynamicArray.Sample | DynamicArray/test_dyn_array.cpp:21-33 | {1,2,3,4} has size 4 and element 0 equal to 1. The names array built by the two appends and one store ends as Ramesh, Kavitha, Mahesh, Robert, with capacity 4. |

## Left out

- Text I/O: every `main`, the stream operators, `readInputs` and `printSolution` of Potion.java, `StaticRangeQuery::print`, and the `Potion` friend `operator<<`. None of them computes anything the solvers or tables depend on.
- Floating point: shares are exact `real` quotients. IEEE `double` rounding (potion.cpp:218, 391; Potion.java:160) is not modelled. The NaN of a 0/0 division is modelled by the `Quotient` datatype.
- 32-bit `int` overflow: the repeated products of the solvers, and the `1 << i` shifts and cell counts of the tables, are unbounded integers. For long inputs with large ratios the source's `int` products wrap, and this model says nothing about that.
- Input validation the code never performs: indices out of range, a constraint joining an ingredient to itself, non-positive amounts and a wrong constraint count are preconditions (`Constraints.ValidInput`). The range queries' `assert`s on beg and end, and `operator[]`'s assertion on the index, are preconditions too.
- loop.cpp: its geometry over doubles, with a floating-point distance tolerance, is not part of this model.
- Arrays/*.cpp: demonstrations of standard algorithms with no logic of their own.
- Test harnesses: the random generators and timing loops of SparseTable/Main.cpp and StaticRangeQuery.cpp. Their assertions appear as the Min and Max contracts and the `Sample` members.
- DynamicArray internals: the `Iterator` class, the destructor's `delete[]`, and the values `new T[n]` leaves in unset cells. Each such cell is an arbitrary value of T, chosen independently of the others; `DynamicArray.New` promises nothing about them. Memory is a sequence, so the move constructor's null pointer is the empty sequence.
- `std::sort` and `Collections.sort` are modelled by one insertion sort by index. The indices being sorted are distinct, so every correct sort gives the same order.
- The `return false` after the three branches of `addProportion` (potion.cpp:198) cannot be reached, and the model has no branch for it.
- `Min`, `Max`, `RangeSumQuery` and `operator[]` const-ness: tables and arrays are immutable values, so no query can modify them.
- DynamicArray.AppendPointer: assumes `idata` does not address the array's own buffer. The pointed-to values are a separate sequence. When a self-append grows the capacity, the source frees the buffer in `ensure_capacity` (DynamicArray/DynamicArray.h:285) before reading `idata` (line 268), so it reads freed memory. The model instead appends the values as they were.
- SparseTable.Build: requires a non-empty input. SparseTable/SparseTable.cpp:61 asserts `sz > 0` in `Log2`, which the constructor calls with n, so an empty input aborts there. StaticRangeQuery.Build accepts an empty input.
- GroupMerge.DetermineProportions: it is the corrected solver. It treats N = 1 as the one share 1.0, where the code as written divides 0 by 0. Reporting no solution would be the other reasonable correction (see Findings).

## Findings

| source | as written | input that shows it | evidently intended | confidence | as-written member | corrected member |
|---|---|---|---|---|---|---|
| potion.cpp:218, 300-303 | For N = 1 there are no constraints, and the single ingredient keeps amount 0 and no group. `isSingleGroup` still holds, so the solver reports success. `getProportions` then divides 0 by a total of 0 and reports NaN. N = 1 is outside the documented range 2 < N < 200 (potion.cpp:37). | N = 1, no constraints | Either of two readings. (a) Zero groups is "not one group", so report no solution with all-zero proportions (potion.cpp:17, 78). (b) The one ingredient is the whole mixture, share 1.0, which the traversal solver gives for the same input. The corrected member takes (b), so that both solvers agree on every input. | not executed | GroupMerge.SingleIngredientYieldsNaN | GroupMerge.DetermineProportions |
