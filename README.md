# TestOpt test-plan pipeline in Dafny

TestOpt plans test campaigns for a system whose test configurations are sets
of *scenarios* (simulated conditions switched on in the test rig) that fulfil
*requirements* grouped by *quantity*. This project models the planning
pipeline and its cost and reporting helpers, and proves what each stage
promises:

- **GenerateTests** (`src/generate-tests.py`): parses the requirement
  bindings, groups them by their exact scenario set, lets every set inherit
  the obligations of all its subsets, and formats one numbered configuration
  per set.
- **Delta** (`src/test-plan-unoptimize.py`): gives every configuration the
  sorted lists of scenarios to apply and to retract when coming from its
  predecessor.
- **Optimize** (`src/test-plan-optimize.py`): the greedy nearest-neighbour
  reordering with a strict `<`, so ties go to the earliest candidate. It then
  recomputes the deltas and adds the closing retraction.
- **CostCalc** (`costcalc.py`) and **OtherView** (`otherview.py`): plan totals
  and per-configuration running costs.
- **Visualize** (`reports/test-plan-py2/visualize_test_plan.py`):
  - `label.N` category ordering and the category sort;
  - cycle reconfiguration cost and observation cost;
  - the marker line and the text presence rows with their change counts;
  - HTML escaping.
- **TestStrategy** (`teststrategy.py`), **Proxied** and **ScenarioIndex**
  (`scenarios.py`), built over the flattened and joined requirement tables:
  - numbering and deltas of report tests;
  - matching optimised tests to unoptimised ids by uuid;
  - the requirement tables keyed by id;
  - the inverted scenario → requirement index.
- **MakePlots** (`makeplots.py`): the scenario row table, the presence
  status matrix (2 applied, 1 active, −1 retracted, 0 inactive), its
  requirement-text grid and the colour map.

Shared modules:
- `Wrappers`: `Option`, `Result` and the error kinds `ValueError`, `IndexError`
  and `KeyError`.
- `Collections`: sets as lists, sorted listings and first-occurrence search.
- `Text`:
  - `split`/`join`;
  - `int`/`str` on decimal integers;
  - string order and sorting;
  - `replace`, padding and repetition.
- `Costs`: list sums, set sums and transition and path costs.
- `Plan` and `Report`: the two record shapes. Engine tests have integer
  scenario ids. Report tests have string scenario ids, a uuid and an optional id.

File loads and saves become parameters and results. Python's in-place list
and dict updates become methods over `seq` and `map` values that return the
new value.

## Model

| member | source | states |
|---|---|---|
| GenerateTests.ParseInts | src/generate-tests.py:19-20 | the scenario list parses iff every comma part is an integer; otherwise the error is that of the first part that fails |
| GenerateTests.ParseScenariosJoin | src/generate-tests.py:20 | splitting the comma join of decimal renderings and parsing each part gives the integers back |
| GenerateTests.ParseRender | src/generate-tests.py:17-22 | parsing a rendered binding gives the requirement back (round trip) |
| GenerateTests.EmptyScenariosFail | src/generate-tests.py:20 | an empty scenario field is a ValueError on the empty string, as `int('')` raises |
| GenerateTests.ParseScenariosExample | src/generate-tests.py:20 | "3,19" parses to [3, 19] |
| GenerateTests.ParseBindings | src/generate-tests.py:17-26 | all bindings parse iff each does, in order; otherwise the error is the first failing binding's |
| GenerateTests.GroupsSnoc | src/generate-tests.py:29-35 | adding one binding keeps the grouping exact: keys, quantities and ids are exactly those of some binding with that scenario set |
| GenerateTests.SameSetSameEntry | src/generate-tests.py:29-35 | bindings with the same scenario set land in the same entry, each under its own quantity |
| GenerateTests.FirstOccurrences | src/generate-tests.py:29-38 | the key order is duplicate-free, has exactly the scenario sets seen, and follows their first appearance |
| GenerateTests.Group | src/generate-tests.py:29-38 | the aggregation loop builds exactly the grouping of the bindings, with keys in first-appearance order |
| GenerateTests.GroupsWellFormed | src/generate-tests.py:29-38 | every grouped entry is non-empty and the key order lists each key once |
| GenerateTests.Merge | src/generate-tests.py:45 | merging obligations unions the quantity keys and, under each key, the requirement ids |
| GenerateTests.MergeObligations | src/generate-tests.py:45 | the per-quantity update loop computes that merge |
| GenerateTests.MergeInto | src/generate-tests.py:44-45 | updating one closed entry changes only that entry and creates it only when something is merged |
| GenerateTests.PropagateFrom | src/generate-tests.py:42-45 | one pass of the inner loop keeps the closure invariant for the next outer index |
| GenerateTests.InheritedKeys | src/generate-tests.py:41-45 | after all passes a set holds a quantity iff one of its subsets does |
| GenerateTests.InheritedIds | src/generate-tests.py:41-45 | after all passes a set holds a requirement id under a quantity iff one of its subsets does |
| GenerateTests.Close | src/generate-tests.py:41-45 | the nested loop computes the subset closure with the same keys, created in loop order without duplicates |
| GenerateTests.ClosureMonotone | src/generate-tests.py:41-45 | a superset inherits every obligation of its subsets |
| GenerateTests.ClosureExtends | src/generate-tests.py:41-45 | closing never drops an obligation a set had |
| GenerateTests.ClosureIdempotent | src/generate-tests.py:41-45 | closing a closed grouping changes nothing |
| GenerateTests.ClosureWellFormed | src/generate-tests.py:41-45 | the closed grouping and its creation order are again well formed |
| GenerateTests.Format | src/generate-tests.py:48-58 | configuration i gets id i+1, its sorted scenarios and its sorted per-quantity requirement lists |
| GenerateTests.ComposeKeys | src/generate-tests.py:29-45 | a closed set holds quantity q iff some binding for q has a scenario set inside it |
| GenerateTests.ComposeIds | src/generate-tests.py:29-45 | a closed set lists id under q iff some binding with id and q has a scenario set inside it |
| GenerateTests.GeneratedOf | src/generate-tests.py:29-58 | the pipeline output is exactly the generated plan: one configuration per distinct scenario set carrying every binding whose set is a subset |
| GenerateTests.GeneratedQuantities | src/generate-tests.py:41-56 | a configuration's quantity table is fixed: its keys and each key's sorted ids are those of the requirements whose sets lie inside it |
| GenerateTests.ExampleOrder | src/generate-tests.py:29-38 | requirements [3]/10 then [3,19]/11 give the key order {3}, {3,19} |
| GenerateTests.ExampleCount | src/generate-tests.py:29-58 | those two requirements give exactly two configurations, one per scenario set |
| GenerateTests.ExampleSets | src/generate-tests.py:41-52 | the configurations are {3} first, listed [3], and {3,19} second, listed [3, 19] |
| GenerateTests.ExampleFirstQuantities | src/generate-tests.py:41-56 | {3} carries only quantity 10 with requirement [1] |
| GenerateTests.ExampleSecondQuantities | src/generate-tests.py:41-56 | {3,19} inherits 10 → [1] from {3} and adds 11 → [2] |
| GenerateTests.GeneratedExample | src/generate-tests.py:29-58 | the generated plan for those two requirements is exactly configuration 1 = {3} with {"10": [1]} and configuration 2 = {3,19} with {"10": [1], "11": [2]} |
| GenerateTests.GenerateTests | src/generate-tests.py:17-58 | a parse failure is reported iff some binding fails (the first one's error); otherwise the result is the generated plan |
| Delta.Annotate | src/test-plan-unoptimize.py:9-16 | each configuration gets apply = sorted(S − previous) and retract = sorted(previous − S), everything else unchanged |
| Delta.AnnotatedKeepsRecords | src/test-plan-unoptimize.py:12-16 | only apply and retract are written |
| Delta.AnnotatedFirst | src/test-plan-unoptimize.py:9-16 | the first configuration applies all its scenarios and retracts nothing |
| Delta.DeltaReconstructs | src/test-plan-unoptimize.py:14-15 | the two deltas are disjoint and rebuild the current set from the previous one |
| Delta.AnnotatedDeltas | src/test-plan-unoptimize.py:14-15 | every delta list is ascending, apply and retract are disjoint, and they turn the previous set into the current one |
| Delta.ReplayVisits | src/test-plan-unoptimize.py:9-16 | replaying the deltas from nothing visits exactly the configurations' scenario sets |
| Delta.AnnotateIdempotent | src/test-plan-unoptimize.py:12-16 | recomputing deltas on an annotated plan gives the same plan |
| Delta.AnnotatedUnique | src/test-plan-unoptimize.py:12-16 | the deltas are determined by the scenarios alone |
| Optimize.FirstMinIndex | src/test-plan-optimize.py:32-40 | the position the strict scan keeps is a least-cost candidate with every earlier candidate dearer |
| Optimize.FirstMinUnique | src/test-plan-optimize.py:32-40 | that position is unique |
| Optimize.Without | src/test-plan-optimize.py:44 | dropping one position removes exactly that element from the multiset |
| Optimize.PickNext | src/test-plan-optimize.py:30-40 | the inner loop, starting from infinity, returns the first cheapest candidate and its switch cost |
| Optimize.RemovePicked | src/test-plan-optimize.py:44 | `list.remove` of the pick removes the pick's own position |
| Optimize.GreedyStep | src/test-plan-optimize.py:28-44 | one round puts the pick first and continues from its scenarios with the rest |
| Optimize.Reorder | src/test-plan-optimize.py:24-44 | the while loop produces the greedy order, and the final active set is the last pick's scenarios |
| Optimize.OptimizePlan | src/test-plan-optimize.py:24-63 | the output is the greedy order with recomputed deltas, and the closing retract is the sorted last scenario set (empty for an empty plan) |
| Optimize.GreedyLength | src/test-plan-optimize.py:24-44 | the greedy order is a permutation of the input |
| Optimize.GreedyNearest | src/test-plan-optimize.py:28-40 | each pick costs no more to switch to from the current state than any configuration picked later |
| Optimize.GreedyFirst | src/test-plan-optimize.py:26-40 | the first pick is the configuration cheapest to set up from nothing |
| Optimize.GreedyTieBreak | src/test-plan-optimize.py:38 | among equally cheap candidates the earliest in the remaining list is picked |
| Optimize.GreedyEmpty | src/test-plan-optimize.py:28 | an empty plan gives an empty order |
| Costs.SumSetCost | src/test-plan-optimize.py:33-36 | summing the costs over a set, missing ids counting 0, yields that set's cost independent of iteration order |
| Costs.TransitionIsSymmetricDifference | src/test-plan-optimize.py:33-36 | the switch cost is the cost of the symmetric difference |
| Costs.TransitionSymmetric | src/test-plan-optimize.py:33-36 | switching costs the same in both directions |
| Costs.TransitionFromEmpty | src/test-plan-optimize.py:33-36 | switching from nothing costs the target set |
| Costs.ListCostAppend | costcalc.py:27-28 | the cost of a concatenation is the sum of the costs |
| Costs.ListCostRemoveFirst | costcalc.py:27-28 | every occurrence is paid for: removing one occurrence of an id takes exactly its cost out of the list sum |
| Costs.ListCostOfDistinct | costcalc.py:27-28 | a duplicate-free list costs the same as its set |
| Costs.ListCostNonNegative | costcalc.py:27-28 | non-negative costs give a non-negative list sum |
| Costs.SetCostNonNegative | src/test-plan-optimize.py:33-36 | non-negative costs give a non-negative set sum |
| Costs.SetCostUnion | src/test-plan-optimize.py:33-36 | the cost of a disjoint union is the sum of the costs |
| Costs.SetCostRemove | src/test-plan-optimize.py:33-36 | removing one member subtracts exactly its cost |
| Costs.PathCostNonNegative | reports/test-plan-py2/visualize_test_plan.py:59-70 | non-negative costs give a non-negative path cost |
| CostCalc.CalculateCosts | costcalc.py:22-47 | the totals are apply and retract sums over the plan (absent lists empty), plus the last configuration's scenarios as the closing retraction; an empty plan is an IndexError |
| CostCalc.TotalsNonNegative | costcalc.py:22-38 | with non-negative costs both sums are non-negative |
| CostCalc.DeltaCost | costcalc.py:30-38 | one annotated step costs the switch between the two scenario sets |
| CostCalc.SuffixCost | costcalc.py:30-47 | from any position, the sums plus the closing retraction are the path cost back to nothing |
| CostCalc.CombinedIsCycleCost | costcalc.py:22-47 | the combined total of an annotated plan is the cycle cost nothing → each configuration → nothing |
| CostCalc.CalculateCostsExample | costcalc.py:22-47 | a two-configuration example totals 12 applied and 12 retracted |
| OtherView.CostsPerTest | otherview.py:171-180 | one row per configuration with its id and its apply-plus-retract cost, in order |
| OtherView.StepCostSplit | otherview.py:176-178 | a step's cost is its apply cost plus its retract cost |
| OtherView.StepCostCountsBoth | otherview.py:178 | for every test, a scenario both in its apply and its retract list is paid twice, on top of the cost of the two lists without those occurrences |
| OtherView.StepCostCountsBothExample | otherview.py:178 | applying and retracting just one scenario costs it twice |
| OtherView.StepCostNonNegative | otherview.py:178 | with non-negative costs a step cost is non-negative |
| OtherView.StepCostOfAnnotated | otherview.py:171-180 | on an annotated plan a step's cost is the switch cost from its predecessor |
| Visualize.ParsePrefixOrder | reports/test-plan-py2/visualize_test_plan.py:18-28 | without a dot the label is its own prefix with order 0; otherwise prefix plus "." plus the last segment is the label, and the order is that segment's integer or 0 |
| Visualize.ParsePrefixOrderRoundTrip | reports/test-plan-py2/visualize_test_plan.py:18-28 | parsing "prefix.N" gives (prefix, N) |
| Visualize.ParsePrefixOrderNested | reports/test-plan-py2/visualize_test_plan.py:19-23 | only the last segment is the order: "a.b.3" gives ("a.b", 3) |
| Visualize.ParsePrefixOrderNotNumber | reports/test-plan-py2/visualize_test_plan.py:22-25 | a non-numeric last segment gives order 0 |
| Visualize.DotlessParsable | reports/test-plan-py2/visualize_test_plan.py:26-27 | every label without a dot, whatever its characters, is accepted and gives (label, 0) |
| Visualize.ParsePrefixOrderUnderscore | reports/test-plan-py2/visualize_test_plan.py:26-27 | "temp_sensor" gives ("temp_sensor", 0) although `_` never reaches `int()` |
| Visualize.ParsePrefixOrderNoDot | reports/test-plan-py2/visualize_test_plan.py:26-27 | a label without a dot gives (label, 0) |
| Visualize.KeyLessTransitive | reports/test-plan-py2/visualize_test_plan.py:31-33 | the (cost, prefix, order) key order is transitive |
| Visualize.InsertionSortStable | reports/test-plan-py2/visualize_test_plan.py:34 | the sort keeps the input order of categories with equal keys |
| Visualize.SortCategories | reports/test-plan-py2/visualize_test_plan.py:30-34 | the sorted categories are a permutation of the input |
| Visualize.SortCategoriesOrdered | reports/test-plan-py2/visualize_test_plan.py:30-34 | the sorted categories are ordered by (cost default 0, prefix, order) |
| Visualize.SortCategoriesStable | reports/test-plan-py2/visualize_test_plan.py:34 | categories with equal keys keep their input order, as `sorted` is stable |
| Visualize.QuantityCost | reports/test-plan-py2/visualize_test_plan.py:55-57 | a configuration's observation cost is the cost of its quantity keys, missing ones counting 0 |
| Visualize.ObservationSum | reports/test-plan-py2/visualize_test_plan.py:52-57 | the observation loop sums, over every test, the costs of its quantity keys (0 for an unpriced key) |
| Visualize.ReconfigurationSum | reports/test-plan-py2/visualize_test_plan.py:59-70 | the reconfiguration loop with its closing hop totals the cycle cost nothing → each test → nothing |
| Visualize.PlanLikeFromTestsRaw | reports/test-plan-py2/visualize_test_plan.py:36-76 | the tests are kept as given, the reconfiguration cost is the cycle cost nothing → each test → nothing, and the observation cost is the total over the tests |
| Visualize.CycleCostEmpty | reports/test-plan-py2/visualize_test_plan.py:68 | an empty plan has no closing edge and costs 0 |
| Visualize.ObservationTotalNonNegative | reports/test-plan-py2/visualize_test_plan.py:52-57 | with non-negative costs the observation total is non-negative |
| Visualize.MarkerLine | reports/test-plan-py2/visualize_test_plan.py:78-81 | the marker line is 14 characters longer than the number of tests |
| Visualize.MarkerLineBars | reports/test-plan-py2/visualize_test_plan.py:78-81 | it carries one bar per full ten tests |
| Visualize.CategorySetMembers | reports/test-plan-py2/visualize_test_plan.py:96-101 | a category is collected iff some test has it in the chosen mode |
| Visualize.TogglesAreTwiceRuns | reports/test-plan-py2/visualize_test_plan.py:120-126 | the change count, with the closing toggle, is twice the number of runs of presence |
| Visualize.ScanPresence | reports/test-plan-py2/visualize_test_plan.py:112-126 | the inner loop over the tests counts every presence flip, including the closing one when the category is present at the end, and emits one cell per test showing presence |
| Visualize.BuildRow | reports/test-plan-py2/visualize_test_plan.py:110-127 | one row: its cells show presence per test, its change count is twice the number of presence runs, and the line is the padded label, the cells and the count |
| Visualize.BuildLines | reports/test-plan-py2/visualize_test_plan.py:110-127 | the outer loop appends, after the header lines, exactly one row per category in the given order |
| Visualize.BuildRowsForPlan | reports/test-plan-py2/visualize_test_plan.py:83-129 | the categories are each collected category once, in sort order; the text is the three header lines and one row per category joined by newlines |
| Visualize.HtmlEscapeEach | reports/test-plan-py2/visualize_test_plan.py:131-136 | the three chained replacements escape each character independently |
| Visualize.HtmlEscapeSafe | reports/test-plan-py2/visualize_test_plan.py:131-136 | the escaped text contains no '<' and no '>' |
| Visualize.UnescapeHtmlEscape | reports/test-plan-py2/visualize_test_plan.py:131-136 | escaping loses nothing: unescaping gives the original text back |
| Proxied.FlattenMembers | teststrategy.py:38-43 | a scenario is in the flattened list iff some situation lists it |
| Proxied.FlattenAppend | teststrategy.py:38-43 | flattening distributes over concatenation |
| Proxied.IndexById | scenarios.py:19-24 | the loop keyed by id builds the id table of the records |
| Proxied.ByIdKeys | teststrategy.py:38-43 | the table has an entry exactly for each id that occurs |
| Proxied.ByIdLast | teststrategy.py:38-43 | the last record with an id is the one kept |
| TestStrategy.NumberAndDelta | teststrategy.py:20-29 | each test gets id i+1 and deltas against its predecessor, everything else unchanged |
| TestStrategy.NumberedDeltas | teststrategy.py:20-29 | numbering keeps uuid and scenarios, and the deltas are disjoint and rebuild the scenario set |
| TestStrategy.NumberedFirst | teststrategy.py:21-28 | the first test applies all its scenarios and retracts nothing |
| TestStrategy.WithUuidHead | teststrategy.py:31-33 | the uuid filter is empty iff no test has the uuid, and otherwise starts with the first one that does |
| TestStrategy.MatchIds | teststrategy.py:31-33 | an IndexError iff some optimised uuid is missing from the unoptimised tests; otherwise each optimised test takes the id of the first unoptimised test with its uuid |
| TestStrategy.MatchedIdIsPosition | teststrategy.py:20-33 | after numbering, the matched id is one plus the position of the first unoptimised test with that uuid, and nothing else changes |
| TestStrategy.FlattenRequirements | teststrategy.py:38-43 | one entry per id, holding the last record's id, flattened scenarios and remaining fields |
| ScenarioIndex.InvertIndex | scenarios.py:29-34 | the index lists id under s iff s is one of the comma parts of id's scenarios, with no empty entry |
| ScenarioIndex.IndexKeys | scenarios.py:29-34 | a scenario is indexed iff some requirement lists it |
| ScenarioIndex.IndexedIffScenario | scenarios.py:19-34 | for comma-free, non-empty scenario names, a requirement is indexed under s iff its (last) record lists s |
| ScenarioIndex.NoScenariosIndexedUnderEmpty | scenarios.py:23-34 | a requirement without scenarios is indexed under the empty string, as `"".split(",")` is `[""]` |
| ScenarioIndex.ScenarioRequirements | scenarios.py:19-34 | the joined table is the id table, and the index is its inversion |
| MakePlots.BuildScenarioRows | makeplots.py:10-19 | the row table is one row per (test, scenario) in order, numbered from 1 |
| MakePlots.ScenarioRowsCount | makeplots.py:10-19 | there are as many rows as scenarios over all tests |
| MakePlots.ScenarioRowsMembers | makeplots.py:10-19 | a row occurs iff some test i+1 with that id lists that scenario |
| MakePlots.MissingKeyNone | makeplots.py:167-187 | no KeyError iff every test has id, apply and retract |
| MakePlots.StatusMatrix | makeplots.py:158-190 | a KeyError on the first missing key in read order; otherwise sorted rows over all mentioned scenarios, one column per test, and each cell set by the three loops |
| MakePlots.MatrixCell | makeplots.py:171-187 | a cell is −1 iff retracted, 2 iff applied and not retracted, 1 iff only active, 0 iff not mentioned |
| MakePlots.MatrixRows | makeplots.py:168-170 | a scenario is a row iff some test mentions it |
| MakePlots.TestRequirements | makeplots.py:223-226 | a test's requirement set is the union over its quantities |
| MakePlots.RequirementMap | makeplots.py:220-226 | one entry per test id holding that test's requirements |
| MakePlots.TextGrid | makeplots.py:236-246 | the text cells are empty where the status is 0, and elsewhere the sorted comma list of the scenario's requirements present in the test |
| MakePlots.MakePresence | makeplots.py:158-248 | the status matrix with its errors, and a text grid whose every cell is that requirement list |
| MakePlots.MatrixColours | makeplots.py:254-271 | every cell has a colour; without the additional colours a cell is dark blue iff the scenario is mentioned, otherwise white |
| MakePlots.ColoursDistinct | makeplots.py:255-258 | with the additional colours the four states get four different colours |

## Left out

- Streamlit pages, plots and figures, file and CSV loading, JSON dumps and `print`: loaded data becomes parameters and saved data becomes results.
- The `flipped` transpose of `make_presence_df` (makeplots.py:192-194) is not modelled; only the unflipped path is. With `flipped=True` the text grid (makeplots.py:236-246) is built over the transposed axes, so its loop runs `sc` over test ids and `tid` over scenario ids and looks up `test_req_map[tid]` by a scenario id: a `KeyError`, or, when a scenario id happens to equal a test-id string, that test's requirements.
- `costcalc2`, `make_cost_plots`, `make_cost_histogram` and `build_sankey` are outside this model.
- Python `int()` is modelled on an optional sign and ASCII digits, and only on strings of printable ASCII other than space and `_`. Whitespace (which `int()` strips), `_` (a digit separator there) and every non-ASCII character (some of which `int()` reads as digits) are excluded. The exclusion is a precondition only where `int()` is reached: `PlainBinding` for the three fields of a binding, and `OrderParsable` for the last segment of a dotted category label. A label without a dot is accepted whatever its characters.
- JSON key order and dict and set iteration order are not modelled. Loops over sets iterate an arbitrary duplicate-free listing. The model proves results independent of that order, with two exceptions:
  - equal-key ties in `sort_categories` keep the order of `list(categories_set)`;
  - the `apply` and `retract` lists that `TestStrategy.NumberAndDelta` writes (teststrategy.py:25-26) are `list(...)` of a set difference, so their order is whatever listing `SetToList` picks; only their members are stated.
- In-place aliasing of the loaded lists and dicts is not observable here: every input is freshly loaded, so updates are modelled as new values.
- `float('inf')` in the optimiser is modelled as "no candidate yet".
- Loading `scenario_costs` (src/test-plan-optimize.py:18-21) is a parameter.
- A `KeyError` on a missing record field is not modelled where the record types always carry the field: `binding["id"]["value"]` and its siblings (src/generate-tests.py:19-21), `tt["scenarios"]` and `test["uuid"]` (teststrategy.py:25,32), `t["quantities"]` (makeplots.py:224). Missing keys are modelled where the source reads optional fields, as in `MakePlots.MissingKeyNone`.
- The missing-`scenarios` default in costcalc.py and the visualizer's `or []` fallbacks are not modelled: every record carries its scenario list.
- The glyph written for a present cell is kept exactly as the source file has it (a three-character mis-decoded block sign).
- GenerateTests.Close: requires a well-formed grouping (non-empty entries, duplicate-free order), which the aggregation always produces.
- CostCalc.CombinedIsCycleCost: requires the last configuration to list no scenario twice, because the closing retraction sums a list while the cycle sums a set.
- MakePlots.MakePresence: requires distinct test ids. With duplicate ids pandas' `.at` on a duplicated column does not address one cell.
- MakePlots.StatusMatrix: requires distinct test ids, for the same reason.
- MakePlots.TextGrid: requirement ids are kept as strings, so `str(r)` is the identity; the `configs` field of proxied requirements is carried but never read.
- Visualize.BuildRowsForPlan: states the text as the join of the rows; no lemma states row k's content pointwise.
