/** The plan cost calculator: sums the costs of every configuration's `apply`
    and `retract` lists, then adds the retraction of the last configuration. */
module CostCalc {
  import opened Wrappers
  import opened Collections
  import opened Costs
  import opened Plan
  import opened Delta

  datatype Totals = Totals(apply: int, retract: int, combined: int)

  /** Sum of the `apply` costs of `tests`, an absent list counting as empty. */
  function ApplyTotal(costs: map<int, int>, tests: seq<Test>): int
  {
    if tests == [] then 0 else ListCost(costs, OrEmpty(tests[0].apply)) + ApplyTotal(costs, tests[1..])
  }

  /** Sum of the `retract` costs of `tests`, an absent list counting as empty. */
  function RetractTotal(costs: map<int, int>, tests: seq<Test>): int
  {
    if tests == [] then 0 else ListCost(costs, OrEmpty(tests[0].retract)) + RetractTotal(costs, tests[1..])
  }

  /** `calculate_costs(tests)` with the cost table passed in. `tests[-1]`
      raises IndexError on an empty plan, after the (empty) loop. */
  method CalculateCosts(costs: map<int, int>, tests: seq<Test>) returns (r: Result<Totals>)
    ensures r.Err? <==> tests == []
    ensures r.Err? ==> r.error == IndexError
    ensures r.Ok? ==> r.value.apply == ApplyTotal(costs, tests)
    ensures r.Ok? ==> r.value.retract == RetractTotal(costs, tests) + ListCost(costs, tests[|tests| - 1].scenarios)
    ensures r.Ok? ==> r.value.combined == r.value.apply + r.value.retract
  {
    var totalApply := 0;
    var totalRetract := 0;
    var i := 0;
    while i < |tests|
      invariant i <= |tests|
      invariant totalApply + ApplyTotal(costs, tests[i..]) == ApplyTotal(costs, tests)
      invariant totalRetract + RetractTotal(costs, tests[i..]) == RetractTotal(costs, tests)
    {
      assert tests[i..][1..] == tests[i + 1..];
      var test := tests[i];
      var applySum := ListCost(costs, OrEmpty(test.apply));
      var retractSum := ListCost(costs, OrEmpty(test.retract));
      totalApply := totalApply + applySum;
      totalRetract := totalRetract + retractSum;
      i := i + 1;
    }
    if |tests| == 0 {
      return Err(IndexError);
    }
    var finalRetractSum := ListCost(costs, tests[|tests| - 1].scenarios);
    totalRetract := totalRetract + finalRetractSum;
    r := Ok(Totals(totalApply, totalRetract, totalApply + totalRetract));
  }

  /** With non-negative costs every total is non-negative. */
  lemma {:induction false} TotalsNonNegative(costs: map<int, int>, tests: seq<Test>)
    requires NonNegative(costs)
    ensures ApplyTotal(costs, tests) >= 0 && RetractTotal(costs, tests) >= 0
  {
    if tests != [] {
      ListCostNonNegative(costs, OrEmpty(tests[0].apply));
      ListCostNonNegative(costs, OrEmpty(tests[0].retract));
      TotalsNonNegative(costs, tests[1..]);
    }
  }

  /** The cost of one annotated step is the cost of moving between the two sets. */
  lemma DeltaCost(costs: map<int, int>, tests: seq<Test>, out: seq<Test>, i: nat)
    requires Annotated(tests, out) && i < |tests|
    ensures ListCost(costs, OrEmpty(out[i].apply)) + ListCost(costs, OrEmpty(out[i].retract)) ==
            TransitionCost(costs, Before(tests, i), ScenarioSet(tests[i]))
  {
    assert DeltaOf(tests[i], Before(tests, i), out[i]);
    AscendingNoDup(out[i].apply.value);
    AscendingNoDup(out[i].retract.value);
    ListCostOfDistinct(costs, out[i].apply.value);
    ListCostOfDistinct(costs, out[i].retract.value);
  }

  /** Peeling position `i` off both sides. */
  lemma SuffixUnfold(costs: map<int, int>, tests: seq<Test>, out: seq<Test>, i: nat)
    requires Annotated(tests, out) && i < |tests|
    ensures ApplyTotal(costs, out[i..]) + RetractTotal(costs, out[i..]) ==
            TransitionCost(costs, Before(tests, i), ScenarioSet(tests[i])) +
            ApplyTotal(costs, out[i + 1..]) + RetractTotal(costs, out[i + 1..])
    ensures PathCost(costs, Before(tests, i), ScenarioSets(tests)[i..] + [{}]) ==
            TransitionCost(costs, Before(tests, i), ScenarioSet(tests[i])) +
            PathCost(costs, ScenarioSet(tests[i]), ScenarioSets(tests)[i + 1..] + [{}])
  {
    DeltaCost(costs, tests, out, i);
    assert out[i..][1..] == out[i + 1..];
    var sets := ScenarioSets(tests)[i..] + [{}];
    assert sets[0] == ScenarioSet(tests[i]);
    assert sets[1..] == ScenarioSets(tests)[i + 1..] + [{}];
  }

  /** The closing retraction costs the last set, when it lists no scenario twice. */
  lemma ClosingCost(costs: map<int, int>, last: Test)
    requires NoDup(last.scenarios)
    ensures ListCost(costs, last.scenarios) == PathCost(costs, ScenarioSet(last), [{}])
  {
    var s := ScenarioSet(last);
    ListCostOfDistinct(costs, last.scenarios);
    assert {} - s == {} && s - {} == s;
    var closing: seq<set<int>> := [{}];
    assert closing[1..] == [];
  }

  /** From position `i` on, the sums of an annotated plan plus the closing
      retraction walk the remaining sets and return to nothing. */
  lemma {:induction false} SuffixCost(costs: map<int, int>, tests: seq<Test>, out: seq<Test>, i: nat)
    requires Annotated(tests, out) && i < |tests|
    requires NoDup(tests[|tests| - 1].scenarios)
    ensures ApplyTotal(costs, out[i..]) + RetractTotal(costs, out[i..]) + ListCost(costs, out[|out| - 1].scenarios) ==
            PathCost(costs, Before(tests, i), ScenarioSets(tests)[i..] + [{}])
    decreases |tests| - i
  {
    SuffixUnfold(costs, tests, out, i);
    if i + 1 < |tests| {
      assert Before(tests, i + 1) == ScenarioSet(tests[i]);
      SuffixCost(costs, tests, out, i + 1);
    } else {
      AnnotatedKeepsRecords(tests, out, i);
      assert out[i + 1..] == [];
      assert ScenarioSets(tests)[i + 1..] == [];
      ClosingCost(costs, tests[i]);
    }
  }

  /** The combined total of a plan whose deltas were computed by the delta
      pass is the cost of the cycle nothing → each configuration in turn →
      nothing, provided the last configuration lists no scenario twice. */
  lemma CombinedIsCycleCost(costs: map<int, int>, tests: seq<Test>, out: seq<Test>)
    requires Annotated(tests, out) && tests != []
    requires NoDup(tests[|tests| - 1].scenarios)
    ensures ApplyTotal(costs, out) + RetractTotal(costs, out) + ListCost(costs, out[|out| - 1].scenarios) ==
            CycleCost(costs, ScenarioSets(tests))
  {
    SuffixCost(costs, tests, out, 0);
    assert out[0..] == out;
    assert ScenarioSets(tests)[0..] == ScenarioSets(tests);
  }

  /** Costs 5 and 7 for scenarios 3 and 19, a plan [3] then [3,19]: apply
      5 + 7, retract 0 plus the closing 5 + 7, combined 24. */
  lemma CalculateCostsExample()
    ensures var costs := map[3 := 5, 19 := 7];
            var tests := [Test(1, [3], map[], Some([3]), None), Test(2, [3, 19], map[], Some([19]), None)];
            ApplyTotal(costs, tests) == 12 &&
            RetractTotal(costs, tests) + ListCost(costs, tests[1].scenarios) == 12
  {
    var costs := map[3 := 5, 19 := 7];
    var tests := [Test(1, [3], map[], Some([3]), None), Test(2, [3, 19], map[], Some([19]), None)];
    assert tests[1..][1..] == [];
    assert [3, 19][1..] == [19];
  }
}
