/** The per-step cost table of the report view: for each configuration, the
    cost of the scenarios it applies and retracts. */
module OtherView {
  import opened Wrappers
  import opened Collections
  import opened Costs
  import opened Plan
  import opened Delta
  import CostCalc

  datatype CostRow = CostRow(testId: int, cost: int)

  /** `sum(cost_lu.get(s, 0) for s in apply_ids + retract_ids)`, an absent
      list counting as empty. */
  function StepCost(costs: map<int, int>, t: Test): int
  {
    ListCost(costs, OrEmpty(t.apply) + OrEmpty(t.retract))
  }

  /** `calc_costs_per_test`: one row per configuration, in order. */
  method CostsPerTest(tests: seq<Test>, costs: map<int, int>) returns (rows: seq<CostRow>)
    ensures |rows| == |tests|
    ensures forall i :: 0 <= i < |tests| ==> rows[i] == CostRow(tests[i].id, StepCost(costs, tests[i]))
  {
    rows := [];
    for i := 0 to |tests|
      invariant RowsUpTo(tests, costs, rows, i)
    {
      var t := tests[i];
      var applyIds := OrEmpty(t.apply);
      var retractIds := OrEmpty(t.retract);
      var cost := ListCost(costs, applyIds + retractIds);
      RowsStep(tests, costs, rows, i);
      rows := rows + [CostRow(t.id, cost)];
    }
  }

  /** The rows for the first `i` configurations. */
  predicate RowsUpTo(tests: seq<Test>, costs: map<int, int>, rows: seq<CostRow>, i: nat)
  {
    i <= |tests| && |rows| == i &&
    forall k :: 0 <= k < i ==> rows[k] == CostRow(tests[k].id, StepCost(costs, tests[k]))
  }

  lemma RowsStep(tests: seq<Test>, costs: map<int, int>, rows: seq<CostRow>, i: nat)
    requires RowsUpTo(tests, costs, rows, i) && i < |tests|
    ensures RowsUpTo(tests, costs, rows + [CostRow(tests[i].id, StepCost(costs, tests[i]))], i + 1)
  {
    var next := rows + [CostRow(tests[i].id, StepCost(costs, tests[i]))];
    forall k | 0 <= k < i + 1 ensures next[k] == CostRow(tests[k].id, StepCost(costs, tests[k])) {
      if k < i { assert next[k] == rows[k]; }
    }
  }

  /** The row cost is the apply cost plus the retract cost, each element of
      each list counted once per occurrence. */
  lemma StepCostSplit(costs: map<int, int>, t: Test)
    ensures StepCost(costs, t) == ListCost(costs, OrEmpty(t.apply)) + ListCost(costs, OrEmpty(t.retract))
  {
    ListCostAppend(costs, OrEmpty(t.apply), OrEmpty(t.retract));
  }

  /** A scenario in both lists is paid for twice: once for its occurrence in
      `apply` and once for its occurrence in `retract`, on top of the rest. */
  lemma StepCostCountsBoth(costs: map<int, int>, t: Test, s: int)
    requires s in OrEmpty(t.apply) && s in OrEmpty(t.retract)
    ensures StepCost(costs, t) ==
            2 * Lookup(costs, s) + ListCost(costs, RemoveFirst(OrEmpty(t.apply), s) + RemoveFirst(OrEmpty(t.retract), s))
  {
    var a, r := OrEmpty(t.apply), OrEmpty(t.retract);
    StepCostSplit(costs, t);
    ListCostRemoveFirst(costs, a, s);
    ListCostRemoveFirst(costs, r, s);
    ListCostAppend(costs, RemoveFirst(a, s), RemoveFirst(r, s));
  }

  /** The smallest case: applying and retracting just `s` costs it twice. */
  lemma StepCostCountsBothExample(costs: map<int, int>, id: int, s: int)
    ensures StepCost(costs, Test(id, [s], map[], Some([s]), Some([s]))) == 2 * Lookup(costs, s)
  {
    var t := Test(id, [s], map[], Some([s]), Some([s]));
    StepCostCountsBoth(costs, t, s);
    assert RemoveFirst([s], s) == [];
  }

  lemma StepCostNonNegative(costs: map<int, int>, t: Test)
    requires NonNegative(costs)
    ensures StepCost(costs, t) >= 0
  {
    ListCostNonNegative(costs, OrEmpty(t.apply) + OrEmpty(t.retract));
  }

  /** On an annotated plan each row is the cost of one transition; unlike the
      calculator's totals, no row pays for the closing retraction. */
  lemma StepCostOfAnnotated(costs: map<int, int>, tests: seq<Test>, out: seq<Test>, i: nat)
    requires Annotated(tests, out) && i < |tests|
    ensures StepCost(costs, out[i]) == TransitionCost(costs, Before(tests, i), ScenarioSet(tests[i]))
  {
    StepCostSplit(costs, out[i]);
    CostCalc.DeltaCost(costs, tests, out, i);
  }
}
