/** The greedy sequencer: starting from no active scenarios, repeatedly pick the
    remaining configuration that is cheapest to switch to, then recompute the
    deltas for the new order and retract everything at the end. */
module Optimize {
  import opened Wrappers
  import opened Collections
  import opened Costs
  import opened Plan
  import opened Delta

  /** Cost of switching from the active set `cur` to the scenarios of `t`. */
  ghost function Switch(costs: map<int, int>, cur: set<int>, t: Test): int
  {
    TransitionCost(costs, cur, ScenarioSet(t))
  }

  /** `rem[k]` is what the scan with a strict `<` keeps: no candidate is
      cheaper, and every earlier candidate is strictly dearer. */
  ghost predicate IsFirstMin(costs: map<int, int>, cur: set<int>, rem: seq<Test>, k: nat)
  {
    k < |rem| &&
    (forall j :: 0 <= j < |rem| ==> Switch(costs, cur, rem[k]) <= Switch(costs, cur, rem[j])) &&
    (forall j :: 0 <= j < k ==> Switch(costs, cur, rem[j]) > Switch(costs, cur, rem[k]))
  }

  /** The position the scan lands on. */
  ghost function FirstMinIndex(costs: map<int, int>, cur: set<int>, rem: seq<Test>): (k: nat)
    requires rem != []
    ensures IsFirstMin(costs, cur, rem, k)
    decreases |rem|
  {
    if |rem| == 1 then 0
    else
      var k := FirstMinIndex(costs, cur, rem[..|rem| - 1]);
      var last := |rem| - 1;
      assert forall j :: 0 <= j < last ==> rem[..last][j] == rem[j];
      if Switch(costs, cur, rem[last]) < Switch(costs, cur, rem[k]) then last else k
  }

  lemma FirstMinUnique(costs: map<int, int>, cur: set<int>, rem: seq<Test>, k: nat, k': nat)
    requires IsFirstMin(costs, cur, rem, k) && IsFirstMin(costs, cur, rem, k')
    ensures k == k'
  {
    var atK, atK' := Switch(costs, cur, rem[k]), Switch(costs, cur, rem[k']);
    if k < k' || k' < k {
      assert false;
    }
  }

  /** `rem` without its element at `k`, the rest in their order. */
  function Without(rem: seq<Test>, k: nat): (r: seq<Test>)
    requires k < |rem|
    ensures |r| == |rem| - 1
    ensures multiset(r) + multiset{rem[k]} == multiset(rem)
  {
    assert rem == rem[..k] + [rem[k]] + rem[k + 1..];
    rem[..k] + rem[k + 1..]
  }

  /** The order the sequencer produces from the active set `cur`. */
  ghost function Greedy(costs: map<int, int>, cur: set<int>, rem: seq<Test>): seq<Test>
    decreases |rem|
  {
    if rem == [] then []
    else
      var k := FirstMinIndex(costs, cur, rem);
      [rem[k]] + Greedy(costs, ScenarioSet(rem[k]), Without(rem, k))
  }

  /** The inner loop `for test in remaining`: the cost of each candidate, and
      the first one with the least cost. */
  method PickNext(costs: map<int, int>, cur: set<int>, remaining: seq<Test>)
    returns (best: Test, bestCost: int, ghost at: nat)
    requires remaining != []
    ensures IsFirstMin(costs, cur, remaining, at) && best == remaining[at]
    ensures bestCost == Switch(costs, cur, best)
  {
    var found: Option<Test> := None;
    bestCost := 0;
    best := remaining[0];
    at := 0;
    var j := 0;
    while j < |remaining|
      invariant j <= |remaining|
      invariant found.Some? <==> j > 0
      invariant j > 0 ==> at < j && found.value == remaining[at] && bestCost == Switch(costs, cur, remaining[at])
      invariant j > 0 ==> forall m :: 0 <= m < j ==> Switch(costs, cur, remaining[at]) <= Switch(costs, cur, remaining[m])
      invariant j > 0 ==> forall m :: 0 <= m < at ==> Switch(costs, cur, remaining[m]) > Switch(costs, cur, remaining[at])
    {
      var test := remaining[j];
      var testScenarios := ToSet(test.scenarios);
      var applyCost := SumSetCost(costs, testScenarios - cur);
      var retractCost := SumSetCost(costs, cur - testScenarios);
      var cost := applyCost + retractCost;
      // `best_cost` starts at infinity: the first candidate always wins.
      if found.None? || cost < bestCost {
        bestCost := cost;
        found := Some(test);
        at := j;
      }
      j := j + 1;
    }
    best := found.value;
  }

  /** `list.remove` drops the first element equal to the pick, which is the
      pick itself: an equal element earlier would cost the same and have won. */
  lemma RemovePicked(costs: map<int, int>, cur: set<int>, rem: seq<Test>, k: nat)
    requires IsFirstMin(costs, cur, rem, k)
    ensures RemoveFirst(rem, rem[k]) == Without(rem, k)
  {
    assert IndexOf(rem, rem[k]) == k;
  }

  /** One round of the loop: the pick heads the order, the rest is the order
      of what remains from the pick's scenarios. */
  lemma GreedyStep(costs: map<int, int>, cur: set<int>, rem: seq<Test>, k: nat)
    requires IsFirstMin(costs, cur, rem, k)
    ensures Greedy(costs, cur, rem) == [rem[k]] + Greedy(costs, ScenarioSet(rem[k]), RemoveFirst(rem, rem[k]))
  {
    FirstMinUnique(costs, cur, rem, k, FirstMinIndex(costs, cur, rem));
    RemovePicked(costs, cur, rem, k);
  }

  /** What the greedy loop keeps: the picks so far followed by the greedy
      order of what remains is the whole greedy order, and `current` is the
      last pick's scenario set (nothing before the first pick). */
  ghost predicate ReorderInv(costs: map<int, int>, tests: seq<Test>, ordered: seq<Test>, current: set<int>, remaining: seq<Test>)
  {
    ordered + Greedy(costs, current, remaining) == Greedy(costs, {}, tests) &&
    current == StateBefore({}, ordered, |ordered|)
  }

  lemma AppendOne(ordered: seq<Test>, x: Test, later: seq<Test>)
    ensures (ordered + [x]) + later == ordered + ([x] + later)
    ensures (ordered + [x])[|ordered|] == x
  {
  }

  lemma ReorderStep(costs: map<int, int>, tests: seq<Test>, ordered: seq<Test>, cur: set<int>, rem: seq<Test>, k: nat)
    requires ReorderInv(costs, tests, ordered, cur, rem)
    requires IsFirstMin(costs, cur, rem, k)
    ensures ReorderInv(costs, tests, ordered + [rem[k]], ScenarioSet(rem[k]), RemoveFirst(rem, rem[k]))
    ensures |RemoveFirst(rem, rem[k])| < |rem|
  {
    var next := RemoveFirst(rem, rem[k]);
    var later := Greedy(costs, ScenarioSet(rem[k]), next);
    GreedyStep(costs, cur, rem, k);
    AppendOne(ordered, rem[k], later);
    assert rem[k] in rem;
  }

  /** The greedy loop `while remaining`, returning the new order. */
  method Reorder(costs: map<int, int>, tests: seq<Test>) returns (ordered: seq<Test>, current: set<int>)
    ensures ordered == Greedy(costs, {}, tests)
    ensures current == if ordered == [] then {} else ScenarioSet(ordered[|ordered| - 1])
  {
    var remaining := tests;
    ordered := [];
    current := {};
    while remaining != []
      invariant ReorderInv(costs, tests, ordered, current, remaining)
      decreases |remaining|
    {
      var best, bestCost, at := PickNext(costs, current, remaining);
      ReorderStep(costs, tests, ordered, current, remaining, at);
      ordered := ordered + [best];
      current := ToSet(best.scenarios);
      remaining := RemoveFirst(remaining, best);
    }
    assert ordered + [] == ordered;
  }

  /** `test_optimize` with the loads and saves replaced by parameters and
      results: the reordered configurations with fresh deltas, and the
      closing retract list. */
  method OptimizePlan(costs: map<int, int>, tests: seq<Test>) returns (finalTests: seq<Test>, finalRetract: seq<int>)
    ensures Annotated(Greedy(costs, {}, tests), finalTests)
    ensures tests == [] ==> finalTests == [] && finalRetract == []
    ensures tests != [] ==> SortedListOf(finalRetract, ScenarioSet(finalTests[|finalTests| - 1]))
  {
    var ordered, current := Reorder(costs, tests);
    GreedyLength(costs, {}, tests);
    finalTests := Annotate(ordered);
    finalRetract := Sorted(current);
    if tests != [] {
      AnnotatedKeepsRecords(ordered, finalTests, |ordered| - 1);
    }
  }

  // ---------------------------------------------------------------------------
  // What the order is

  lemma {:induction false} GreedyLength(costs: map<int, int>, cur: set<int>, rem: seq<Test>)
    ensures |Greedy(costs, cur, rem)| == |rem|
    ensures multiset(Greedy(costs, cur, rem)) == multiset(rem)
    decreases |rem|
  {
    if rem != [] {
      var k := FirstMinIndex(costs, cur, rem);
      GreedyLength(costs, ScenarioSet(rem[k]), Without(rem, k));
    }
  }

  /** The active set before the `i`-th pick of `ordered`, started from `cur`. */
  ghost function StateBefore(cur: set<int>, ordered: seq<Test>, i: nat): set<int>
    requires i <= |ordered|
  {
    if i == 0 then cur else ScenarioSet(ordered[i - 1])
  }

  /** Nearest neighbour: each pick costs no more to switch to than any
      configuration picked after it (those were all still remaining), and it
      comes first in the remaining list among the cheapest. */
  lemma {:induction false} GreedyNearest(costs: map<int, int>, cur: set<int>, rem: seq<Test>, i: nat, j: nat)
    requires i <= j < |rem|
    ensures |Greedy(costs, cur, rem)| == |rem| &&
            Switch(costs, StateBefore(cur, Greedy(costs, cur, rem), i), Greedy(costs, cur, rem)[i]) <=
            Switch(costs, StateBefore(cur, Greedy(costs, cur, rem), i), Greedy(costs, cur, rem)[j])
    decreases |rem|
  {
    if i == 0 {
      GreedyNearestHead(costs, cur, rem, j);
    } else {
      var k := FirstMinIndex(costs, cur, rem);
      var next, rest := ScenarioSet(rem[k]), Without(rem, k);
      GreedyNearest(costs, next, rest, i - 1, j - 1);
      GreedyNearestStep(costs, cur, rem, i, j, k, Greedy(costs, next, rest));
    }
  }

  /** The inductive step: the comparison in the order of the rest carries over. */
  lemma GreedyNearestStep(costs: map<int, int>, cur: set<int>, rem: seq<Test>, i: nat, j: nat, k: nat, tail: seq<Test>)
    requires 0 < i <= j < |rem|
    requires k == FirstMinIndex(costs, cur, rem)
    requires tail == Greedy(costs, ScenarioSet(rem[k]), Without(rem, k)) && |tail| == |rem| - 1
    requires Switch(costs, StateBefore(ScenarioSet(rem[k]), tail, i - 1), tail[i - 1]) <=
             Switch(costs, StateBefore(ScenarioSet(rem[k]), tail, i - 1), tail[j - 1])
    ensures |Greedy(costs, cur, rem)| == |rem| &&
            Switch(costs, StateBefore(cur, Greedy(costs, cur, rem), i), Greedy(costs, cur, rem)[i]) <=
            Switch(costs, StateBefore(cur, Greedy(costs, cur, rem), i), Greedy(costs, cur, rem)[j])
  {
    GreedyUnfold(costs, cur, rem);
    NearestShift(costs, cur, rem[k], tail, Greedy(costs, cur, rem), i, j);
  }

  /** The first pick is no dearer than any later one. */
  lemma GreedyNearestHead(costs: map<int, int>, cur: set<int>, rem: seq<Test>, j: nat)
    requires j < |rem|
    ensures |Greedy(costs, cur, rem)| == |rem| &&
            Switch(costs, cur, Greedy(costs, cur, rem)[0]) <= Switch(costs, cur, Greedy(costs, cur, rem)[j])
  {
    GreedyLength(costs, cur, rem);
    var order := Greedy(costs, cur, rem);
    var k := FirstMinIndex(costs, cur, rem);
    assert order[0] == rem[k];
    assert order[j] in multiset(rem);
    var m :| 0 <= m < |rem| && rem[m] == order[j];
    assert Switch(costs, cur, rem[k]) <= Switch(costs, cur, rem[m]);
  }

  lemma GreedyUnfold(costs: map<int, int>, cur: set<int>, rem: seq<Test>)
    requires rem != []
    ensures Greedy(costs, cur, rem) ==
            [rem[FirstMinIndex(costs, cur, rem)]] +
            Greedy(costs, ScenarioSet(rem[FirstMinIndex(costs, cur, rem)]), Without(rem, FirstMinIndex(costs, cur, rem)))
  {
  }

  /** Past the first pick, the comparison is the one in the rest of the order. */
  lemma NearestShift(costs: map<int, int>, cur: set<int>, x: Test, tail: seq<Test>, order: seq<Test>, i: nat, j: nat)
    requires order == [x] + tail && 0 < i <= j < |order|
    requires Switch(costs, StateBefore(ScenarioSet(x), tail, i - 1), tail[i - 1]) <=
             Switch(costs, StateBefore(ScenarioSet(x), tail, i - 1), tail[j - 1])
    ensures Switch(costs, StateBefore(cur, order, i), order[i]) <= Switch(costs, StateBefore(cur, order, i), order[j])
  {
    assert order[i] == tail[i - 1] && order[j] == tail[j - 1];
    assert StateBefore(cur, order, i) == StateBefore(ScenarioSet(x), tail, i - 1);
  }

  /** The first pick is the cheapest configuration to set up from nothing,
      that is, the one whose scenarios cost least in total. */
  lemma GreedyFirst(costs: map<int, int>, tests: seq<Test>, j: nat)
    requires j < |tests|
    ensures |Greedy(costs, {}, tests)| == |tests| &&
            SetCost(costs, ScenarioSet(Greedy(costs, {}, tests)[0])) <= SetCost(costs, ScenarioSet(tests[j]))
  {
    GreedyLength(costs, {}, tests);
    var k := FirstMinIndex(costs, {}, tests);
    TransitionFromEmpty(costs, ScenarioSet(tests[k]));
    TransitionFromEmpty(costs, ScenarioSet(tests[j]));
  }

  /** Ties go to the earliest candidate in the remaining list. */
  lemma GreedyTieBreak(costs: map<int, int>, cur: set<int>, rem: seq<Test>, j: nat)
    requires rem != []
    requires j < |rem| && Switch(costs, cur, rem[j]) == Switch(costs, cur, Greedy(costs, cur, rem)[0])
    ensures FirstMinIndex(costs, cur, rem) <= j
  {
  }

  lemma GreedyEmpty(costs: map<int, int>, cur: set<int>)
    ensures Greedy(costs, cur, []) == []
  {
  }
}
