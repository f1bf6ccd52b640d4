/** The test record of the report pipeline (`pruned_tests.json`,
    `test_order_optimized.json`): scenario ids are strings, each carries a
    `uuid`, and each quantity key lists the requirements it serves. */
module Report {
  import opened Wrappers
  import opened Collections

  /** `id` is absent until the strategy view numbers the tests; `apply` and
      `retract` are absent until a delta pass has run. */
  datatype ReportTest = ReportTest(id: Option<int>, uuid: string, scenarios: seq<string>,
                                   quantities: map<string, seq<string>>,
                                   apply: Option<seq<string>>, retract: Option<seq<string>>)

  function ScenarioSetOf(t: ReportTest): set<string>
  {
    ToSet(t.scenarios)
  }

  function ScenarioSetsOf(tests: seq<ReportTest>): (r: seq<set<string>>)
    ensures |r| == |tests|
    ensures forall i :: 0 <= i < |tests| ==> r[i] == ScenarioSetOf(tests[i])
  {
    seq(|tests|, i requires 0 <= i < |tests| => ScenarioSetOf(tests[i]))
  }
}
