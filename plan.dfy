/** The engine's test configuration record, as read from and written to the
    `tests_*_def.json` files. */
module Plan {
  import opened Wrappers
  import opened Collections

  /** One configuration: its id, its scenario ids, the requirement ids per
      quantity key (the key is the quantity id written as a string), and the
      `apply`/`retract` lists, absent until a delta pass has run. */
  datatype Test = Test(id: int, scenarios: seq<int>, quantities: map<string, seq<int>>,
                       apply: Option<seq<int>>, retract: Option<seq<int>>)

  /** `set(test["scenarios"])`. */
  function ScenarioSet(t: Test): set<int>
  {
    ToSet(t.scenarios)
  }

  function ScenarioSets(tests: seq<Test>): (r: seq<set<int>>)
    ensures |r| == |tests|
    ensures forall i :: 0 <= i < |tests| ==> r[i] == ScenarioSet(tests[i])
  {
    seq(|tests|, i requires 0 <= i < |tests| => ScenarioSet(tests[i]))
  }
}
