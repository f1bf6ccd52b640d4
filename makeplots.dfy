/** The plot data builders: one row per (test, scenario) pair for the
    heatmaps, and the scenario × test status matrix with its requirement
    text grid and cell colours. */
module MakePlots {
  import opened Wrappers
  import opened Collections
  import opened Text
  import Plan
  import opened Report

  // ---------------------------------------------------------------------------
  // build_scenario_df

  /** One data-frame row: the 1-based position of the test, its id, and one of its scenarios. */
  datatype ScenarioRow = ScenarioRow(testIndex: int, testId: int, scenario: int)

  /** The rows of the test at 1-based position `index`, one per listed scenario. */
  function RowsOf(index: int, t: Plan.Test): (r: seq<ScenarioRow>)
    ensures |r| == |t.scenarios|
    ensures forall k :: 0 <= k < |r| ==> r[k] == ScenarioRow(index, t.id, t.scenarios[k])
  {
    seq(|t.scenarios|, k requires 0 <= k < |t.scenarios| => ScenarioRow(index, t.id, t.scenarios[k]))
  }

  function ScenarioRows(tests: seq<Plan.Test>): seq<ScenarioRow>
  {
    if tests == [] then []
    else ScenarioRows(tests[..|tests| - 1]) + RowsOf(|tests|, tests[|tests| - 1])
  }

  /** The total number of listed scenarios. */
  function TotalScenarios(tests: seq<Plan.Test>): nat
  {
    if tests == [] then 0 else TotalScenarios(tests[..|tests| - 1]) + |tests[|tests| - 1].scenarios|
  }

  /** `build_scenario_df`: the nested loop appending rows. */
  method BuildScenarioRows(tests: seq<Plan.Test>) returns (rows: seq<ScenarioRow>)
    ensures rows == ScenarioRows(tests)
  {
    rows := [];
    for i := 0 to |tests|
      invariant rows == ScenarioRows(tests[..i])
    {
      assert tests[..i + 1][..i] == tests[..i];
      var test := tests[i];
      ghost var start := rows;
      for k := 0 to |test.scenarios|
        invariant rows == start + RowsOf(i + 1, test)[..k]
      {
        assert RowsOf(i + 1, test)[..k + 1] == RowsOf(i + 1, test)[..k] + [ScenarioRow(i + 1, test.id, test.scenarios[k])];
        rows := rows + [ScenarioRow(i + 1, test.id, test.scenarios[k])];
      }
      assert RowsOf(i + 1, test)[..|test.scenarios|] == RowsOf(i + 1, test);
    }
    assert tests[..|tests|] == tests;
  }

  /** There is one row per listed scenario. */
  lemma {:induction false} ScenarioRowsCount(tests: seq<Plan.Test>)
    ensures |ScenarioRows(tests)| == TotalScenarios(tests)
  {
    if tests != [] {
      ScenarioRowsCount(tests[..|tests| - 1]);
    }
  }

  /** A row says that the test at that 1-based position, with that id, lists that scenario. */
  lemma {:induction false} ScenarioRowsMembers(tests: seq<Plan.Test>, row: ScenarioRow)
    ensures row in ScenarioRows(tests) <==>
            exists i :: 0 <= i < |tests| && row.testIndex == i + 1 && row.testId == tests[i].id &&
                        row.scenario in tests[i].scenarios
  {
    if tests != [] {
      var n := |tests| - 1;
      var init := tests[..n];
      ScenarioRowsMembers(init, row);
      var own := RowsOf(|tests|, tests[n]);
      assert row in own <==> row.testIndex == n + 1 && row.testId == tests[n].id && row.scenario in tests[n].scenarios by {
        if row.testIndex == n + 1 && row.testId == tests[n].id && row.scenario in tests[n].scenarios {
          var k :| 0 <= k < |tests[n].scenarios| && tests[n].scenarios[k] == row.scenario;
          assert own[k] == row;
        }
      }
      forall i | 0 <= i < n ensures init[i] == tests[i] { }
    }
  }

  // ---------------------------------------------------------------------------
  // make_presence_df: the status matrix

  /** The status of scenario `s` in test `t`: retracted −1 over newly applied
      2 over active 1 over inactive 0. */
  function Status(t: ReportTest, s: string): int
    requires t.apply.Some? && t.retract.Some?
  {
    if s in t.retract.value then -1
    else if s in t.apply.value then 2
    else if s in t.scenarios then 1
    else 0
  }

  predicate Complete(t: ReportTest)
  {
    t.id.Some? && t.apply.Some? && t.retract.Some?
  }

  /** The test ids (`t["id"]`) are pairwise different. */
  predicate DistinctIds(tests: seq<ReportTest>)
  {
    forall i, j :: 0 <= i < |tests| && 0 <= j < |tests| && i != j && tests[i].id.Some? && tests[j].id.Some? ==>
      tests[i].id != tests[j].id
  }

  /** The key a test lacks, in the order the function reads them: all ids for
      the columns first, then the `apply` lists, then the `retract` lists. */
  function MissingKey(tests: seq<ReportTest>): Option<string>
  {
    if exists i :: 0 <= i < |tests| && tests[i].id.None? then Some("id")
    else if exists i :: 0 <= i < |tests| && tests[i].apply.None? then Some("apply")
    else if exists i :: 0 <= i < |tests| && tests[i].retract.None? then Some("retract")
    else None
  }

  lemma MissingKeyNone(tests: seq<ReportTest>)
    ensures MissingKey(tests) == None <==> forall i :: 0 <= i < |tests| ==> Complete(tests[i])
  {
  }

  /** Every scenario the tests list, apply or retract (`scenario_all` as a set). */
  function Universe(tests: seq<ReportTest>): set<string>
    requires forall i :: 0 <= i < |tests| ==> Complete(tests[i])
  {
    if tests == [] then {}
    else Universe(tests[..|tests| - 1]) + Mentioned(tests[|tests| - 1])
  }

  /** The scenarios a test lists, applies or retracts. */
  function Mentioned(t: ReportTest): set<string>
    requires Complete(t)
  {
    ToSet(t.scenarios) + ToSet(t.apply.value) + ToSet(t.retract.value)
  }

  lemma {:induction false} UniverseMembers(tests: seq<ReportTest>, s: string)
    requires forall i :: 0 <= i < |tests| ==> Complete(tests[i])
    ensures s in Universe(tests) <==> exists i :: 0 <= i < |tests| && s in Mentioned(tests[i])
  {
    if tests != [] {
      var n := |tests| - 1;
      var init := tests[..n];
      assert forall i :: 0 <= i < n ==> init[i] == tests[i];
      UniverseMembers(init, s);
      if exists i :: 0 <= i < |tests| && s in Mentioned(tests[i]) {
        var i :| 0 <= i < |tests| && s in Mentioned(tests[i]);
        if i < n { assert s in Mentioned(init[i]); }
      }
    }
  }

  /** The column ids, in test order. */
  function Columns(tests: seq<ReportTest>): (r: seq<int>)
    requires forall i :: 0 <= i < |tests| ==> Complete(tests[i])
    ensures |r| == |tests| && forall i :: 0 <= i < |tests| ==> r[i] == IdOf(tests[i])
  {
    seq(|tests|, i requires 0 <= i < |tests| && Complete(tests[i]) => IdOf(tests[i]))
  }

  function IdOf(t: ReportTest): int
    requires Complete(t)
  {
    t.id.value
  }

  /** The matrix: its sorted scenario rows, its columns, and a status per cell. */
  datatype Matrix = Matrix(rows: seq<string>, columns: seq<int>, status: map<(string, int), int>)

  /** `m` is the presence matrix of `tests`. */
  ghost predicate IsMatrixOf(tests: seq<ReportTest>, m: Matrix)
    requires forall i :: 0 <= i < |tests| ==> Complete(tests[i])
  {
    StrAscending(m.rows) && ToSet(m.rows) == Universe(tests) &&
    m.columns == Columns(tests) &&
    (forall s, c :: (s, c) in m.status <==> s in Universe(tests) && c in m.columns) &&
    (forall i :: 0 <= i < |tests| ==> ColumnIs(m.status, tests[i], Universe(tests)))
  }

  /** `df.at[sc, tid] = v` for each `sc` of `parts`. */
  method Mark(df: map<(string, int), int>, tid: int, parts: seq<string>, v: int) returns (r: map<(string, int), int>)
    requires forall s :: s in parts ==> (s, tid) in df
    ensures r.Keys == df.Keys
    ensures forall s, c :: (s, c) in df ==> r[(s, c)] == if c == tid && s in parts then v else df[(s, c)]
  {
    r := df;
    for k := 0 to |parts|
      invariant r.Keys == df.Keys
      invariant forall s, c :: (s, c) in df ==> r[(s, c)] == if c == tid && s in parts[..k] then v else df[(s, c)]
    {
      assert forall s :: s in parts[..k + 1] <==> s in parts[..k] || s == parts[k] by {
        assert parts[..k + 1] == parts[..k] + [parts[k]];
      }
      r := r[(parts[k], tid) := v];
    }
    assert parts[..|parts|] == parts;
  }

  /** `if df.at[sc, tid] == 0: df.at[sc, tid] = 1` for each `sc` of `parts`. */
  method MarkActive(df: map<(string, int), int>, tid: int, parts: seq<string>) returns (r: map<(string, int), int>)
    requires forall s :: s in parts ==> (s, tid) in df
    ensures r.Keys == df.Keys
    ensures forall s, c :: (s, c) in df ==> r[(s, c)] == if c == tid && s in parts && df[(s, c)] == 0 then 1 else df[(s, c)]
  {
    r := df;
    for k := 0 to |parts|
      invariant r.Keys == df.Keys
      invariant forall s, c :: (s, c) in df ==> r[(s, c)] == if c == tid && s in parts[..k] && df[(s, c)] == 0 then 1 else df[(s, c)]
    {
      assert forall s :: s in parts[..k + 1] <==> s in parts[..k] || s == parts[k] by {
        assert parts[..k + 1] == parts[..k] + [parts[k]];
      }
      if r[(parts[k], tid)] == 0 {
        r := r[(parts[k], tid) := 1];
      }
    }
    assert parts[..|parts|] == parts;
  }

  /** The three passes over one test's column, starting from a column of zeros. */
  method MarkTest(df: map<(string, int), int>, t: ReportTest) returns (r: map<(string, int), int>)
    requires Complete(t)
    requires forall s :: s in Mentioned(t) ==> (s, IdOf(t)) in df && df[(s, IdOf(t))] == 0
    ensures r.Keys == df.Keys
    ensures forall s, c :: (s, c) in df && (c != IdOf(t) || s !in Mentioned(t)) ==> r[(s, c)] == df[(s, c)]
    ensures forall s :: s in Mentioned(t) ==> r[(s, IdOf(t))] == Status(t, s)
  {
    var tid := t.id.value;
    assert forall s :: s in t.apply.value ==> s in Mentioned(t);
    assert forall s :: s in t.scenarios ==> s in Mentioned(t);
    assert forall s :: s in t.retract.value ==> s in Mentioned(t);
    var applied := Mark(df, tid, t.apply.value, 2);
    var active := MarkActive(applied, tid, t.scenarios);
    r := Mark(active, tid, t.retract.value, -1);
  }

  /** `scenario_all` as a set. */
  method CollectUniverse(tests: seq<ReportTest>) returns (universe: set<string>)
    requires forall i :: 0 <= i < |tests| ==> Complete(tests[i])
    ensures universe == Universe(tests)
  {
    universe := {};
    for i := 0 to |tests|
      invariant universe == Universe(tests[..i])
    {
      assert tests[..i + 1][..i] == tests[..i];
      universe := universe + Mentioned(tests[i]);
    }
    assert tests[..|tests|] == tests;
  }

  /** `sorted(s)` for a set of strings. */
  method SortedList(s: set<string>) returns (rows: seq<string>)
    ensures StrAscending(rows) && ToSet(rows) == s
  {
    var listed := SetToList(s);
    rows := SortStrings(listed);
    forall x ensures x in rows <==> x in listed {
      assert x in rows <==> x in multiset(rows);
    }
  }

  /** Column `c` holds the statuses of `t` on every row. */
  ghost predicate ColumnIs(df: map<(string, int), int>, t: ReportTest, universe: set<string>)
    requires Complete(t)
  {
    forall s :: s in universe ==> (s, IdOf(t)) in df && df[(s, IdOf(t))] == Status(t, s)
  }

  ghost predicate ColumnZero(df: map<(string, int), int>, c: int, universe: set<string>)
  {
    forall s :: s in universe ==> (s, c) in df && df[(s, c)] == 0
  }

  ghost predicate SameColumn(df: map<(string, int), int>, df': map<(string, int), int>, c: int, universe: set<string>)
  {
    forall s :: s in universe && (s, c) in df ==> (s, c) in df' && df'[(s, c)] == df[(s, c)]
  }

  /** One round of the loop: test `j` fills its own column, whose cells were zero. */
  method FillColumn(df: map<(string, int), int>, tests: seq<ReportTest>, j: nat, universe: set<string>)
    returns (r: map<(string, int), int>)
    requires forall i :: 0 <= i < |tests| ==> Complete(tests[i])
    requires DistinctIds(tests) && j < |tests| && universe == Universe(tests)
    requires ColumnZero(df, IdOf(tests[j]), universe)
    ensures r.Keys == df.Keys
    ensures ColumnIs(r, tests[j], universe)
    ensures forall k :: 0 <= k < |tests| && k != j ==> SameColumn(df, r, IdOf(tests[k]), universe)
  {
    forall s | s in Mentioned(tests[j]) ensures s in universe {
      UniverseMembers(tests, s);
    }
    r := MarkTest(df, tests[j]);
    forall s | s in universe && s !in Mentioned(tests[j]) ensures Status(tests[j], s) == 0 {
      assert s !in tests[j].scenarios && s !in tests[j].apply.value && s !in tests[j].retract.value;
    }
    forall k | 0 <= k < |tests| && k != j ensures SameColumn(df, r, IdOf(tests[k]), universe) {
      assert IdOf(tests[k]) != IdOf(tests[j]);
    }
  }

  /** The loop `for t in tests` over a matrix of zeros. */
  method FillStatus(tests: seq<ReportTest>, universe: set<string>, columns: seq<int>) returns (df: map<(string, int), int>)
    requires forall i :: 0 <= i < |tests| ==> Complete(tests[i])
    requires DistinctIds(tests) && universe == Universe(tests) && columns == Columns(tests)
    ensures forall s, c :: (s, c) in df <==> s in universe && c in columns
    ensures forall i :: 0 <= i < |tests| ==> ColumnIs(df, tests[i], universe)
  {
    df := map s, c | s in universe && c in columns :: (s, c) := 0;
    assert forall k :: 0 <= k < |tests| ==> columns[k] == IdOf(tests[k]);
    for j := 0 to |tests|
      invariant forall s, c :: (s, c) in df <==> s in universe && c in columns
      invariant forall k :: 0 <= k < j ==> ColumnIs(df, tests[k], universe)
      invariant forall k :: j <= k < |tests| ==> ColumnZero(df, IdOf(tests[k]), universe)
    {
      ghost var before := df;
      df := FillColumn(df, tests, j, universe);
      forall k | 0 <= k < j ensures ColumnIs(df, tests[k], universe) {
        assert SameColumn(before, df, IdOf(tests[k]), universe);
      }
      forall k | j < k < |tests| ensures ColumnZero(df, IdOf(tests[k]), universe) {
        assert SameColumn(before, df, IdOf(tests[k]), universe);
      }
    }
  }

  /** The matrix part of `make_presence_df`. */
  method StatusMatrix(tests: seq<ReportTest>) returns (r: Result<Matrix>)
    requires DistinctIds(tests)
    ensures r.Err? <==> MissingKey(tests).Some?
    ensures r.Err? ==> r.error == KeyError(MissingKey(tests).value)
    ensures r.Ok? ==> (forall i :: 0 <= i < |tests| ==> Complete(tests[i])) && IsMatrixOf(tests, r.value)
  {
    var missing := MissingKey(tests);
    if missing.Some? {
      return Err(KeyError(missing.value));
    }
    MissingKeyNone(tests);
    var universe := CollectUniverse(tests);
    var rows := SortedList(universe);
    var columns := Columns(tests);
    var df := FillStatus(tests, universe, columns);
    r := Ok(Matrix(rows, columns, df));
  }

  /** What a cell of the matrix says about its scenario and test. */
  lemma MatrixCell(tests: seq<ReportTest>, m: Matrix, i: nat, s: string)
    requires forall k :: 0 <= k < |tests| ==> Complete(tests[k])
    requires IsMatrixOf(tests, m) && i < |tests| && s in Universe(tests)
    ensures (s, IdOf(tests[i])) in m.status
    ensures var v := m.status[(s, IdOf(tests[i]))];
            -1 <= v <= 2 &&
            (v == -1 <==> s in tests[i].retract.value) &&
            (v == 2 <==> s in tests[i].apply.value && s !in tests[i].retract.value) &&
            (v == 1 <==> s in tests[i].scenarios && s !in tests[i].apply.value && s !in tests[i].retract.value) &&
            (v == 0 <==> s !in Mentioned(tests[i]))
  {
    assert ColumnIs(m.status, tests[i], Universe(tests));
  }

  /** The rows are exactly the scenarios some test lists, applies or retracts. */
  lemma MatrixRows(tests: seq<ReportTest>, m: Matrix, s: string)
    requires forall k :: 0 <= k < |tests| ==> Complete(tests[k])
    requires IsMatrixOf(tests, m)
    ensures s in m.rows <==> exists i :: 0 <= i < |tests| && s in Mentioned(tests[i])
  {
    assert s in m.rows <==> s in ToSet(m.rows);
    UniverseMembers(tests, s);
  }

  // ---------------------------------------------------------------------------
  // make_presence_df: the requirement text grid

  /** The requirements the quantities of `t` serve. */
  ghost function Requirements(t: ReportTest): set<string>
  {
    set q, r | q in t.quantities && r in t.quantities[q] :: r
  }

  /** `test_req_map[tid]` for one test: the `extend` loop over its quantities. */
  method TestRequirements(t: ReportTest) returns (reqs: set<string>)
    ensures reqs == Requirements(t)
  {
    var keys := SetToList(t.quantities.Keys);
    var listed: seq<string> := [];
    for k := 0 to |keys|
      invariant forall r :: r in listed <==> exists m :: 0 <= m < k && r in t.quantities[keys[m]]
    {
      assert keys[k] in ToSet(keys);
      forall r ensures r in listed + t.quantities[keys[k]] <==> exists m :: 0 <= m < k + 1 && r in t.quantities[keys[m]] {
        if r in t.quantities[keys[k]] { assert 0 <= k < k + 1; }
      }
      listed := listed + t.quantities[keys[k]];
    }
    reqs := ToSet(listed);
    forall r ensures r in reqs <==> r in Requirements(t) {
      if r in Requirements(t) {
        var q :| q in t.quantities && r in t.quantities[q];
        assert q in ToSet(keys);
        var m :| 0 <= m < |keys| && keys[m] == q;
      }
    }
  }

  /** The loop building `test_req_map`. */
  method RequirementMap(tests: seq<ReportTest>) returns (reqMap: map<int, set<string>>)
    requires forall i :: 0 <= i < |tests| ==> Complete(tests[i])
    requires DistinctIds(tests)
    ensures forall c :: c in reqMap <==> c in Columns(tests)
    ensures forall i :: 0 <= i < |tests| ==> IdOf(tests[i]) in reqMap && reqMap[IdOf(tests[i])] == Requirements(tests[i])
  {
    reqMap := map[];
    ghost var columns := Columns(tests);
    for i := 0 to |tests|
      invariant forall c :: c in reqMap <==> c in columns[..i]
      invariant forall k :: 0 <= k < i ==> IdOf(tests[k]) in reqMap && reqMap[IdOf(tests[k])] == Requirements(tests[k])
    {
      assert columns[..i + 1] == columns[..i] + [IdOf(tests[i])];
      var reqs := TestRequirements(tests[i]);
      forall k | 0 <= k < i ensures IdOf(tests[k]) != IdOf(tests[i]) { }
      reqMap := reqMap[tests[i].id.value := reqs];
    }
    assert columns[..|tests|] == columns;
  }

  /** Some ascending listing of a set of strings exists. */
  lemma {:induction false} ListingExists(s: set<string>)
    ensures exists xs :: StrAscending(xs) && ToSet(xs) == s
    decreases |s|
  {
    if s == {} {
      assert StrAscending([]) && ToSet<string>([]) == s;
    } else {
      var x := Pick(s);
      ListingExists(s - {x});
      var xs :| StrAscending(xs) && ToSet(xs) == s - {x};
      var ys := InsertStr(x, xs);
      forall y ensures y in ys <==> y in s {
        assert y in ys <==> y in multiset(ys);
        assert y in xs <==> y in multiset(xs);
        assert y in xs <==> y in ToSet(xs);
      }
      assert StrAscending(ys) && ToSet(ys) == s;
    }
  }

  /** `sorted(s)` for a set of strings. */
  ghost function SortedSet(s: set<string>): (xs: seq<string>)
    ensures StrAscending(xs) && ToSet(xs) == s
  {
    ListingExists(s);
    var xs :| StrAscending(xs) && ToSet(xs) == s;
    xs
  }

  /** What `sc_map.get(sc, [])` lists for the scenario. */
  function ScenarioRequirements(scMap: map<string, seq<string>>, s: string): set<string>
  {
    if s in scMap then ToSet(scMap[s]) else {}
  }

  /** The text of one cell: empty where the status is 0, otherwise the sorted
      requirements both the scenario and the test serve, joined by ", ". */
  ghost function CellText(status: int, scenarioReqs: set<string>, testReqs: set<string>): string
  {
    if status == 0 then "" else Join(SortedSet(scenarioReqs * testReqs), ", ")
  }

  /** Row `s` holds its text on every column. */
  ghost predicate RowIs(disp: map<(string, int), string>, m: Matrix, s: string, scMap: map<string, seq<string>>,
                        reqMap: map<int, set<string>>)
  {
    forall c :: c in m.columns ==>
      (s, c) in disp && (s, c) in m.status && c in reqMap &&
      disp[(s, c)] == CellText(m.status[(s, c)], ScenarioRequirements(scMap, s), reqMap[c])
  }

  ghost predicate RowBlank(disp: map<(string, int), string>, m: Matrix, s: string)
  {
    forall c :: c in m.columns ==> (s, c) in disp && disp[(s, c)] == ""
  }

  /** The inner loop `for tid in disp.columns` for the row of `s`. */
  method FillTextRow(disp: map<(string, int), string>, m: Matrix, s: string, scMap: map<string, seq<string>>,
                     reqMap: map<int, set<string>>) returns (r: map<(string, int), string>)
    requires forall c :: c in m.columns ==> (s, c) in disp && (s, c) in m.status && c in reqMap
    ensures r.Keys == disp.Keys
    ensures forall x, c :: (x, c) in disp && x != s ==> r[(x, c)] == disp[(x, c)]
    ensures forall c :: c in m.columns ==> r[(s, c)] == if m.status[(s, c)] == 0 then disp[(s, c)]
                                                      else CellText(m.status[(s, c)], ScenarioRequirements(scMap, s), reqMap[c])
  {
    var scReqs := ScenarioRequirements(scMap, s);
    r := disp;
    for k := 0 to |m.columns|
      invariant r.Keys == disp.Keys
      invariant forall x, c :: (x, c) in disp && (x != s || c !in m.columns[..k]) ==> r[(x, c)] == disp[(x, c)]
      invariant forall c :: c in m.columns[..k] ==> r[(s, c)] == if m.status[(s, c)] == 0 then disp[(s, c)]
                                                    else CellText(m.status[(s, c)], scReqs, reqMap[c])
    {
      var tid := m.columns[k];
      assert m.columns[..k + 1] == m.columns[..k] + [tid];
      if m.status[(s, tid)] != 0 {
        var listed := SetToList(scReqs * reqMap[tid]);
        var sorted := SortStrings(listed);
        StrAscendingUnique(sorted, SortedSet(scReqs * reqMap[tid])) by {
          forall x ensures x in sorted <==> x in SortedSet(scReqs * reqMap[tid]) {
            assert x in sorted <==> x in multiset(sorted);
            assert x in SortedSet(scReqs * reqMap[tid]) <==> x in ToSet(SortedSet(scReqs * reqMap[tid]));
          }
        }
        r := r[(s, tid) := Join(sorted, ", ")];
      }
    }
    assert m.columns[..|m.columns|] == m.columns;
  }

  /** What the row loop keeps after `i` rows: the grid still has exactly the
      cells of the matrix, the first `i` rows hold their text and the others
      are still blank. */
  ghost predicate GridInv(disp: map<(string, int), string>, m: Matrix, scMap: map<string, seq<string>>,
                          reqMap: map<int, set<string>>, i: nat)
  {
    i <= |m.rows| &&
    (forall s, c :: (s, c) in disp <==> s in m.rows && c in m.columns) &&
    (forall k :: 0 <= k < i ==> RowIs(disp, m, m.rows[k], scMap, reqMap)) &&
    (forall k :: i <= k < |m.rows| ==> RowBlank(disp, m, m.rows[k]))
  }

  /** One round of the row loop: row `i` gets its text, the others are kept. */
  method FillGridRow(disp: map<(string, int), string>, m: Matrix, scMap: map<string, seq<string>>,
                     reqMap: map<int, set<string>>, i: nat) returns (r: map<(string, int), string>)
    requires forall s, c :: (s, c) in m.status <==> s in m.rows && c in m.columns
    requires forall c :: c in m.columns ==> c in reqMap
    requires StrAscending(m.rows)
    requires GridInv(disp, m, scMap, reqMap, i) && i < |m.rows|
    ensures GridInv(r, m, scMap, reqMap, i + 1)
  {
    var s := m.rows[i];
    assert RowBlank(disp, m, s);
    r := FillTextRow(disp, m, s, scMap, reqMap);
    forall k | 0 <= k < |m.rows| && k != i ensures m.rows[k] != s {
      StrLessIrreflexive(s);
    }
    forall k | 0 <= k < i ensures RowIs(r, m, m.rows[k], scMap, reqMap) {
      assert RowIs(disp, m, m.rows[k], scMap, reqMap);
    }
    forall k | i < k < |m.rows| ensures RowBlank(r, m, m.rows[k]) {
      assert RowBlank(disp, m, m.rows[k]);
    }
  }

  /** The text part of `make_presence_df`: the loop `for sc in disp.index`. */
  method TextGrid(m: Matrix, scMap: map<string, seq<string>>, reqMap: map<int, set<string>>)
    returns (disp: map<(string, int), string>)
    requires forall s, c :: (s, c) in m.status <==> s in m.rows && c in m.columns
    requires forall c :: c in m.columns ==> c in reqMap
    requires StrAscending(m.rows)
    ensures forall s, c :: (s, c) in disp <==> s in m.rows && c in m.columns
    ensures forall s :: s in m.rows ==> RowIs(disp, m, s, scMap, reqMap)
  {
    disp := map s, c | s in m.rows && c in m.columns :: (s, c) := "";
    for i := 0 to |m.rows|
      invariant GridInv(disp, m, scMap, reqMap, i)
    {
      disp := FillGridRow(disp, m, scMap, reqMap, i);
    }
    forall s | s in m.rows ensures RowIs(disp, m, s, scMap, reqMap) {
      var k :| 0 <= k < |m.rows| && m.rows[k] == s;
    }
  }

  /** `make_presence_df(tests)` without the transpose: the status matrix and
      its text grid, `sc_map` passed in. */
  method MakePresence(tests: seq<ReportTest>, scMap: map<string, seq<string>>)
    returns (r: Result<(Matrix, map<(string, int), string>)>)
    requires DistinctIds(tests)
    ensures r.Err? <==> MissingKey(tests).Some?
    ensures r.Err? ==> r.error == KeyError(MissingKey(tests).value)
    ensures r.Ok? ==> (forall i :: 0 <= i < |tests| ==> Complete(tests[i])) && IsMatrixOf(tests, r.value.0)
    ensures r.Ok? ==> forall i, s :: 0 <= i < |tests| && s in Universe(tests) ==>
              (s, IdOf(tests[i])) in r.value.1 && (s, IdOf(tests[i])) in r.value.0.status &&
              r.value.1[(s, IdOf(tests[i]))] ==
                CellText(r.value.0.status[(s, IdOf(tests[i]))], ScenarioRequirements(scMap, s), Requirements(tests[i]))
  {
    var matrix := StatusMatrix(tests);
    if matrix.Err? {
      return Err(matrix.error);
    }
    var m := matrix.value;
    var reqMap := RequirementMap(tests);
    forall s, c ensures (s, c) in m.status <==> s in m.rows && c in m.columns {
      assert s in m.rows <==> s in ToSet(m.rows);
    }
    var disp := TextGrid(m, scMap, reqMap);
    forall i, s | 0 <= i < |tests| && s in Universe(tests)
      ensures (s, IdOf(tests[i])) in disp && (s, IdOf(tests[i])) in m.status &&
              disp[(s, IdOf(tests[i]))] == CellText(m.status[(s, IdOf(tests[i]))], ScenarioRequirements(scMap, s), Requirements(tests[i]))
    {
      assert s in ToSet(m.rows);
      assert RowIs(disp, m, s, scMap, reqMap);
      assert m.columns[i] == IdOf(tests[i]);
    }
    r := Ok((m, disp));
  }

  // ---------------------------------------------------------------------------
  // style_presence

  /** `colours[v]`: the four status colours, or with `showAdditional` off one
      colour for every non-zero status; any other value raises KeyError. */
  function Colour(v: int, showAdditional: bool): Result<string>
  {
    if v == 0 then Ok("#ffffff")
    else if v == 1 then Ok("#2a4b8d")
    else if v == 2 then Ok(if showAdditional then "#4f8aff" else "#2a4b8d")
    else if v == -1 then Ok(if showAdditional then "#ffafaf" else "#2a4b8d")
    else Err(KeyError(IntToString(v)))
  }

  /** Every cell of a presence matrix has a colour; without the additional
      colours a cell is white exactly when the scenario is inactive. */
  lemma MatrixColours(tests: seq<ReportTest>, m: Matrix, i: nat, s: string, showAdditional: bool)
    requires forall k :: 0 <= k < |tests| ==> Complete(tests[k])
    requires IsMatrixOf(tests, m) && i < |tests| && s in Universe(tests)
    ensures (s, IdOf(tests[i])) in m.status
    ensures Colour(m.status[(s, IdOf(tests[i]))], showAdditional).Ok?
    ensures !showAdditional ==>
              Colour(m.status[(s, IdOf(tests[i]))], false).value == if s in Mentioned(tests[i]) then "#2a4b8d" else "#ffffff"
  {
    MatrixCell(tests, m, i, s);
  }

  /** With the additional colours the four statuses have four colours. */
  lemma ColoursDistinct(v: int, w: int)
    requires -1 <= v <= 2 && -1 <= w <= 2 && v != w
    ensures Colour(v, true).Ok? && Colour(w, true).Ok? && Colour(v, true) != Colour(w, true)
  {
  }
}
