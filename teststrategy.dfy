/** The data preparation of the strategy view: number the unoptimized tests,
    attach their deltas, carry the numbers over to the optimized tests by
    uuid, and flatten the requirement situations. */
module TestStrategy {
  import opened Wrappers
  import opened Collections
  import opened Report
  import opened Proxied

  /** The scenarios of the previous test (`ct`), nothing before the first. */
  ghost function Prev(tests: seq<ReportTest>, i: nat): set<string>
    requires i <= |tests|
  {
    if i == 0 then {} else ScenarioSetOf(tests[i - 1])
  }

  /** `u` is test number `i` with id `i + 1` and, as unordered lists without
      repeats, `apply` = S − prev and `retract` = prev − S. */
  ghost predicate NumberedDelta(t: ReportTest, i: nat, prev: set<string>, u: ReportTest)
  {
    u.apply.Some? && u.retract.Some? &&
    u == t.(id := Some(i + 1), apply := u.apply, retract := u.retract) &&
    NoDup(u.apply.value) && ToSet(u.apply.value) == ScenarioSetOf(t) - prev &&
    NoDup(u.retract.value) && ToSet(u.retract.value) == prev - ScenarioSetOf(t)
  }

  ghost predicate Numbered(tests: seq<ReportTest>, out: seq<ReportTest>)
  {
    |out| == |tests| &&
    forall i :: 0 <= i < |tests| ==> NumberedDelta(tests[i], i, Prev(tests, i), out[i])
  }

  /** The body of the loop for one test: its number and its differences
      from the previous scenarios `ct`. */
  method NumberOne(tt: ReportTest, i: nat, ct: seq<string>) returns (numbered: ReportTest)
    ensures NumberedDelta(tt, i, ToSet(ct), numbered)
  {
    var apply := SetToList(ToSet(tt.scenarios) - ToSet(ct));
    var retract := SetToList(ToSet(ct) - ToSet(tt.scenarios));
    numbered := tt.(id := Some(i + 1), apply := Some(apply), retract := Some(retract));
  }

  /** The loop `for i, tt in enumerate(unopt_tests["tests"])`; `list(set)`
      lists the differences in an order Python does not specify. */
  method NumberAndDelta(tests: seq<ReportTest>) returns (out: seq<ReportTest>)
    ensures Numbered(tests, out)
  {
    out := [];
    var ct: seq<string> := [];
    for i := 0 to |tests|
      invariant |out| == i
      invariant ToSet(ct) == Prev(tests, i)
      invariant forall k :: 0 <= k < i ==> NumberedDelta(tests[k], k, Prev(tests, k), out[k])
    {
      var numbered := NumberOne(tests[i], i, ct);
      ghost var before := out;
      out := out + [numbered];
      assert forall k :: 0 <= k < i ==> out[k] == before[k];
      ct := tests[i].scenarios;
    }
  }

  /** Ids are 1..n in list order, and the deltas never overlap and lead from
      the previous scenarios to the current ones. */
  lemma NumberedDeltas(tests: seq<ReportTest>, out: seq<ReportTest>, i: nat)
    requires Numbered(tests, out) && i < |tests|
    ensures out[i].id == Some(i + 1)
    ensures out[i].uuid == tests[i].uuid && out[i].scenarios == tests[i].scenarios
    ensures ToSet(out[i].apply.value) !! ToSet(out[i].retract.value)
    ensures ScenarioSetOf(tests[i]) == (Prev(tests, i) - ToSet(out[i].retract.value)) + ToSet(out[i].apply.value)
  {
    assert NumberedDelta(tests[i], i, Prev(tests, i), out[i]);
  }

  /** The first test applies all its scenarios and retracts nothing. */
  lemma NumberedFirst(tests: seq<ReportTest>, out: seq<ReportTest>)
    requires Numbered(tests, out) && tests != []
    ensures ToSet(out[0].apply.value) == ScenarioSetOf(tests[0]) && out[0].retract == Some([])
  {
    assert NumberedDelta(tests[0], 0, {}, out[0]);
    NoDupCard(out[0].retract.value);
  }

  /** `[test for test in tests if test["uuid"] == uuid]`. */
  function WithUuid(tests: seq<ReportTest>, uuid: string): seq<ReportTest>
  {
    if tests == [] then []
    else (if tests[0].uuid == uuid then [tests[0]] else []) + WithUuid(tests[1..], uuid)
  }

  /** The position of the first test with `uuid`, `|tests|` if there is none. */
  function FirstWithUuid(tests: seq<ReportTest>, uuid: string): (k: nat)
    ensures k <= |tests|
    ensures k < |tests| ==> tests[k].uuid == uuid
    ensures forall j :: 0 <= j < k ==> tests[j].uuid != uuid
  {
    if tests == [] then 0
    else if tests[0].uuid == uuid then 0
    else 1 + FirstWithUuid(tests[1..], uuid)
  }

  /** The comprehension is empty exactly when no test has the uuid, and
      otherwise its head is the first test that has it. */
  lemma {:induction false} WithUuidHead(tests: seq<ReportTest>, uuid: string)
    ensures WithUuid(tests, uuid) == [] <==> FirstWithUuid(tests, uuid) == |tests|
    ensures WithUuid(tests, uuid) != [] ==> WithUuid(tests, uuid)[0] == tests[FirstWithUuid(tests, uuid)]
  {
    if tests != [] && tests[0].uuid != uuid {
      WithUuidHead(tests[1..], uuid);
    }
  }

  /** The loop `for ss in opt_tests["tests"]`: each optimized test takes the id
      of the first unoptimized test with its uuid; a uuid without a match
      raises IndexError at `[0]`. */
  method MatchIds(unopt: seq<ReportTest>, opt: seq<ReportTest>) returns (r: Result<seq<ReportTest>>)
    ensures r.Err? <==> exists j :: 0 <= j < |opt| && WithUuid(unopt, opt[j].uuid) == []
    ensures r.Err? ==> r.error == IndexError
    ensures r.Ok? ==> |r.value| == |opt| &&
                      forall j :: 0 <= j < |opt| ==> r.value[j] == opt[j].(id := WithUuid(unopt, opt[j].uuid)[0].id)
  {
    var out: seq<ReportTest> := [];
    for j := 0 to |opt|
      invariant |out| == j
      invariant forall k :: 0 <= k < j ==> WithUuid(unopt, opt[k].uuid) != []
      invariant forall k :: 0 <= k < j ==> out[k] == opt[k].(id := WithUuid(unopt, opt[k].uuid)[0].id)
    {
      var ss := opt[j];
      var matching := WithUuid(unopt, ss.uuid);
      if matching == [] {
        return Err(IndexError);
      }
      var target := matching[0];
      out := out + [ss.(id := target.id)];
    }
    r := Ok(out);
  }

  /** After numbering, an optimized test gets the number of the first
      unoptimized test with its uuid, and keeps everything else. */
  lemma MatchedIdIsPosition(tests: seq<ReportTest>, numbered: seq<ReportTest>, opt: seq<ReportTest>,
                            matched: seq<ReportTest>, j: nat)
    requires Numbered(tests, numbered)
    requires |matched| == |opt| && j < |opt|
    requires WithUuid(numbered, opt[j].uuid) != []
    requires matched[j] == opt[j].(id := WithUuid(numbered, opt[j].uuid)[0].id)
    ensures FirstWithUuid(tests, opt[j].uuid) < |tests|
    ensures matched[j].id == Some(FirstWithUuid(tests, opt[j].uuid) + 1)
    ensures matched[j].(id := opt[j].id) == opt[j]
  {
    var u := opt[j].uuid;
    WithUuidHead(numbered, u);
    SameUuids(tests, numbered, u);
    var k := FirstWithUuid(numbered, u);
    NumberedDeltas(tests, numbered, k);
  }

  /** Numbering keeps the uuids, so the first match is at the same place. */
  lemma SameUuids(tests: seq<ReportTest>, numbered: seq<ReportTest>, u: string)
    requires Numbered(tests, numbered)
    ensures FirstWithUuid(numbered, u) == FirstWithUuid(tests, u)
  {
    forall i | 0 <= i < |tests| ensures numbered[i].uuid == tests[i].uuid {
      NumberedDeltas(tests, numbered, i);
    }
    UuidsAgree(tests, numbered, u);
  }

  lemma {:induction false} UuidsAgree(a: seq<ReportTest>, b: seq<ReportTest>, u: string)
    requires |a| == |b| && forall i :: 0 <= i < |a| ==> a[i].uuid == b[i].uuid
    ensures FirstWithUuid(a, u) == FirstWithUuid(b, u)
  {
    if a != [] {
      assert a[0].uuid == b[0].uuid;
      UuidsAgree(a[1..], b[1..], u);
    }
  }

  /** A requirement with its situations flattened into one scenario list and
      `configs` removed. */
  datatype FlatRequirement = FlatRequirement(id: string, situations: seq<string>, fields: map<string, string>)

  function FlatOf(r: ProxyRequirement): FlatRequirement
  {
    FlatRequirement(r.id, Flatten(r.situations), r.fields)
  }

  /** The `reqproxy2` table: one entry per id, the last record with that id
      winning, its situations flattened in order and `configs` gone. */
  method FlattenRequirements(reqs: seq<ProxyRequirement>) returns (table: map<string, FlatRequirement>)
    ensures forall x :: x in table <==> exists i :: 0 <= i < |reqs| && reqs[i].id == x
    ensures forall i :: 0 <= i < |reqs| && (forall j :: i < j < |reqs| ==> reqs[j].id != reqs[i].id) ==>
              reqs[i].id in table && table[reqs[i].id] == FlatRequirement(reqs[i].id, Flatten(reqs[i].situations), reqs[i].fields)
  {
    table := IndexById(reqs, FlatOf);
    forall x ensures x in table <==> exists i :: 0 <= i < |reqs| && reqs[i].id == x {
      ByIdKeys(reqs, FlatOf, x);
    }
    forall i | 0 <= i < |reqs| && (forall j :: i < j < |reqs| ==> reqs[j].id != reqs[i].id)
      ensures reqs[i].id in table && table[reqs[i].id] == FlatRequirement(reqs[i].id, Flatten(reqs[i].situations), reqs[i].fields)
    {
      ByIdLast(reqs, FlatOf, i);
    }
  }
}
