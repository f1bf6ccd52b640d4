/** The plan visualizer: name parsing, the category order, the cost summary
    of a raw plan, and the text rows of the scenario chart. */
module Visualize {
  import opened Wrappers
  import opened Collections
  import opened Text
  import opened Costs
  import opened Report

  // ---------------------------------------------------------------------------
  // Labels

  /** The text after the last `.` (the whole name when there is none). */
  function LastSegment(name: string): string
  {
    var parts := Split(name, '.');
    parts[|parts| - 1]
  }

  /** Python's `int()` is lenient about whitespace, `_` and non-ASCII digits.
      A label without a `.` never reaches `int()`; a dotted label is parsed
      exactly when its last segment has none of those characters. */
  predicate OrderParsable(name: string)
  {
    '.' !in name || Plain(LastSegment(name))
  }

  /** `parse_prefix_order`: the name up to its last `.`, and the number after
      it, or 0 when that is not an integer or there is no `.`. */
  function ParsePrefixOrder(name: string): (r: (string, int))
    requires OrderParsable(name)
    ensures '.' !in name ==> r == (name, 0)
    ensures '.' in name ==> r.0 + "." + LastSegment(name) == name
    ensures '.' in name ==> r.1 == match ParseInt(LastSegment(name)) case Ok(n) => n case Err(_) => 0
  {
    var parts := Split(name, '.');
    SplitCount(name, '.');
    CountCharIn(name, '.');
    if |parts| >= 2 then
      var prefix := Join(parts[..|parts| - 1], ".");
      var order := match ParseInt(parts[|parts| - 1]) case Ok(n) => n case Err(_) => 0;
      JoinSplit(name, '.');
      JoinLast(parts, ".");
      (prefix, order)
    else
      (name, 0)
  }

  lemma {:induction false} JoinLast(parts: seq<string>, sep: string)
    requires |parts| >= 2
    ensures Join(parts, sep) == Join(parts[..|parts| - 1], sep) + sep + parts[|parts| - 1]
  {
    if |parts| > 2 {
      JoinLast(parts[1..], sep);
      assert parts[1..][..|parts| - 2] == parts[..|parts| - 1][1..];
    }
  }

  /** A prefix followed by `.` and a number parses back to the two parts. */
  lemma ParsePrefixOrderRoundTrip(prefix: string, n: int)
    ensures OrderParsable(prefix + "." + IntToString(n))
    ensures ParsePrefixOrder(prefix + "." + IntToString(n)) == (prefix, n)
  {
    var digits := IntToString(n);
    IntToStringChars(n, '.');
    SplitConcat(prefix, digits, '.');
    SplitNone(digits, '.');
    var name := prefix + "." + digits;
    assert name == prefix + ['.'] + digits;
    var parts := Split(name, '.');
    assert parts == Split(prefix, '.') + [digits];
    assert parts[..|parts| - 1] == Split(prefix, '.');
    JoinSplit(prefix, '.');
    ParseIntToString(n);
    assert '.' in name by { assert name[|prefix|] == '.'; }
  }

  lemma ParsePrefixOrderNested()
    ensures OrderParsable("a.b.3") && ParsePrefixOrder("a.b.3") == ("a.b", 3)
  {
    ParsePrefixOrderRoundTrip("a.b", 3);
    assert IntToString(3) == "3";
    assert "a.b" + "." + "3" == "a.b.3";
  }

  lemma ParsePrefixOrderNotNumber()
    ensures OrderParsable("a.x") && ParsePrefixOrder("a.x") == ("a", 0)
  {
    SplitConcat("a", "x", '.');
    assert "a" + ['.'] + "x" == "a.x";
    SplitNone("a", '.');
    SplitNone("x", '.');
    assert Split("a.x", '.') == ["a", "x"];
    assert ParseInt("x") == Err(ValueError("x"));
    assert Join(["a"], ".") == "a";
  }

  /** Every label without a `.` is accepted, whatever its characters, and
      keeps the whole label with order 0. */
  lemma DotlessParsable(name: string)
    requires '.' !in name
    ensures OrderParsable(name) && ParsePrefixOrder(name) == (name, 0)
  {
  }

  lemma ParsePrefixOrderUnderscore()
    ensures OrderParsable("temp_sensor") && ParsePrefixOrder("temp_sensor") == ("temp_sensor", 0)
  {
    assert '.' !in "temp_sensor";
    DotlessParsable("temp_sensor");
  }

  lemma ParsePrefixOrderNoDot()
    ensures OrderParsable("abc") && ParsePrefixOrder("abc") == ("abc", 0)
  {
    SplitNone("abc", '.');
  }

  // ---------------------------------------------------------------------------
  // Category order

  type CategoryKey = (int, string, int)

  /** `(costs.get(s, 0), prefix, order)`. */
  function Key(costs: map<string, int>, s: string): CategoryKey
    requires OrderParsable(s)
  {
    var (prefix, order) := ParsePrefixOrder(s);
    (Lookup(costs, s), prefix, order)
  }

  /** Python's `<` on such tuples. */
  predicate KeyLess(a: CategoryKey, b: CategoryKey)
  {
    a.0 < b.0 || (a.0 == b.0 && (StrLess(a.1, b.1) || (a.1 == b.1 && a.2 < b.2)))
  }

  lemma KeyLessIrreflexive(a: CategoryKey)
    ensures !KeyLess(a, a)
  {
    StrLessIrreflexive(a.1);
  }

  lemma KeyLessTransitive(a: CategoryKey, b: CategoryKey, c: CategoryKey)
    requires KeyLess(a, b) && KeyLess(b, c)
    ensures KeyLess(a, c)
  {
    if a.0 == b.0 == c.0 && StrLess(a.1, b.1) && StrLess(b.1, c.1) {
      StrLessTransitive(a.1, b.1, c.1);
    }
  }

  predicate AllParsable(xs: seq<string>)
  {
    forall i :: 0 <= i < |xs| ==> OrderParsable(xs[i])
  }

  /** Non-decreasing by key. */
  predicate OrderedByKey(costs: map<string, int>, xs: seq<string>)
    requires AllParsable(xs)
  {
    forall i, j :: 0 <= i < j < |xs| ==> !KeyLess(Key(costs, xs[j]), Key(costs, xs[i]))
  }

  /** The elements of `xs` whose key is `k`, in order. */
  function WithKey(costs: map<string, int>, xs: seq<string>, k: CategoryKey): seq<string>
    requires AllParsable(xs)
  {
    if xs == [] then []
    else (if Key(costs, xs[0]) == k then [xs[0]] else []) + WithKey(costs, xs[1..], k)
  }

  /** The keys of the categories, computed once. */
  function KeyTable(costs: map<string, int>, xs: seq<string>): (keys: map<string, CategoryKey>)
    requires AllParsable(xs)
    ensures forall i :: 0 <= i < |xs| ==> xs[i] in keys && keys[xs[i]] == Key(costs, xs[i])
  {
    map s | s in xs :: Key(costs, s)
  }

  predicate InTable(keys: map<string, CategoryKey>, xs: seq<string>)
  {
    forall i :: 0 <= i < |xs| ==> xs[i] in keys
  }

  predicate Ordered(keys: map<string, CategoryKey>, xs: seq<string>)
    requires InTable(keys, xs)
  {
    forall i, j :: 0 <= i < j < |xs| ==> !KeyLess(keys[xs[j]], keys[xs[i]])
  }

  function Matching(keys: map<string, CategoryKey>, xs: seq<string>, k: CategoryKey): seq<string>
    requires InTable(keys, xs)
  {
    if xs == [] then []
    else (if keys[xs[0]] == k then [xs[0]] else []) + Matching(keys, xs[1..], k)
  }

  lemma {:induction false} MatchingAppend(keys: map<string, CategoryKey>, a: seq<string>, b: seq<string>, k: CategoryKey)
    requires InTable(keys, a) && InTable(keys, b)
    ensures InTable(keys, a + b)
    ensures Matching(keys, a + b, k) == Matching(keys, a, k) + Matching(keys, b, k)
  {
    assert InTable(keys, a + b) by {
      forall i | 0 <= i < |a + b| ensures (a + b)[i] in keys {
        if i >= |a| { assert (a + b)[i] == b[i - |a|]; }
      }
    }
    if a != [] {
      assert (a + b)[1..] == a[1..] + b;
      MatchingAppend(keys, a[1..], b, k);
    } else {
      assert a + b == b;
    }
  }

  /** Inserts `x` after every element whose key is not greater. */
  function Insert(keys: map<string, CategoryKey>, x: string, xs: seq<string>): (r: seq<string>)
    requires x in keys && InTable(keys, xs) && Ordered(keys, xs)
    ensures multiset(r) == multiset(xs) + multiset{x}
    ensures InTable(keys, r) && Ordered(keys, r)
    decreases |xs|
  {
    if xs == [] then [x]
    else if KeyLess(keys[x], keys[xs[0]]) then
      InsertFront(keys, x, xs);
      [x] + xs
    else
      var rest := Insert(keys, x, xs[1..]);
      assert xs == [xs[0]] + xs[1..];
      InsertBehind(keys, x, xs, rest);
      [xs[0]] + rest
  }

  lemma InsertFront(keys: map<string, CategoryKey>, x: string, xs: seq<string>)
    requires x in keys && InTable(keys, xs) && Ordered(keys, xs)
    requires xs != [] && KeyLess(keys[x], keys[xs[0]])
    ensures InTable(keys, [x] + xs) && Ordered(keys, [x] + xs)
  {
    var r := [x] + xs;
    assert InTable(keys, r) by {
      forall i | 0 <= i < |r| ensures r[i] in keys {
        if i > 0 { assert r[i] == xs[i - 1]; }
      }
    }
    forall j | 0 < j < |r| ensures !KeyLess(keys[r[j]], keys[x]) {
      assert r[j] == xs[j - 1];
      if KeyLess(keys[r[j]], keys[x]) {
        KeyLessTransitive(keys[r[j]], keys[x], keys[xs[0]]);
        if j == 1 {
          KeyLessIrreflexive(keys[xs[0]]);
        }
      }
    }
    forall i, j | 0 <= i < j < |r| ensures !KeyLess(keys[r[j]], keys[r[i]]) {
      if i > 0 { assert r[i] == xs[i - 1] && r[j] == xs[j - 1]; }
    }
  }

  lemma InsertBehind(keys: map<string, CategoryKey>, x: string, xs: seq<string>, rest: seq<string>)
    requires x in keys && InTable(keys, xs) && xs != [] && Ordered(keys, xs)
    requires !KeyLess(keys[x], keys[xs[0]])
    requires InTable(keys, rest) && Ordered(keys, rest)
    requires multiset(rest) == multiset(xs[1..]) + multiset{x}
    ensures InTable(keys, [xs[0]] + rest) && Ordered(keys, [xs[0]] + rest)
  {
    var r := [xs[0]] + rest;
    assert InTable(keys, r) by {
      forall i | 0 <= i < |r| ensures r[i] in keys {
        if i > 0 { assert r[i] == rest[i - 1]; }
      }
    }
    forall j | 0 < j < |r| ensures !KeyLess(keys[r[j]], keys[xs[0]]) {
      assert r[j] == rest[j - 1];
      assert r[j] in multiset(xs[1..]) + multiset{x};
      if r[j] != x {
        var m :| 0 <= m < |xs[1..]| && xs[1..][m] == r[j];
        assert xs[m + 1] == r[j];
      }
    }
    forall i, j | 0 <= i < j < |r| ensures !KeyLess(keys[r[j]], keys[r[i]]) {
      if i > 0 { assert r[i] == rest[i - 1] && r[j] == rest[j - 1]; }
    }
  }

  /** Insertion sort from the front of the list: each element goes after the
      earlier ones with an equal key. */
  function InsertionSort(keys: map<string, CategoryKey>, xs: seq<string>): (r: seq<string>)
    requires InTable(keys, xs)
    ensures multiset(r) == multiset(xs)
    ensures InTable(keys, r) && Ordered(keys, r)
    decreases |xs|
  {
    if xs == [] then []
    else
      var init := xs[..|xs| - 1];
      assert xs == init + [xs[|xs| - 1]];
      assert InTable(keys, init) by {
        forall i | 0 <= i < |init| ensures init[i] in keys { assert init[i] == xs[i]; }
      }
      Insert(keys, xs[|xs| - 1], InsertionSort(keys, init))
  }

  /** `Matching` of a list with a known head. */
  lemma MatchingCons(keys: map<string, CategoryKey>, y: string, ys: seq<string>, k: CategoryKey)
    requires y in keys && InTable(keys, ys)
    ensures InTable(keys, [y] + ys)
    ensures Matching(keys, [y] + ys, k) == (if keys[y] == k then [y] else []) + Matching(keys, ys, k)
  {
    var r := [y] + ys;
    assert r[1..] == ys;
    forall i | 0 <= i < |r| ensures r[i] in keys {
      if i > 0 { assert r[i] == ys[i - 1]; }
    }
  }

  lemma InTableTail(keys: map<string, CategoryKey>, xs: seq<string>)
    requires InTable(keys, xs) && xs != []
    ensures xs[0] in keys && InTable(keys, xs[1..]) && xs == [xs[0]] + xs[1..]
    ensures Ordered(keys, xs) ==> Ordered(keys, xs[1..])
  {
    forall i | 0 <= i < |xs[1..]| ensures xs[1..][i] in keys {
      assert xs[1..][i] == xs[i + 1];
    }
    if Ordered(keys, xs) {
      forall i, j | 0 <= i < j < |xs[1..]| ensures !KeyLess(keys[xs[1..][j]], keys[xs[1..][i]]) {
        assert xs[1..][i] == xs[i + 1] && xs[1..][j] == xs[j + 1];
      }
    }
  }

  /** `x` goes in front: it matches `k` only if nothing after it does. */
  lemma InsertMatchingFront(keys: map<string, CategoryKey>, x: string, xs: seq<string>, k: CategoryKey)
    requires x in keys && InTable(keys, xs) && Ordered(keys, xs)
    requires xs != [] && KeyLess(keys[x], keys[xs[0]])
    ensures Matching(keys, Insert(keys, x, xs), k) == Matching(keys, xs, k) + (if keys[x] == k then [x] else [])
  {
    MatchingCons(keys, x, xs, k);
    if keys[x] == k {
      NoneMatching(keys, xs, k);
    }
  }

  /** `x` goes behind the head: the head's match comes first either way. */
  lemma InsertMatchingBehind(keys: map<string, CategoryKey>, x: string, xs: seq<string>, k: CategoryKey)
    requires x in keys && InTable(keys, xs) && Ordered(keys, xs)
    requires xs != [] && !KeyLess(keys[x], keys[xs[0]])
    requires InTable(keys, xs[1..]) && Ordered(keys, xs[1..])
    requires Matching(keys, Insert(keys, x, xs[1..]), k) == Matching(keys, xs[1..], k) + (if keys[x] == k then [x] else [])
    ensures Matching(keys, Insert(keys, x, xs), k) == Matching(keys, xs, k) + (if keys[x] == k then [x] else [])
  {
    var rest := Insert(keys, x, xs[1..]);
    var own: seq<string> := if keys[x] == k then [x] else [];
    var head: seq<string> := if keys[xs[0]] == k then [xs[0]] else [];
    var tail := Matching(keys, xs[1..], k);
    assert Insert(keys, x, xs) == [xs[0]] + rest;
    assert xs == [xs[0]] + xs[1..];
    MatchingCons(keys, xs[0], rest, k);
    MatchingCons(keys, xs[0], xs[1..], k);
    Associative(head, tail, own);
  }

  lemma Associative<T>(a: seq<T>, b: seq<T>, c: seq<T>)
    ensures a + (b + c) == (a + b) + c
  {
  }

  lemma {:induction false} InsertMatching(keys: map<string, CategoryKey>, x: string, xs: seq<string>, k: CategoryKey)
    requires x in keys && InTable(keys, xs) && Ordered(keys, xs)
    ensures Matching(keys, Insert(keys, x, xs), k) == Matching(keys, xs, k) + (if keys[x] == k then [x] else [])
    decreases |xs|
  {
    if xs == [] {
      assert Insert(keys, x, xs) == [x] && [x][1..] == [];
    } else if KeyLess(keys[x], keys[xs[0]]) {
      InsertMatchingFront(keys, x, xs, k);
    } else {
      InTableTail(keys, xs);
      InsertMatching(keys, x, xs[1..], k);
      InsertMatchingBehind(keys, x, xs, k);
    }
  }

  /** In an ordered list whose head is above `k`, no element has key `k`. */
  lemma NoneMatching(keys: map<string, CategoryKey>, xs: seq<string>, k: CategoryKey)
    requires InTable(keys, xs) && Ordered(keys, xs) && xs != [] && KeyLess(k, keys[xs[0]])
    ensures Matching(keys, xs, k) == []
  {
    forall i | 0 <= i < |xs| ensures keys[xs[i]] != k {
      var ki := keys[xs[i]];
      if i == 0 {
        KeyLessIrreflexive(k);
      } else {
        assert !KeyLess(ki, keys[xs[0]]);
        if ki == k {
          assert false;
        }
      }
    }
    NoneMatchingAt(keys, xs, k);
  }

  lemma {:induction false} NoneMatchingAt(keys: map<string, CategoryKey>, xs: seq<string>, k: CategoryKey)
    requires InTable(keys, xs)
    requires forall i :: 0 <= i < |xs| ==> keys[xs[i]] != k
    ensures Matching(keys, xs, k) == []
  {
    if xs != [] {
      assert forall i :: 0 <= i < |xs[1..]| ==> xs[1..][i] == xs[i + 1];
      NoneMatchingAt(keys, xs[1..], k);
    }
  }

  lemma InTableInit(keys: map<string, CategoryKey>, xs: seq<string>)
    requires InTable(keys, xs) && xs != []
    ensures InTable(keys, xs[..|xs| - 1]) && xs[|xs| - 1] in keys
    ensures InTable(keys, [xs[|xs| - 1]])
    ensures xs == xs[..|xs| - 1] + [xs[|xs| - 1]]
  {
    var init := xs[..|xs| - 1];
    forall i | 0 <= i < |init| ensures init[i] in keys { assert init[i] == xs[i]; }
  }

  lemma MatchingSingle(keys: map<string, CategoryKey>, x: string, k: CategoryKey)
    requires x in keys
    ensures InTable(keys, [x])
    ensures Matching(keys, [x], k) == if keys[x] == k then [x] else []
  {
    assert [x][1..] == [];
  }

  lemma {:induction false} InsertionSortStable(keys: map<string, CategoryKey>, xs: seq<string>, k: CategoryKey)
    requires InTable(keys, xs)
    ensures Matching(keys, InsertionSort(keys, xs), k) == Matching(keys, xs, k)
    decreases |xs|
  {
    if xs != [] {
      var init := xs[..|xs| - 1];
      var last := xs[|xs| - 1];
      InTableInit(keys, xs);
      var sortedInit := InsertionSort(keys, init);
      assert InsertionSort(keys, xs) == Insert(keys, last, sortedInit);
      InsertionSortStable(keys, init, k);
      InsertMatching(keys, last, sortedInit, k);
      MatchingAppend(keys, init, [last], k);
      MatchingSingle(keys, last, k);
    }
  }

  /** `sort_categories`: Python's `sorted` with the key above. */
  function SortCategories(categories: seq<string>, costs: map<string, int>): (r: seq<string>)
    requires AllParsable(categories)
    ensures multiset(r) == multiset(categories)
  {
    var keys := KeyTable(costs, categories);
    InsertionSort(keys, categories)
  }

  /** The result is ordered by key. */
  lemma SortCategoriesOrdered(categories: seq<string>, costs: map<string, int>)
    requires AllParsable(categories)
    ensures AllParsable(SortCategories(categories, costs))
    ensures OrderedByKey(costs, SortCategories(categories, costs))
  {
    var keys := KeyTable(costs, categories);
    var r := SortCategories(categories, costs);
    forall i | 0 <= i < |r| ensures OrderParsable(r[i]) && keys[r[i]] == Key(costs, r[i]) {
      assert r[i] in multiset(categories);
      var m :| 0 <= m < |categories| && categories[m] == r[i];
    }
  }

  /** Matching against the table is matching against the key. */
  lemma {:induction false} MatchingIsWithKey(costs: map<string, int>, keys: map<string, CategoryKey>, xs: seq<string>, k: CategoryKey)
    requires AllParsable(xs) && InTable(keys, xs)
    requires forall i :: 0 <= i < |xs| ==> keys[xs[i]] == Key(costs, xs[i])
    ensures Matching(keys, xs, k) == WithKey(costs, xs, k)
  {
    if xs != [] {
      assert forall i :: 0 <= i < |xs[1..]| ==> xs[1..][i] == xs[i + 1];
      MatchingIsWithKey(costs, keys, xs[1..], k);
    }
  }

  /** The sort is stable: the categories sharing a key keep their input order. */
  lemma SortCategoriesStable(categories: seq<string>, costs: map<string, int>, k: CategoryKey)
    requires AllParsable(categories)
    ensures AllParsable(SortCategories(categories, costs))
    ensures WithKey(costs, SortCategories(categories, costs), k) == WithKey(costs, categories, k)
  {
    var keys := KeyTable(costs, categories);
    var r := SortCategories(categories, costs);
    SortCategoriesOrdered(categories, costs);
    forall i | 0 <= i < |r| ensures keys[r[i]] == Key(costs, r[i]) {
      assert r[i] in multiset(categories);
      var m :| 0 <= m < |categories| && categories[m] == r[i];
    }
    InsertionSortStable(keys, categories, k);
    MatchingIsWithKey(costs, keys, categories, k);
    MatchingIsWithKey(costs, keys, r, k);
  }

  // ---------------------------------------------------------------------------
  // The cost summary of a raw plan

  /** A plan document: the tests, and the two costs when it carries them. */
  datatype PlanDoc = PlanDoc(tests: seq<ReportTest>, reconfigurationCost: Option<int>, observationCost: Option<int>)

  /** Sum over the tests of the observation cost of each quantity key. */
  ghost function ObservationTotal(observationsCost: map<string, int>, tests: seq<ReportTest>): int
  {
    if tests == [] then 0
    else SetCost(observationsCost, tests[0].quantities.Keys) + ObservationTotal(observationsCost, tests[1..])
  }

  lemma PathCostStep(costs: map<string, int>, from: set<string>, sets: seq<set<string>>, i: nat)
    requires i < |sets|
    ensures PathCost(costs, from, sets[i..] + [{}]) ==
            TransitionCost(costs, from, sets[i]) + PathCost(costs, sets[i], sets[i + 1..] + [{}])
  {
    var rest := sets[i..] + [{}];
    assert rest[0] == sets[i];
    assert rest[1..] == sets[i + 1..] + [{}];
  }

  /** Going back to nothing from `from` costs `from`. */
  lemma PathCostClosing(costs: map<string, int>, from: set<string>)
    ensures PathCost(costs, from, [{}]) == SetCost(costs, from)
  {
    var closing: seq<set<string>> := [{}];
    assert closing[1..] == [];
    assert {} - from == {} && from - {} == from;
  }

  /** The observation cost of one test: the sum over its quantity keys. */
  method QuantityCost(observationsCost: map<string, int>, quantities: map<string, seq<string>>) returns (total: int)
    ensures total == SetCost(observationsCost, quantities.Keys)
  {
    var keys := SetToList(quantities.Keys);
    total := 0;
    for j := 0 to |keys|
      invariant total == ListCost(observationsCost, keys[..j])
    {
      ListCostAppend(observationsCost, keys[..j], [keys[j]]);
      assert keys[..j + 1] == keys[..j] + [keys[j]];
      assert [keys[j]][1..] == [];
      total := total + Lookup(observationsCost, keys[j]);
    }
    assert keys[..|keys|] == keys;
    ListCostOfDistinct(observationsCost, keys);
  }

  /** The observation loop of `plan_like_from_tests_raw`. */
  method ObservationSum(tests: seq<ReportTest>, observationsCost: map<string, int>) returns (obsCost: int)
    ensures obsCost == ObservationTotal(observationsCost, tests)
  {
    obsCost := 0;
    for i := 0 to |tests|
      invariant obsCost + ObservationTotal(observationsCost, tests[i..]) == ObservationTotal(observationsCost, tests)
    {
      assert tests[i..][1..] == tests[i + 1..];
      var qsCost := QuantityCost(observationsCost, tests[i].quantities);
      obsCost := obsCost + qsCost;
    }
  }

  /** The reconfiguration loop of `plan_like_from_tests_raw`, with the closing
      edge back to nothing. */
  method ReconfigurationSum(tests: seq<ReportTest>, scenariosCost: map<string, int>) returns (reconfigCost: int)
    ensures reconfigCost == CycleCost(scenariosCost, ScenarioSetsOf(tests))
  {
    ghost var sets := ScenarioSetsOf(tests);
    reconfigCost := 0;
    var prev: set<string> := {};
    assert sets[0..] == sets;
    for i := 0 to |tests|
      invariant prev == if i == 0 then {} else sets[i - 1]
      invariant reconfigCost + PathCost(scenariosCost, prev, sets[i..] + [{}]) == CycleCost(scenariosCost, sets)
    {
      var curr := ToSet(tests[i].scenarios);
      var changes := (prev - curr) + (curr - prev);
      var changeCost := SumSetCost(scenariosCost, changes);
      TransitionIsSymmetricDifference(scenariosCost, prev, curr);
      PathCostStep(scenariosCost, prev, sets, i);
      reconfigCost := reconfigCost + changeCost;
      prev := curr;
    }
    PathCostClosing(scenariosCost, prev);
    if |tests| > 0 {
      var closingCost := SumSetCost(scenariosCost, prev);
      reconfigCost := reconfigCost + closingCost;
    } else {
      assert SetCost(scenariosCost, prev) == 0;
    }
  }

  /** `plan_like_from_tests_raw`: the tests unchanged, the reconfiguration
      cost of the cycle nothing → t1 → … → tN → nothing, and the observation
      cost of every test's quantities. */
  method PlanLikeFromTestsRaw(tests: seq<ReportTest>, scenariosCost: map<string, int>, observationsCost: map<string, int>)
    returns (plan: PlanDoc)
    ensures plan.tests == tests
    ensures plan.reconfigurationCost == Some(CycleCost(scenariosCost, ScenarioSetsOf(tests)))
    ensures plan.observationCost == Some(ObservationTotal(observationsCost, tests))
  {
    var obsCost := ObservationSum(tests, observationsCost);
    var reconfigCost := ReconfigurationSum(tests, scenariosCost);
    plan := PlanDoc(tests, Some(reconfigCost), Some(obsCost));
  }

  /** No tests, no reconfiguration. */
  lemma CycleCostEmpty(costs: map<string, int>)
    ensures CycleCost(costs, []) == 0
  {
    PathCostClosing(costs, {});
    var none: seq<set<string>> := [];
    assert none + [{}] == [{}];
  }

  /** With non-negative costs both summaries are non-negative. */
  lemma {:induction false} ObservationTotalNonNegative(observationsCost: map<string, int>, tests: seq<ReportTest>)
    requires NonNegative(observationsCost)
    ensures ObservationTotal(observationsCost, tests) >= 0
  {
    if tests != [] {
      SetCostNonNegative(observationsCost, tests[0].quantities.Keys);
      ObservationTotalNonNegative(observationsCost, tests[1..]);
    }
  }

  // ---------------------------------------------------------------------------
  // The marker line

  const TenMarker := ".........|"

  /** `marker_line(n)`: a ten-character marker per full ten, dots for the rest. */
  function MarkerLine(n: nat): (r: string)
    ensures |r| == n + 14
  {
    var rem := n % 10;
    var tens := (n - rem) / 10;
    Tens(n);
    "      " + Repeat(TenMarker, tens) + Repeat(".", rem) + " changes"
  }

  lemma BarFree(s: string)
    requires '|' !in s
    ensures CountChar(s, '|') == 0
  {
    CountCharIn(s, '|');
  }

  /** The ten-marker holds one bar. */
  lemma TenMarkerBar()
    ensures CountChar(TenMarker, '|') == 1
  {
    TenMarkerSplit();
    BarFree(".........");
    SingleBar();
    CountCharConcat(".........", "|", '|');
  }

  lemma TenMarkerSplit()
    ensures TenMarker == "........." + "|"
  {
  }

  lemma SingleBar()
    ensures CountChar("|", '|') == 1
  {
    assert "|"[1..] == "";
  }

  /** The number of full tens, as `(length - rem) // 10` computes it. */
  lemma Tens(n: nat)
    ensures (n - n % 10) / 10 == n / 10
  {
    assert n - n % 10 == 10 * (n / 10);
  }

  /** One `|` per full ten. */
  lemma MarkerLineBars(n: nat)
    ensures CountChar(MarkerLine(n), '|') == n / 10
  {
    var rem := n % 10;
    Tens(n);
    var tens := n / 10;
    var a, b, c, d := "      ", Repeat(TenMarker, tens), Repeat(".", rem), " changes";
    assert MarkerLine(n) == a + b + c + d;
    BarFree(a);
    BarFree(".");
    BarFree(d);
    TenMarkerBar();
    RepeatCount(TenMarker, tens, '|');
    assert CountChar(b, '|') == tens;
    RepeatCount(".", rem, '|');
    assert CountChar(c, '|') == 0;
    CountCharConcat(a, b, '|');
    CountCharConcat(a + b, c, '|');
    CountCharConcat(a + b + c, d, '|');
  }

  // ---------------------------------------------------------------------------
  // Chart rows

  /** The glyph written for a present category: the three characters the
      file holds (a mis-decoded "■"). */
  const PresentCell := "\U{00E2}\U{2013}\U{00A0}"
  const AbsentCell := " "

  /** `set(t["quantities"].keys())` in observation mode, else `set(t["scenarios"])`. */
  function Categories(t: ReportTest, mode: string): set<string>
  {
    if mode == "observations" then t.quantities.Keys else ToSet(t.scenarios)
  }

  /** The union of the categories of all tests. */
  function CategorySet(tests: seq<ReportTest>, mode: string): set<string>
  {
    if tests == [] then {} else CategorySet(tests[..|tests| - 1], mode) + Categories(tests[|tests| - 1], mode)
  }

  lemma {:induction false} CategorySetMembers(tests: seq<ReportTest>, mode: string, c: string)
    ensures c in CategorySet(tests, mode) <==> exists i :: 0 <= i < |tests| && c in Categories(tests[i], mode)
  {
    if tests != [] {
      var init := tests[..|tests| - 1];
      CategorySetMembers(init, mode, c);
      if c in Categories(tests[|tests| - 1], mode) {
        assert 0 <= |tests| - 1 < |tests|;
      }
      if exists i :: 0 <= i < |tests| && c in Categories(tests[i], mode) {
        var i :| 0 <= i < |tests| && c in Categories(tests[i], mode);
        if i < |tests| - 1 { assert tests[i] == init[i]; }
      }
      assert forall i :: 0 <= i < |init| ==> init[i] == tests[i];
    }
  }

  /** Whether `cat` is present in each test. */
  function Presence(cat: string, tests: seq<ReportTest>, mode: string): (p: seq<bool>)
    ensures |p| == |tests|
    ensures forall i :: 0 <= i < |tests| ==> p[i] == (cat in Categories(tests[i], mode))
  {
    seq(|tests|, i requires 0 <= i < |tests| => cat in Categories(tests[i], mode))
  }

  function Cells(p: seq<bool>): (r: seq<string>)
    ensures |r| == |p|
    ensures forall i :: 0 <= i < |p| ==> r[i] == if p[i] then PresentCell else AbsentCell
  {
    seq(|p|, i requires 0 <= i < |p| => if p[i] then PresentCell else AbsentCell)
  }

  /** The number of times presence flips along `p`, starting from `last`
      and ending absent. */
  function Toggles(last: bool, p: seq<bool>): nat
    decreases |p|
  {
    if p == [] then (if last then 1 else 0)
    else (if p[0] != last then 1 else 0) + Toggles(p[0], p[1..])
  }

  /** The number of maximal runs of presence in `p`, after `last`. */
  function Runs(last: bool, p: seq<bool>): nat
    decreases |p|
  {
    if p == [] then 0
    else (if p[0] && !last then 1 else 0) + Runs(p[0], p[1..])
  }

  /** Every run is entered once and left once. */
  lemma {:induction false} TogglesAreTwiceRuns(last: bool, p: seq<bool>)
    ensures Toggles(last, p) == 2 * Runs(last, p) + (if last then 1 else 0)
    decreases |p|
  {
    if p != [] {
      TogglesAreTwiceRuns(p[0], p[1..]);
    }
  }

  /** Peeling one test off the change count. */
  lemma TogglesStep(last: bool, p: seq<bool>, i: nat)
    requires i < |p|
    ensures Toggles(last, p[i..]) == (if p[i] != last then 1 else 0) + Toggles(p[i], p[i + 1..])
  {
    assert p[i..][1..] == p[i + 1..];
  }

  /** The row of one category: its label right-aligned to five, the cells,
      and the number of changes right-aligned to four. */
  function RowLine(cat: string, tests: seq<ReportTest>, mode: string): string
  {
    var p := Presence(cat, tests, mode);
    PadLeft(cat, 5) + " " + Join(Cells(p), "") + "    " + PadLeft(IntToString(Toggles(false, p)), 4)
  }

  /** What the presence scan keeps after `i` tests: `lastIn` is the presence
      in the previous test, the changes so far plus the flips still ahead
      make the total, and the cells so far are those of the prefix. */
  ghost predicate ScanInv(p: seq<bool>, i: nat, lastIn: bool, changes: int, cells: seq<string>)
  {
    i <= |p| &&
    lastIn == (i > 0 && p[i - 1]) &&
    changes + Toggles(lastIn, p[i..]) == Toggles(false, p) &&
    cells == Cells(p[..i])
  }

  lemma ScanStep(p: seq<bool>, i: nat, lastIn: bool, changes: int, cells: seq<string>)
    requires ScanInv(p, i, lastIn, changes, cells) && i < |p|
    ensures ScanInv(p, i + 1, p[i], changes + (if p[i] != lastIn then 1 else 0),
                    cells + [if p[i] then PresentCell else AbsentCell])
  {
    TogglesStep(lastIn, p, i);
    assert p[..i + 1][..i] == p[..i];
  }

  /** The loop over the tests of one row: the presence flips and the cells. */
  method ScanPresence(cat: string, tests: seq<ReportTest>, mode: string) returns (changes: int, cells: seq<string>)
    ensures changes == Toggles(false, Presence(cat, tests, mode))
    ensures cells == Cells(Presence(cat, tests, mode))
  {
    ghost var p := Presence(cat, tests, mode);
    var lastIn := false;
    changes := 0;
    cells := [];
    assert p[0..] == p;
    for i := 0 to |tests|
      invariant ScanInv(p, i, lastIn, changes, cells)
    {
      ScanStep(p, i, lastIn, changes, cells);
      var tCats := Categories(tests[i], mode);
      var nowIn := cat in tCats;
      cells := cells + [if nowIn then PresentCell else AbsentCell];
      if nowIn != lastIn {
        lastIn := nowIn;
        changes := changes + 1;
      }
    }
    assert p[..|p|] == p && p[|p|..] == [];
    if lastIn {
      changes := changes + 1;
    }
  }

  /** One row of `build_rows_for_plan`. */
  method BuildRow(cat: string, tests: seq<ReportTest>, mode: string) returns (line: string, changes: int, cells: seq<string>)
    ensures changes == 2 * Runs(false, Presence(cat, tests, mode))
    ensures cells == Cells(Presence(cat, tests, mode)) && |cells| == |tests|
    ensures line == RowLine(cat, tests, mode)
  {
    var name := PadLeft(cat, 5) + " ";
    changes, cells := ScanPresence(cat, tests, mode);
    TogglesAreTwiceRuns(false, Presence(cat, tests, mode));
    line := name + Join(cells, "") + "    " + PadLeft(IntToString(changes), 4);
  }

  function OrZero(o: Option<int>): int
  {
    match o case Some(n) => n case None => 0
  }

  /** The three header lines. */
  function Header(plan: PlanDoc): seq<string>
  {
    ["reconfiguration cost: " + IntToString(OrZero(plan.reconfigurationCost)),
     "observation cost: " + IntToString(OrZero(plan.observationCost)),
     MarkerLine(|plan.tests|)]
  }

  /** The rows of `categories`, in order. */
  function RowLines(categories: seq<string>, tests: seq<ReportTest>, mode: string): (r: seq<string>)
    ensures |r| == |categories|
  {
    if categories == [] then []
    else RowLines(categories[..|categories| - 1], tests, mode) + [RowLine(categories[|categories| - 1], tests, mode)]
  }

  predicate CategoriesParsable(tests: seq<ReportTest>, mode: string)
  {
    forall i, c :: 0 <= i < |tests| && c in Categories(tests[i], mode) ==> OrderParsable(c)
  }

  /** The loop gathering every test's categories. */
  method CollectCategories(tests: seq<ReportTest>, mode: string) returns (categoriesSet: set<string>)
    ensures categoriesSet == CategorySet(tests, mode)
  {
    categoriesSet := {};
    for i := 0 to |tests|
      invariant categoriesSet == CategorySet(tests[..i], mode)
    {
      assert tests[..i + 1][..i] == tests[..i];
      categoriesSet := categoriesSet + Categories(tests[i], mode);
    }
    assert tests[..|tests|] == tests;
  }

  method RowFor(cat: string, tests: seq<ReportTest>, mode: string) returns (line: string)
    ensures line == RowLine(cat, tests, mode)
  {
    var changes, cells;
    line, changes, cells := BuildRow(cat, tests, mode);
  }

  lemma RowLinesStep(categories: seq<string>, k: nat, tests: seq<ReportTest>, mode: string)
    requires k < |categories|
    ensures RowLines(categories[..k + 1], tests, mode) == RowLines(categories[..k], tests, mode) + [RowLine(categories[k], tests, mode)]
  {
    assert categories[..k + 1][..k] == categories[..k];
  }

  /** The loop appending one row per category after `header`. */
  method BuildLines(header: seq<string>, categories: seq<string>, tests: seq<ReportTest>, mode: string)
    returns (lines: seq<string>)
    ensures lines == header + RowLines(categories, tests, mode)
  {
    var rows: seq<string> := [];
    for k := 0 to |categories|
      invariant rows == RowLines(categories[..k], tests, mode)
    {
      var line := RowFor(categories[k], tests, mode);
      RowLinesStep(categories, k, tests, mode);
      rows := rows + [line];
    }
    assert categories[..|categories|] == categories;
    lines := header + rows;
  }

  /** `build_rows_for_plan`: the header, then one row per category, every
      category once, ordered by (cost, prefix, order). Categories with equal
      keys come in the order Python's set iteration gives, which is not
      specified. */
  method BuildRowsForPlan(plan: PlanDoc, costs: map<string, int>, mode: string)
    returns (text: string, categories: seq<string>)
    requires CategoriesParsable(plan.tests, mode)
    ensures NoDup(categories) && ToSet(categories) == CategorySet(plan.tests, mode)
    ensures AllParsable(categories) && OrderedByKey(costs, categories)
    ensures text == Join(Header(plan) + RowLines(categories, plan.tests, mode), "\n")
  {
    var tests := plan.tests;
    var categoriesSet := CollectCategories(tests, mode);
    var listed := SetToList(categoriesSet);
    assert AllParsable(listed) by {
      forall k | 0 <= k < |listed| ensures OrderParsable(listed[k]) {
        assert listed[k] in categoriesSet;
        CategorySetMembers(tests, mode, listed[k]);
      }
    }
    categories := SortCategories(listed, costs);
    SortCategoriesOrdered(listed, costs);
    SameMultiset(listed, categories);
    var lines := BuildLines(Header(plan), categories, tests, mode);
    text := Join(lines, "\n");
  }

  /** A reordering of a duplicate-free list is duplicate-free, with the same set. */
  lemma SameMultiset(xs: seq<string>, ys: seq<string>)
    requires NoDup(xs) && multiset(ys) == multiset(xs)
    ensures NoDup(ys) && ToSet(ys) == ToSet(xs)
  {
    forall i, j | 0 <= i < j < |ys| ensures ys[i] != ys[j] {
      if ys[i] == ys[j] {
        assert multiset(ys)[ys[i]] >= 2 by {
          assert ys == ys[..i] + [ys[i]] + ys[i + 1..];
          assert ys[i + 1..] == ys[i + 1..j] + [ys[j]] + ys[j + 1..];
        }
        NoDupCount(xs, ys[i]);
      }
    }
    forall x ensures x in ToSet(ys) <==> x in ToSet(xs) {
      assert x in ys <==> x in multiset(ys);
      assert x in xs <==> x in multiset(xs);
    }
  }

  lemma {:induction false} NoDupCount(xs: seq<string>, x: string)
    requires NoDup(xs)
    ensures multiset(xs)[x] <= 1
  {
    if xs != [] {
      assert xs == [xs[0]] + xs[1..];
      assert NoDup(xs[1..]) by {
        forall i, j | 0 <= i < j < |xs[1..]| ensures xs[1..][i] != xs[1..][j] {
          assert xs[1..][i] == xs[i + 1] && xs[1..][j] == xs[j + 1];
        }
      }
      NoDupCount(xs[1..], x);
      if xs[0] == x {
        assert x !in xs[1..];
      }
    }
  }

  // ---------------------------------------------------------------------------
  // HTML escaping

  /** `html_escape`: `&` first, then `<`, then `>`. */
  function HtmlEscape(s: string): string
  {
    ReplaceChar(ReplaceChar(ReplaceChar(s, '&', "&amp;"), '<', "&lt;"), '>', "&gt;")
  }

  function EscapeChar(c: char): string
  {
    if c == '&' then "&amp;" else if c == '<' then "&lt;" else if c == '>' then "&gt;" else [c]
  }

  /** Each character escaped on its own. */
  function EscapeEach(s: string): string
  {
    if s == [] then "" else EscapeChar(s[0]) + EscapeEach(s[1..])
  }

  lemma ReplaceOne(c: char, x: char, r: string)
    ensures ReplaceChar([c], x, r) == if c == x then r else [c]
  {
    assert [c][1..] == [];
  }

  lemma EscapeOne(c: char)
    ensures HtmlEscape([c]) == EscapeChar(c)
  {
    ReplaceOne(c, '&', "&amp;");
    if c == '&' {
      EscapeOfAmp();
    } else {
      ReplaceOne(c, '<', "&lt;");
      if c == '<' {
        ReplaceCharAbsent("&lt;", '>', "&gt;");
      } else {
        ReplaceOne(c, '>', "&gt;");
      }
    }
  }

  lemma EscapeOfAmp()
    ensures ReplaceChar(ReplaceChar("&amp;", '<', "&lt;"), '>', "&gt;") == "&amp;"
  {
    AmpHasNo('<', "&lt;");
    AmpHasNo('>', "&gt;");
  }

  lemma AmpHasNo(x: char, r: string)
    requires x == '<' || x == '>'
    ensures ReplaceChar("&amp;", x, r) == "&amp;"
  {
    assert x !in "&amp;";
    ReplaceCharAbsent("&amp;", x, r);
  }

  /** Replacing `&` first means every character is escaped independently. */
  lemma {:induction false} HtmlEscapeEach(s: string)
    ensures HtmlEscape(s) == EscapeEach(s)
  {
    if s != [] {
      var rest := s[1..];
      assert s == [s[0]] + rest;
      ReplaceCharConcat([s[0]], rest, '&', "&amp;");
      var a, b := ReplaceChar([s[0]], '&', "&amp;"), ReplaceChar(rest, '&', "&amp;");
      ReplaceCharConcat(a, b, '<', "&lt;");
      var a2, b2 := ReplaceChar(a, '<', "&lt;"), ReplaceChar(b, '<', "&lt;");
      ReplaceCharConcat(a2, b2, '>', "&gt;");
      EscapeOne(s[0]);
      HtmlEscapeEach(rest);
    }
  }

  lemma {:induction false} EscapeEachSafe(s: string)
    ensures '<' !in EscapeEach(s) && '>' !in EscapeEach(s)
  {
    if s != [] {
      EscapeEachSafe(s[1..]);
    }
  }

  /** The escaped text has no `<` or `>`. */
  lemma HtmlEscapeSafe(s: string)
    ensures '<' !in HtmlEscape(s) && '>' !in HtmlEscape(s)
  {
    HtmlEscapeEach(s);
    EscapeEachSafe(s);
  }

  /** Decoding the three entities back. */
  function Unescape(t: string): string
    decreases |t|
  {
    if |t| >= 5 && t[..5] == "&amp;" then "&" + Unescape(t[5..])
    else if |t| >= 4 && t[..4] == "&lt;" then "<" + Unescape(t[4..])
    else if |t| >= 4 && t[..4] == "&gt;" then ">" + Unescape(t[4..])
    else if t == [] then ""
    else [t[0]] + Unescape(t[1..])
  }

  lemma UnescapeAmp(rest: string)
    ensures Unescape("&amp;" + rest) == "&" + Unescape(rest)
  {
    var t := "&amp;" + rest;
    assert t[..5] == "&amp;" && t[5..] == rest;
  }

  lemma UnescapeLt(rest: string)
    ensures Unescape("&lt;" + rest) == "<" + Unescape(rest)
  {
    var t := "&lt;" + rest;
    assert t[..4] == "&lt;" && t[4..] == rest;
    assert |t| >= 5 ==> t[..5][1] == 'l';
  }

  lemma UnescapeGt(rest: string)
    ensures Unescape("&gt;" + rest) == ">" + Unescape(rest)
  {
    var t := "&gt;" + rest;
    assert t[..4] == "&gt;" && t[4..] == rest;
    assert |t| >= 5 ==> t[..5][1] == 'g';
    assert t[..4][1] == 'g';
  }

  /** A character that starts no entity is copied. */
  lemma UnescapePlain(c: char, rest: string)
    requires c != '&'
    ensures Unescape([c] + rest) == [c] + Unescape(rest)
  {
    var t := [c] + rest;
    assert |t| >= 5 ==> t[..5][0] == c;
    assert |t| >= 4 ==> t[..4][0] == c;
    assert t[0] == c && t[1..] == rest;
  }

  lemma UnescapeStep(c: char, rest: string)
    ensures Unescape(EscapeChar(c) + rest) == [c] + Unescape(rest)
  {
    if c == '&' {
      UnescapeAmp(rest);
    } else if c == '<' {
      UnescapeLt(rest);
    } else if c == '>' {
      UnescapeGt(rest);
    } else {
      UnescapePlain(c, rest);
    }
  }

  /** Escaping loses nothing: every `&` became `&amp;`, so decoding restores the text. */
  lemma {:induction false} UnescapeHtmlEscape(s: string)
    ensures Unescape(HtmlEscape(s)) == s
  {
    HtmlEscapeEach(s);
    EscapeEachRoundTrip(s);
  }

  lemma {:induction false} EscapeEachRoundTrip(s: string)
    ensures Unescape(EscapeEach(s)) == s
  {
    if s != [] {
      UnescapeStep(s[0], EscapeEach(s[1..]));
      EscapeEachRoundTrip(s[1..]);
      assert s == [s[0]] + s[1..];
    }
  }
}
