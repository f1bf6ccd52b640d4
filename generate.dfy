/** Test generation: requirement bindings are parsed, grouped by their exact
    scenario set, every set inherits the obligations of all its subsets, and
    each resulting set becomes one numbered test configuration. */
module GenerateTests {
  import opened Wrappers
  import opened Collections
  import opened Text
  import opened Plan

  // ---------------------------------------------------------------------------
  // Parsing the bindings

  /** The three `value` strings of one SPARQL result binding. */
  datatype Binding = Binding(id: string, scenarios: string, quantity: string)

  datatype Requirement = Requirement(id: int, scenarios: seq<int>, quantity: int)

  predicate PlainBinding(b: Binding)
  {
    Plain(b.id) && Plain(b.scenarios) && Plain(b.quantity)
  }

  /** `list(map(int, parts))`: the first piece `int()` rejects raises. */
  function ParseInts(parts: seq<string>): (r: Result<seq<int>>)
    requires forall i :: 0 <= i < |parts| ==> Plain(parts[i])
    ensures r.Ok? <==> forall i :: 0 <= i < |parts| ==> ParseInt(parts[i]).Ok?
    ensures r.Ok? ==> |r.value| == |parts|
    ensures r.Ok? ==> forall i :: 0 <= i < |parts| ==> ParseInt(parts[i]) == Ok(r.value[i])
    ensures r.Err? ==> exists i :: 0 <= i < |parts| && ParseInt(parts[i]) == Err(r.error) &&
                                   forall k :: 0 <= k < i ==> ParseInt(parts[k]).Ok?
  {
    if parts == [] then Ok([])
    else
      var head := ParseInt(parts[0]);
      if head.Err? then Err(head.error)
      else
        var tail := ParseInts(parts[1..]);
        if tail.Err? then
          assert forall i :: 0 < i < |parts| ==> parts[i] == parts[1..][i - 1];
          Err(tail.error)
        else
          Ok([head.value] + tail.value)
  }

  /** `list(map(int, s.split(",")))`. */
  function ParseScenarios(s: string): Result<seq<int>>
    requires Plain(s)
  {
    SplitPlain(s, ',');
    ParseInts(Split(s, ','))
  }

  /** The three fields are converted in the order id, scenarios, quantity. */
  function ParseBinding(b: Binding): Result<Requirement>
    requires PlainBinding(b)
  {
    var id := ParseInt(b.id);
    if id.Err? then Err(id.error)
    else
      var scenarios := ParseScenarios(b.scenarios);
      if scenarios.Err? then Err(scenarios.error)
      else
        var quantity := ParseInt(b.quantity);
        if quantity.Err? then Err(quantity.error)
        else Ok(Requirement(id.value, scenarios.value, quantity.value))
  }

  function IntStrings(xs: seq<int>): (r: seq<string>)
    ensures |r| == |xs|
    ensures forall i :: 0 <= i < |xs| ==> r[i] == IntToString(xs[i])
  {
    seq(|xs|, i requires 0 <= i < |xs| => IntToString(xs[i]))
  }

  /** How a requirement is written in a binding: `"3,19"` for the scenarios. */
  function Render(r: Requirement): (b: Binding)
    ensures PlainBinding(b)
  {
    JoinPlain(IntStrings(r.scenarios), ",");
    Binding(IntToString(r.id), Join(IntStrings(r.scenarios), ","), IntToString(r.quantity))
  }

  /** Comma-joined integers parse back to the same list. */
  lemma ParseScenariosJoin(xs: seq<int>)
    requires |xs| >= 1
    ensures Plain(Join(IntStrings(xs), ","))
    ensures ParseScenarios(Join(IntStrings(xs), ",")) == Ok(xs)
  {
    var parts := IntStrings(xs);
    JoinPlain(parts, ",");
    forall p | p in parts ensures ',' !in p {
      var i :| 0 <= i < |parts| && parts[i] == p;
      IntToStringChars(xs[i], ',');
    }
    SplitJoin(parts, ',');
    assert Split(Join(parts, ","), ',') == parts;
    forall i | 0 <= i < |xs| ensures ParseInt(parts[i]) == Ok(xs[i]) {
      ParseIntToString(xs[i]);
    }
    var r := ParseInts(parts);
    assert r.value == xs;
  }

  /** A binding written from a requirement (with at least one scenario) parses back to it. */
  lemma ParseRender(r: Requirement)
    requires |r.scenarios| >= 1
    ensures ParseBinding(Render(r)) == Ok(r)
  {
    ParseIntToString(r.id);
    ParseIntToString(r.quantity);
    ParseScenariosJoin(r.scenarios);
  }

  /** An empty scenarios string fails: `int("")` raises ValueError. */
  lemma EmptyScenariosFail(b: Binding)
    requires PlainBinding(b) && ParseInt(b.id).Ok? && b.scenarios == ""
    ensures ParseBinding(b) == Err(ValueError(""))
  {
    assert Split("", ',') == [""];
  }

  /** The example binding `"3,19"` gives `[3, 19]`. */
  lemma ParseScenariosExample()
    ensures ParseScenarios("3,19") == Ok([3, 19])
  {
    assert IntToString(3) == "3" && IntToString(19) == "19";
    assert Join(IntStrings([3, 19]), ",") == "3,19";
    ParseScenariosJoin([3, 19]);
  }

  /** The loop that turns every binding into a requirement record. */
  method ParseBindings(bindings: seq<Binding>) returns (r: Result<seq<Requirement>>)
    requires forall i :: 0 <= i < |bindings| ==> PlainBinding(bindings[i])
    ensures r.Ok? <==> forall i :: 0 <= i < |bindings| ==> ParseBinding(bindings[i]).Ok?
    ensures r.Ok? ==> |r.value| == |bindings|
    ensures r.Ok? ==> forall i :: 0 <= i < |bindings| ==> ParseBinding(bindings[i]) == Ok(r.value[i])
    ensures r.Err? ==> exists i :: 0 <= i < |bindings| && ParseBinding(bindings[i]) == Err(r.error) &&
                                   forall k :: 0 <= k < i ==> ParseBinding(bindings[k]).Ok?
  {
    var requirements: seq<Requirement> := [];
    var i := 0;
    while i < |bindings|
      invariant 0 <= i <= |bindings|
      invariant |requirements| == i
      invariant forall k :: 0 <= k < i ==> ParseBinding(bindings[k]) == Ok(requirements[k])
    {
      var parsed := ParseBinding(bindings[i]);
      if parsed.Err? {
        return Err(parsed.error);
      }
      requirements := requirements + [parsed.value];
      i := i + 1;
    }
    return Ok(requirements);
  }

  // ---------------------------------------------------------------------------
  // Grouping by exact scenario set

  /** Quantity key → requirement ids. */
  type Obligations = map<string, set<int>>

  /** Scenario set → its obligations. */
  type Grouping = map<set<int>, Obligations>

  /** `frozenset(req["scenarios"])`. */
  function Key(r: Requirement): set<int>
  {
    ToSet(r.scenarios)
  }

  /** `str(req["quantity"])`. */
  function QKey(r: Requirement): string
  {
    IntToString(r.quantity)
  }

  /** A `defaultdict(set)` lookup. */
  function Get(o: Obligations, q: string): set<int>
  {
    if q in o then o[q] else {}
  }

  /** A `defaultdict(lambda: defaultdict(set))` lookup. */
  function GroupOf(g: Grouping, c: set<int>): Obligations
  {
    if c in g then g[c] else map[]
  }

  function KeySeq(reqs: seq<Requirement>): (r: seq<set<int>>)
    ensures |r| == |reqs|
    ensures forall i :: 0 <= i < |reqs| ==> r[i] == Key(reqs[i])
  {
    seq(|reqs|, i requires 0 <= i < |reqs| => Key(reqs[i]))
  }

  /** `config_to_quantities[scenarios][quantity_id].add(req_id)`. */
  function Insert(g: Grouping, r: Requirement): Grouping
  {
    var o := GroupOf(g, Key(r));
    g[Key(r) := o[QKey(r) := Get(o, QKey(r)) + {r.id}]]
  }

  /** `g` groups `reqs`: its keys are the requirements' scenario sets, a set's
      quantity keys are those of its requirements, and each key holds the ids
      of exactly the requirements with that set and quantity. */
  ghost predicate Groups(reqs: seq<Requirement>, g: Grouping)
  {
    (forall c :: c in g <==> exists i :: 0 <= i < |reqs| && Key(reqs[i]) == c) &&
    (forall c, q :: c in g ==>
       (q in g[c] <==> exists i :: 0 <= i < |reqs| && Key(reqs[i]) == c && QKey(reqs[i]) == q)) &&
    (forall c, q, id :: c in g ==>
       (id in Get(g[c], q) <==>
        exists i :: 0 <= i < |reqs| && Key(reqs[i]) == c && QKey(reqs[i]) == q && reqs[i].id == id))
  }

  lemma GroupsSnocKeys(reqs: seq<Requirement>, g: Grouping, r: Requirement)
    requires Groups(reqs, g)
    ensures forall c :: c in Insert(g, r) <==>
      exists i :: 0 <= i < |reqs + [r]| && Key((reqs + [r])[i]) == c
  {
    var rs := reqs + [r];
    forall c ensures c in Insert(g, r) <==> exists i :: 0 <= i < |rs| && Key(rs[i]) == c {
      if c in g {
        var i :| 0 <= i < |reqs| && Key(reqs[i]) == c;
        assert rs[i] == reqs[i];
      } else if c == Key(r) {
        assert rs[|reqs|] == r;
      } else {
        forall i | 0 <= i < |rs| ensures Key(rs[i]) != c {
          if i < |reqs| { assert rs[i] == reqs[i]; }
        }
      }
    }
  }

  lemma GroupsSnocQuantities(reqs: seq<Requirement>, g: Grouping, r: Requirement)
    requires Groups(reqs, g)
    ensures forall c, q :: c in Insert(g, r) ==>
      (q in Insert(g, r)[c] <==>
       exists i :: 0 <= i < |reqs + [r]| && Key((reqs + [r])[i]) == c && QKey((reqs + [r])[i]) == q)
  {
    var rs := reqs + [r];
    var g' := Insert(g, r);
    forall c, q | c in g'
      ensures q in g'[c] <==> exists i :: 0 <= i < |rs| && Key(rs[i]) == c && QKey(rs[i]) == q
    {
      if c == Key(r) && q == QKey(r) {
        assert rs[|reqs|] == r;
      } else if c in g && q in g[c] {
        var i :| 0 <= i < |reqs| && Key(reqs[i]) == c && QKey(reqs[i]) == q;
        assert rs[i] == reqs[i];
      } else {
        forall i | 0 <= i < |rs| ensures !(Key(rs[i]) == c && QKey(rs[i]) == q) {
          if i < |reqs| { assert rs[i] == reqs[i]; }
        }
      }
    }
  }

  lemma GroupsSnocIds(reqs: seq<Requirement>, g: Grouping, r: Requirement)
    requires Groups(reqs, g)
    ensures forall c, q, id :: c in Insert(g, r) ==>
      (id in Get(Insert(g, r)[c], q) <==>
       exists i :: 0 <= i < |reqs + [r]| && Key((reqs + [r])[i]) == c && QKey((reqs + [r])[i]) == q &&
                   (reqs + [r])[i].id == id)
  {
    var rs := reqs + [r];
    var g' := Insert(g, r);
    forall c, q, id | c in g'
      ensures id in Get(g'[c], q) <==>
              exists i :: 0 <= i < |rs| && Key(rs[i]) == c && QKey(rs[i]) == q && rs[i].id == id
    {
      if c == Key(r) && q == QKey(r) && id == r.id {
        assert rs[|reqs|] == r;
      } else if c in g && id in Get(g[c], q) {
        var i :| 0 <= i < |reqs| && Key(reqs[i]) == c && QKey(reqs[i]) == q && reqs[i].id == id;
        assert rs[i] == reqs[i];
      } else {
        assert id !in Get(g'[c], q);
        forall i | 0 <= i < |rs| ensures !(Key(rs[i]) == c && QKey(rs[i]) == q && rs[i].id == id) {
          if i < |reqs| { assert rs[i] == reqs[i]; }
        }
      }
    }
  }

  /** Adding one requirement to a grouping groups the longer list. */
  lemma GroupsSnoc(reqs: seq<Requirement>, g: Grouping, r: Requirement)
    requires Groups(reqs, g)
    ensures Groups(reqs + [r], Insert(g, r))
  {
    GroupsSnocKeys(reqs, g, r);
    GroupsSnocQuantities(reqs, g, r);
    GroupsSnocIds(reqs, g, r);
  }

  /** Requirements whose scenario lists are equal as sets, in any order, share
      one entry, and an id is filed under its own quantity key there. */
  lemma SameSetSameEntry(reqs: seq<Requirement>, g: Grouping, i: nat, j: nat)
    requires Groups(reqs, g)
    requires i < |reqs| && j < |reqs| && ToSet(reqs[i].scenarios) == ToSet(reqs[j].scenarios)
    ensures Key(reqs[i]) in g && Key(reqs[j]) == Key(reqs[i])
    ensures reqs[i].id in g[Key(reqs[i])][QKey(reqs[i])]
    ensures reqs[j].id in g[Key(reqs[i])][QKey(reqs[j])]
  {
    var c := Key(reqs[i]);
    assert Key(reqs[i]) == c && QKey(reqs[i]) == QKey(reqs[i]) && reqs[i].id == reqs[i].id;
    assert c in g;
    assert reqs[i].id in Get(g[c], QKey(reqs[i]));
    assert Key(reqs[j]) == c && QKey(reqs[j]) == QKey(reqs[j]) && reqs[j].id == reqs[j].id;
    assert reqs[j].id in Get(g[c], QKey(reqs[j]));
  }

  /** The distinct entries of `keys`, each at its first position, in order. */
  function FirstOccurrences(keys: seq<set<int>>): (r: seq<set<int>>)
    ensures NoDup(r) && ToSet(r) == ToSet(keys)
    ensures forall a, b :: 0 <= a < b < |r| ==> IndexOf(keys, r[a]) < IndexOf(keys, r[b])
    decreases |keys|
  {
    if keys == [] then []
    else
      var init := keys[..|keys| - 1];
      var last := keys[|keys| - 1];
      var p := FirstOccurrences(init);
      assert keys == init + [last];
      if last in p then
        FirstOccurrencesKeep(init, last, p);
        p
      else
        FirstOccurrencesAdd(init, last, p);
        p + [last]
  }

  /** A set seen before adds nothing to the first occurrences. */
  lemma FirstOccurrencesKeep(init: seq<set<int>>, last: set<int>, p: seq<set<int>>)
    requires ToSet(p) == ToSet(init) && last in p
    requires forall a, b :: 0 <= a < b < |p| ==> IndexOf(init, p[a]) < IndexOf(init, p[b])
    ensures ToSet(p) == ToSet(init + [last])
    ensures forall a, b :: 0 <= a < b < |p| ==> IndexOf(init + [last], p[a]) < IndexOf(init + [last], p[b])
  {
    IndexOfPrefix(init, last, p);
    assert ToSet(init + [last]) == ToSet(init) + {last};
  }

  /** A new set is appended, after every earlier first occurrence. */
  lemma FirstOccurrencesAdd(init: seq<set<int>>, last: set<int>, p: seq<set<int>>)
    requires ToSet(p) == ToSet(init) && last !in p && NoDup(p)
    requires forall a, b :: 0 <= a < b < |p| ==> IndexOf(init, p[a]) < IndexOf(init, p[b])
    ensures NoDup(p + [last]) && ToSet(p + [last]) == ToSet(init + [last])
    ensures forall a, b :: 0 <= a < b < |p + [last]| ==>
              IndexOf(init + [last], (p + [last])[a]) < IndexOf(init + [last], (p + [last])[b])
  {
    IndexOfPrefix(init, last, p);
    var keys := init + [last];
    var r := p + [last];
    assert ToSet(keys) == ToSet(init) + {last};
    assert ToSet(r) == ToSet(p) + {last};
    forall a, b | 0 <= a < b < |r| ensures IndexOf(keys, r[a]) < IndexOf(keys, r[b]) {
      assert r[a] == p[a] && r[a] in p;
      if b < |p| {
        assert r[b] == p[b] && r[b] in p;
      }
    }
  }

  /** Extending a list at the end keeps the first positions of what it held. */
  lemma IndexOfPrefix(init: seq<set<int>>, last: set<int>, p: seq<set<int>>)
    requires ToSet(p) == ToSet(init)
    ensures forall x :: x in p ==> IndexOf(init + [last], x) == IndexOf(init, x) < |init|
    ensures last !in p ==> IndexOf(init + [last], last) == |init|
  {
    forall x | x in p ensures IndexOf(init + [last], x) == IndexOf(init, x) < |init| {
      assert x in ToSet(init);
      IndexOfAppend(init, last, x);
    }
    if last !in p {
      assert last !in ToSet(init);
      IndexOfAppend(init, last, last);
    }
  }

  lemma {:induction false} IndexOfAppend(init: seq<set<int>>, last: set<int>, x: set<int>)
    ensures x in init ==> IndexOf(init + [last], x) == IndexOf(init, x)
    ensures x !in init && x == last ==> IndexOf(init + [last], x) == |init|
  {
    if init != [] {
      assert (init + [last])[1..] == init[1..] + [last];
      IndexOfAppend(init[1..], last, x);
    }
  }

  /** The next scenario set has an entry iff it occurred among those before. */
  lemma KeyInGroups(reqs: seq<Requirement>, i: nat, g: Grouping)
    requires i < |reqs| && Groups(reqs[..i], g)
    ensures Key(reqs[i]) in g <==> Key(reqs[i]) in ToSet(KeySeq(reqs[..i]))
  {
    var c := Key(reqs[i]);
    if c in g {
      var k :| 0 <= k < i && Key(reqs[..i][k]) == c;
      assert KeySeq(reqs[..i])[k] == c;
    }
  }

  /** The key order after one more requirement: its set is appended when new. */
  lemma OrderStep(reqs: seq<Requirement>, i: nat, isNew: bool)
    requires i < |reqs|
    requires isNew <==> Key(reqs[i]) !in ToSet(KeySeq(reqs[..i]))
    ensures FirstOccurrences(KeySeq(reqs[..i + 1])) ==
            if isNew then FirstOccurrences(KeySeq(reqs[..i])) + [Key(reqs[i])]
            else FirstOccurrences(KeySeq(reqs[..i]))
  {
    var c := Key(reqs[i]);
    var keys := KeySeq(reqs[..i]);
    assert KeySeq(reqs[..i + 1]) == keys + [c];
    assert (keys + [c])[..|keys + [c]| - 1] == keys;
  }

  /** The grouping after one more requirement. */
  lemma GroupsNext(reqs: seq<Requirement>, i: nat, g: Grouping)
    requires i < |reqs| && Groups(reqs[..i], g)
    ensures Groups(reqs[..i + 1], Insert(g, reqs[i]))
  {
    GroupsSnoc(reqs[..i], g, reqs[i]);
    assert reqs[..i + 1] == reqs[..i] + [reqs[i]];
  }

  /** The loop at the heart of aggregation. */
  method Group(reqs: seq<Requirement>) returns (order: seq<set<int>>, g: Grouping)
    ensures Groups(reqs, g)
    ensures order == FirstOccurrences(KeySeq(reqs))
  {
    order := [];
    g := map[];
    var i := 0;
    while i < |reqs|
      invariant 0 <= i <= |reqs|
      invariant Groups(reqs[..i], g)
      invariant order == FirstOccurrences(KeySeq(reqs[..i]))
    {
      var r := reqs[i];
      var c := Key(r);
      KeyInGroups(reqs, i, g);
      OrderStep(reqs, i, c !in g);
      GroupsNext(reqs, i, g);
      if c !in g {
        order := order + [c];
      }
      g := Insert(g, r);
      i := i + 1;
    }
    assert reqs[..i] == reqs;
  }

  /** A grouping fit for the closure: `order` lists its keys once each, and no
      entry is empty (every entry holds at least one requirement). */
  ghost predicate WellFormed(order: seq<set<int>>, g: Grouping)
  {
    NoDup(order) && ToSet(order) == g.Keys && forall c :: c in g ==> g[c] != map[]
  }

  /** What `Group` returns is fit for the closure. */
  lemma GroupsWellFormed(reqs: seq<Requirement>, g: Grouping)
    requires Groups(reqs, g)
    ensures WellFormed(FirstOccurrences(KeySeq(reqs)), g)
  {
    var keys := KeySeq(reqs);
    forall c ensures c in ToSet(keys) <==> c in g {
      if c in g {
        var i :| 0 <= i < |reqs| && Key(reqs[i]) == c;
        assert keys[i] == c;
      }
    }
    forall c | c in g ensures g[c] != map[] {
      var i :| 0 <= i < |reqs| && Key(reqs[i]) == c;
      assert QKey(reqs[i]) in g[c];
    }
  }

  // ---------------------------------------------------------------------------
  // Subset closure

  /** `inherited[c2][q].update(reqs)` for every `q, reqs` of `src`. */
  function Merge(dst: Obligations, src: Obligations): (r: Obligations)
    ensures r.Keys == dst.Keys + src.Keys
    ensures forall q :: Get(r, q) == Get(dst, q) + Get(src, q)
  {
    map q | q in dst.Keys + src.Keys :: Get(dst, q) + Get(src, q)
  }

  lemma ObligationsEqual(a: Obligations, b: Obligations)
    requires a.Keys == b.Keys
    requires forall q :: Get(a, q) == Get(b, q)
    ensures a == b
  {
    forall q | q in a ensures a[q] == b[q] {
      assert Get(a, q) == Get(b, q);
    }
  }

  /** The first position in `order` holding a subset of `c`, or `|order|`. */
  function FirstSubset(order: seq<set<int>>, c: set<int>): (k: nat)
    ensures k <= |order|
    ensures k < |order| ==> order[k] <= c
    ensures forall j :: 0 <= j < k ==> !(order[j] <= c)
  {
    if order == [] then 0
    else if order[0] <= c then 0
    else 1 + FirstSubset(order[1..], c)
  }

  /** The order in which the nested loop first creates keys of the closed
      mapping: `a` is created before `b` when its first subset in `order` comes
      earlier, or, with the same first subset, when `a` itself comes earlier. */
  ghost predicate RankBefore(order: seq<set<int>>, a: set<int>, b: set<int>)
  {
    FirstSubset(order, a) < FirstSubset(order, b) ||
    (FirstSubset(order, a) == FirstSubset(order, b) && IndexOf(order, a) < IndexOf(order, b))
  }

  /** What `c` has inherited once the first `n` entries of `order` were
      propagated: the merge of the obligations of those that are subsets of `c`. */
  ghost function InheritedFrom(order: seq<set<int>>, g: Grouping, c: set<int>, n: nat): Obligations
    requires n <= |order|
  {
    if n == 0 then map[]
    else
      var prev := InheritedFrom(order, g, c, n - 1);
      if order[n - 1] <= c then Merge(prev, GroupOf(g, order[n - 1])) else prev
  }

  lemma {:induction false} InheritedMeaning(order: seq<set<int>>, g: Grouping, c: set<int>, n: nat)
    requires n <= |order|
    ensures forall q :: q in InheritedFrom(order, g, c, n) <==>
      exists k :: 0 <= k < n && order[k] <= c && q in GroupOf(g, order[k])
    ensures forall q, id :: id in Get(InheritedFrom(order, g, c, n), q) <==>
      exists k :: 0 <= k < n && order[k] <= c && id in Get(GroupOf(g, order[k]), q)
  {
    InheritedKeysUpTo(order, g, c, n);
    InheritedIdsUpTo(order, g, c, n);
  }

  lemma {:induction false} InheritedKeysUpTo(order: seq<set<int>>, g: Grouping, c: set<int>, n: nat)
    requires n <= |order|
    ensures forall q :: q in InheritedFrom(order, g, c, n) <==>
      exists k :: 0 <= k < n && order[k] <= c && q in GroupOf(g, order[k])
  {
    if n > 0 {
      InheritedKeysUpTo(order, g, c, n - 1);
    }
  }

  lemma {:induction false} InheritedIdsUpTo(order: seq<set<int>>, g: Grouping, c: set<int>, n: nat)
    requires n <= |order|
    ensures forall q, id :: id in Get(InheritedFrom(order, g, c, n), q) <==>
      exists k :: 0 <= k < n && order[k] <= c && id in Get(GroupOf(g, order[k]), q)
  {
    if n > 0 {
      InheritedIdsUpTo(order, g, c, n - 1);
    }
  }

  lemma {:induction false} InheritedNone(order: seq<set<int>>, g: Grouping, c: set<int>, n: nat)
    requires n <= |order| && FirstSubset(order, c) >= n
    ensures InheritedFrom(order, g, c, n) == map[]
  {
    if n > 0 {
      InheritedNone(order, g, c, n - 1);
    }
  }

  /** The closed mapping: it has the same keys, and each set holds, under each
      quantity key, exactly the union of what its subsets (itself included)
      hold there; nothing comes from supersets or incomparable sets. */
  ghost predicate IsClosure(g: Grouping, h: Grouping)
  {
    h.Keys == g.Keys &&
    (forall c, q :: c in h ==> (q in h[c] <==> exists c1 :: c1 in g && c1 <= c && q in g[c1])) &&
    (forall c, q, id :: c in h ==>
       (id in Get(h[c], q) <==> exists c1 :: c1 in g && c1 <= c && id in Get(g[c1], q)))
  }

  function Bound(i: nat, j: nat, l: nat): nat
  {
    if l < j then i + 1 else i
  }

  /** `order[l]` is a key once one of its subsets has been processed. */
  ghost predicate KeyAt(order: seq<set<int>>, h: Grouping, i: nat, j: nat, l: nat)
  {
    l < |order| ==> (order[l] in h <==> FirstSubset(order, order[l]) < Bound(i, j, l))
  }

  /** `order[l]` holds what its processed subsets gave it. */
  ghost predicate ValueAt(order: seq<set<int>>, g: Grouping, h: Grouping, i: nat, j: nat, l: nat)
  {
    l < |order| && Bound(i, j, l) <= |order| ==>
      GroupOf(h, order[l]) == InheritedFrom(order, g, order[l], Bound(i, j, l))
  }

  /** The state of the nested loop after the pairs `(order[k], order[l])` with
      `k < i`, or `k == i` and `l < j`, were visited; `out` lists the keys of `h`
      in the order they were created. */
  ghost predicate Progress(order: seq<set<int>>, g: Grouping, h: Grouping, out: seq<set<int>>, i: nat, j: nat)
  {
    i <= |order| && j <= |order| && (j > 0 ==> i < |order|) &&
    h.Keys <= ToSet(order) &&
    (forall l: nat :: KeyAt(order, h, i, j, l)) &&
    (forall l: nat :: ValueAt(order, g, h, i, j, l)) &&
    CreationOrder(order, h, out)
  }

  /** `out` lists the keys of `h` once each, in the order the loop creates them. */
  ghost predicate CreationOrder(order: seq<set<int>>, h: Grouping, out: seq<set<int>>)
  {
    NoDup(out) && ToSet(out) == h.Keys &&
    forall a, b :: 0 <= a < b < |out| ==> RankBefore(order, out[a], out[b])
  }

  lemma ProgressStart(order: seq<set<int>>, g: Grouping)
    ensures Progress(order, g, map[], [], 0, 0)
  {
    forall l: nat ensures KeyAt(order, map[], 0, 0, l) {
    }
    forall l: nat ensures ValueAt(order, g, map[], 0, 0, l) {
    }
  }

  lemma ProgressNextRow(order: seq<set<int>>, g: Grouping, h: Grouping, out: seq<set<int>>, i: nat)
    requires i < |order| && Progress(order, g, h, out, i, |order|)
    ensures Progress(order, g, h, out, i + 1, 0)
  {
    var next := i + 1;
    forall l: nat ensures KeyAt(order, h, next, 0, l) {
      assert KeyAt(order, h, i, |order|, l);
    }
    forall l: nat ensures ValueAt(order, g, h, next, 0, l) {
      assert ValueAt(order, g, h, i, |order|, l);
    }
  }

  /** At a pair whose first set is not a subset of the second, entry `l` stays as it was. */
  lemma SkipAt(order: seq<set<int>>, g: Grouping, h: Grouping, i: nat, j: nat, l: nat)
    requires i < |order| && j < |order| && !(order[i] <= order[j])
    requires KeyAt(order, h, i, j, l) && ValueAt(order, g, h, i, j, l)
    ensures KeyAt(order, h, i, j + 1, l) && ValueAt(order, g, h, i, j + 1, l)
  {
    if l == j {
      assert FirstSubset(order, order[j]) != i;
    }
  }

  /** A pair whose first set is not a subset of the second changes nothing. */
  lemma ProgressSkip(order: seq<set<int>>, g: Grouping, h: Grouping, out: seq<set<int>>, i: nat, j: nat)
    requires Progress(order, g, h, out, i, j)
    requires i < |order| && j < |order| && !(order[i] <= order[j])
    ensures Progress(order, g, h, out, i, j + 1)
  {
    var next := j + 1;
    forall l: nat ensures KeyAt(order, h, i, next, l) {
      assert KeyAt(order, h, i, j, l) && ValueAt(order, g, h, i, j, l);
      SkipAt(order, g, h, i, j, l);
    }
    forall l: nat ensures ValueAt(order, g, h, i, next, l) {
      assert KeyAt(order, h, i, j, l) && ValueAt(order, g, h, i, j, l);
      SkipAt(order, g, h, i, j, l);
    }
  }

  /** Merging into `order[j]` leaves every other entry as it was. */
  lemma MergeOthers(order: seq<set<int>>, g: Grouping, h: Grouping, i: nat, j: nat, h': Grouping, l: nat)
    requires NoDup(order) && i < |order| && j < |order| && l < |order| && l != j
    requires KeyAt(order, h, i, j, l) && ValueAt(order, g, h, i, j, l)
    requires h'.Keys == h.Keys + {order[j]}
    requires forall c :: c in h && c != order[j] ==> h'[c] == h[c]
    ensures KeyAt(order, h', i, j + 1, l) && ValueAt(order, g, h', i, j + 1, l)
  {
    assert order[l] != order[j];
    assert GroupOf(h', order[l]) == GroupOf(h, order[l]);
  }

  /** Merging into `order[j]` brings it up to date with `order[i]`. */
  lemma MergeHere(order: seq<set<int>>, g: Grouping, h: Grouping, i: nat, j: nat, h': Grouping)
    requires i < |order| && j < |order| && order[i] <= order[j] && order[i] in g
    requires KeyAt(order, h, i, j, j) && ValueAt(order, g, h, i, j, j)
    requires order[j] in h'
    requires GroupOf(h', order[j]) == Merge(GroupOf(h, order[j]), g[order[i]])
    ensures KeyAt(order, h', i, j + 1, j) && ValueAt(order, g, h', i, j + 1, j)
  {
    assert FirstSubset(order, order[j]) <= i;
  }

  lemma MergeAt(order: seq<set<int>>, g: Grouping, h: Grouping, i: nat, j: nat, h': Grouping, l: nat)
    requires NoDup(order) && i < |order| && j < |order| && order[i] <= order[j] && order[i] in g
    requires KeyAt(order, h, i, j, l) && ValueAt(order, g, h, i, j, l)
    requires h'.Keys == h.Keys + {order[j]}
    requires GroupOf(h', order[j]) == Merge(GroupOf(h, order[j]), g[order[i]])
    requires forall c :: c in h && c != order[j] ==> h'[c] == h[c]
    ensures KeyAt(order, h', i, j + 1, l) && ValueAt(order, g, h', i, j + 1, l)
  {
    if l == j {
      MergeHere(order, g, h, i, j, h');
    } else if l < |order| {
      MergeOthers(order, g, h, i, j, h', l);
    }
  }

  /** A key created at step `(i, j)` comes after every key created before. */
  lemma MergeRank(order: seq<set<int>>, h: Grouping, out: seq<set<int>>, i: nat, j: nat)
    requires NoDup(order) && i < |order| && j < |order| && order[i] <= order[j]
    requires forall l: nat :: KeyAt(order, h, i, j, l)
    requires ToSet(out) <= ToSet(order) && forall a :: 0 <= a < |out| ==> out[a] in h
    requires order[j] !in h
    ensures FirstSubset(order, order[j]) == i
    ensures forall a :: 0 <= a < |out| ==> RankBefore(order, out[a], order[j])
  {
    assert KeyAt(order, h, i, j, j);
    assert FirstSubset(order, order[j]) <= i;
    forall a | 0 <= a < |out| ensures RankBefore(order, out[a], order[j]) {
      assert out[a] in ToSet(order);
      var l :| 0 <= l < |order| && order[l] == out[a];
      assert KeyAt(order, h, i, j, l);
      IndexOfNoDup(order, l);
      IndexOfNoDup(order, j);
    }
  }

  lemma MergeAll(order: seq<set<int>>, g: Grouping, h: Grouping, i: nat, j: nat, h': Grouping, next: nat)
    requires NoDup(order) && i < |order| && j < |order| && order[i] <= order[j] && order[i] in g
    requires next == j + 1
    requires forall l: nat :: KeyAt(order, h, i, j, l)
    requires forall l: nat :: ValueAt(order, g, h, i, j, l)
    requires h'.Keys == h.Keys + {order[j]}
    requires GroupOf(h', order[j]) == Merge(GroupOf(h, order[j]), g[order[i]])
    requires forall c :: c in h && c != order[j] ==> h'[c] == h[c]
    ensures forall l: nat :: KeyAt(order, h', i, next, l)
    ensures forall l: nat :: ValueAt(order, g, h', i, next, l)
  {
    forall l: nat ensures KeyAt(order, h', i, next, l) {
      assert KeyAt(order, h, i, j, l) && ValueAt(order, g, h, i, j, l);
      MergeAt(order, g, h, i, j, h', l);
    }
    forall l: nat ensures ValueAt(order, g, h', i, next, l) {
      assert KeyAt(order, h, i, j, l) && ValueAt(order, g, h, i, j, l);
      MergeAt(order, g, h, i, j, h', l);
    }
  }

  lemma MergeCreation(order: seq<set<int>>, g: Grouping, h: Grouping, out: seq<set<int>>, i: nat, j: nat,
                      h': Grouping, out': seq<set<int>>)
    requires NoDup(order) && i < |order| && j < |order| && order[i] <= order[j]
    requires h.Keys <= ToSet(order)
    requires forall l: nat :: KeyAt(order, h, i, j, l)
    requires CreationOrder(order, h, out)
    requires h'.Keys == h.Keys + {order[j]}
    requires out' == if order[j] in h then out else out + [order[j]]
    ensures CreationOrder(order, h', out')
  {
    if order[j] !in h {
      MergeRank(order, h, out, i, j);
      assert ToSet(out') == ToSet(out) + {order[j]};
    }
  }

  /** A pair whose first set is a subset of the second merges the first's
      obligations into the second, and creates its key if it was missing. */
  lemma ProgressMerge(order: seq<set<int>>, g: Grouping, h: Grouping, out: seq<set<int>>, i: nat, j: nat,
                      h': Grouping, out': seq<set<int>>)
    requires WellFormed(order, g)
    requires Progress(order, g, h, out, i, j)
    requires i < |order| && j < |order| && order[i] <= order[j]
    requires h'.Keys == h.Keys + {order[j]}
    requires GroupOf(h', order[j]) == Merge(GroupOf(h, order[j]), g[order[i]])
    requires forall c :: c in h && c != order[j] ==> h'[c] == h[c]
    requires out' == if order[j] in h then out else out + [order[j]]
    ensures Progress(order, g, h', out', i, j + 1)
  {
    assert order[i] in g;
    MergeAll(order, g, h, i, j, h', j + 1);
    MergeCreation(order, g, h, out, i, j, h', out');
  }

  /** The obligations once the keys in `done` were merged into `dst`. */
  function MergedOver(dst: Obligations, src: Obligations, done: set<string>): Obligations
    requires done <= src.Keys
  {
    map q | q in dst.Keys + done :: Get(dst, q) + (if q in done then src[q] else {})
  }

  lemma MergedStart(dst: Obligations, src: Obligations)
    ensures MergedOver(dst, src, {}) == dst
  {
    ObligationsEqual(MergedOver(dst, src, {}), dst);
  }

  /** The keys and each lookup of `MergedOver`. */
  lemma MergedOverAt(dst: Obligations, src: Obligations, done: set<string>, q: string)
    requires done <= src.Keys
    ensures MergedOver(dst, src, done).Keys == dst.Keys + done
    ensures Get(MergedOver(dst, src, done), q) == Get(dst, q) + (if q in done then src[q] else {})
  {
  }

  /** Adding `q` to the merged keys changes the lookup of `q` alone. */
  lemma MergeRoundAt(dst: Obligations, src: Obligations, done: set<string>, q: string, q': string)
    requires done <= src.Keys && q in src.Keys && q !in done
    ensures var o := MergedOver(dst, src, done);
            Get(o[q := Get(o, q) + src[q]], q') == Get(MergedOver(dst, src, done + {q}), q')
  {
    MergedOverAt(dst, src, done, q);
    MergedOverAt(dst, src, done, q');
    MergedOverAt(dst, src, done + {q}, q');
  }

  lemma MergeRoundKeys(dst: Obligations, src: Obligations, done: set<string>, q: string)
    requires done <= src.Keys && q in src.Keys
    ensures var o := MergedOver(dst, src, done);
            o[q := Get(o, q) + src[q]].Keys == MergedOver(dst, src, done + {q}).Keys
  {
    MergedOverAt(dst, src, done, q);
    MergedOverAt(dst, src, done + {q}, q);
  }

  /** One round of the merge loop, stated on the keys still to visit. */
  lemma MergeRound(dst: Obligations, src: Obligations, rest: set<string>, q: string)
    requires rest <= src.Keys && q in rest
    ensures var o := MergedOver(dst, src, src.Keys - rest);
            o[q := Get(o, q) + src[q]] == MergedOver(dst, src, src.Keys - (rest - {q}))
    ensures |rest - {q}| < |rest|
  {
    var done := src.Keys - rest;
    assert src.Keys - (rest - {q}) == done + {q};
    var o := MergedOver(dst, src, done);
    var o' := o[q := Get(o, q) + src[q]];
    MergeRoundKeys(dst, src, done, q);
    forall q' ensures Get(o', q') == Get(MergedOver(dst, src, done + {q}), q') {
      MergeRoundAt(dst, src, done, q, q');
    }
    ObligationsEqual(o', MergedOver(dst, src, done + {q}));
  }

  lemma MergedAll(dst: Obligations, src: Obligations)
    ensures MergedOver(dst, src, src.Keys) == Merge(dst, src)
  {
    var o := MergedOver(dst, src, src.Keys);
    forall q ensures Get(o, q) == Get(Merge(dst, src), q) {
    }
    ObligationsEqual(o, Merge(dst, src));
  }

  /** The loop `for q, reqs in config_to_quantities[c1].items(): …update(reqs)`
      on the obligations of one set. */
  method MergeObligations(dst: Obligations, src: Obligations) returns (o: Obligations)
    ensures o == Merge(dst, src)
  {
    var rest := src.Keys;
    o := dst;
    MergedStart(dst, src);
    assert src.Keys - rest == {};
    while rest != {}
      invariant rest <= src.Keys
      invariant o == MergedOver(dst, src, src.Keys - rest)
      decreases |rest|
    {
      var q :| q in rest;
      MergeRound(dst, src, rest, q);
      o := o[q := Get(o, q) + src[q]];
      rest := rest - {q};
    }
    assert src.Keys - rest == src.Keys;
    MergedAll(dst, src);
  }

  /** `inherited[c2][q].update(reqs)` for every `q, reqs` of `src`; the key
      `c2` is created by the first update, so not at all when `src` is empty. */
  method MergeInto(h: Grouping, c2: set<int>, src: Obligations) returns (h': Grouping)
    ensures h'.Keys == if src == map[] then h.Keys else h.Keys + {c2}
    ensures GroupOf(h', c2) == Merge(GroupOf(h, c2), src)
    ensures forall c :: c in h && c != c2 ==> h'[c] == h[c]
  {
    var o := MergeObligations(GroupOf(h, c2), src);
    if src == map[] {
      ObligationsEqual(GroupOf(h, c2), o);
      h' := h;
    } else {
      h' := h[c2 := o];
    }
  }

  /** One round of the inner loop: `order[j]` inherits from `order[i]` when
      it is a superset. */
  method PropagateOne(order: seq<set<int>>, g: Grouping, i: nat, j: nat, h: Grouping, out: seq<set<int>>)
    returns (h': Grouping, out': seq<set<int>>)
    requires WellFormed(order, g) && i < |order| && j < |order|
    requires Progress(order, g, h, out, i, j)
    ensures Progress(order, g, h', out', i, j + 1)
  {
    var c1 := order[i];
    var c2 := order[j];
    assert c1 in g;
    if c1 <= c2 {
      h' := MergeInto(h, c2, g[c1]);
      out' := if c2 !in h then out + [c2] else out;
      ProgressMerge(order, g, h, out, i, j, h', out');
    } else {
      h', out' := h, out;
      ProgressSkip(order, g, h, out, i, j);
    }
  }

  /** The inner loop `for c2 in all_configs` for one `c1 = order[i]`. */
  method PropagateFrom(order: seq<set<int>>, g: Grouping, i: nat, h: Grouping, out: seq<set<int>>)
    returns (h': Grouping, out': seq<set<int>>)
    requires WellFormed(order, g) && i < |order|
    requires Progress(order, g, h, out, i, 0)
    ensures Progress(order, g, h', out', i + 1, 0)
  {
    h', out' := h, out;
    var j := 0;
    while j < |order|
      invariant j <= |order|
      invariant Progress(order, g, h', out', i, j)
    {
      h', out' := PropagateOne(order, g, i, j, h', out');
      j := j + 1;
    }
    ProgressNextRow(order, g, h', out', i);
  }

  /** Which quantity keys a set inherits over the whole of `order`. */
  lemma InheritedKeys(order: seq<set<int>>, g: Grouping, c: set<int>, q: string)
    requires ToSet(order) == g.Keys
    ensures q in InheritedFrom(order, g, c, |order|) <==> exists c1 :: c1 in g && c1 <= c && q in g[c1]
  {
    InheritedMeaning(order, g, c, |order|);
    if exists c1 :: c1 in g && c1 <= c && q in g[c1] {
      var c1 :| c1 in g && c1 <= c && q in g[c1];
      var k :| 0 <= k < |order| && order[k] == c1;
      assert q in GroupOf(g, order[k]);
    }
  }

  /** Which requirement ids a set inherits over the whole of `order`. */
  lemma InheritedIds(order: seq<set<int>>, g: Grouping, c: set<int>, q: string, id: int)
    requires ToSet(order) == g.Keys
    ensures id in Get(InheritedFrom(order, g, c, |order|), q) <==>
            exists c1 :: c1 in g && c1 <= c && id in Get(g[c1], q)
  {
    InheritedMeaning(order, g, c, |order|);
    if exists c1 :: c1 in g && c1 <= c && id in Get(g[c1], q) {
      var c1 :| c1 in g && c1 <= c && id in Get(g[c1], q);
      var k :| 0 <= k < |order| && order[k] == c1;
      assert id in Get(GroupOf(g, order[k]), q);
    }
  }

  lemma ClosureOfProgress(order: seq<set<int>>, g: Grouping, h: Grouping, out: seq<set<int>>)
    requires WellFormed(order, g)
    requires Progress(order, g, h, out, |order|, 0)
    ensures IsClosure(g, h)
  {
    forall c | c in g ensures c in h {
      var l :| 0 <= l < |order| && order[l] == c;
      assert KeyAt(order, h, |order|, 0, l);
    }
    forall c, q | c in h ensures q in h[c] <==> exists c1 :: c1 in g && c1 <= c && q in g[c1] {
      var l :| 0 <= l < |order| && order[l] == c;
      assert ValueAt(order, g, h, |order|, 0, l);
      InheritedKeys(order, g, c, q);
    }
    forall c, q, id | c in h
      ensures id in Get(h[c], q) <==> exists c1 :: c1 in g && c1 <= c && id in Get(g[c1], q)
    {
      var l :| 0 <= l < |order| && order[l] == c;
      assert ValueAt(order, g, h, |order|, 0, l);
      InheritedIds(order, g, c, q, id);
    }
  }

  /** The nested loop `for c1 in all_configs: for c2 in all_configs: …`.
      `out` lists the keys of the result in the order they were created. */
  method Close(order: seq<set<int>>, g: Grouping) returns (out: seq<set<int>>, h: Grouping)
    requires WellFormed(order, g)
    ensures IsClosure(g, h)
    ensures NoDup(out) && ToSet(out) == h.Keys
    ensures forall a, b :: 0 <= a < b < |out| ==> RankBefore(order, out[a], out[b])
  {
    h, out := map[], [];
    ProgressStart(order, g);
    var i := 0;
    while i < |order|
      invariant i <= |order|
      invariant Progress(order, g, h, out, i, 0)
    {
      h, out := PropagateFrom(order, g, i, h, out);
      i := i + 1;
    }
    ClosureOfProgress(order, g, h, out);
  }

  /** Obligations only grow along `⊆`: whatever a set holds, each of its
      supersets holds too. */
  lemma ClosureMonotone(g: Grouping, h: Grouping, c1: set<int>, c2: set<int>, q: string)
    requires IsClosure(g, h)
    requires c1 in g && c2 in g && c1 <= c2 && q in g[c1]
    ensures q in h[c2] && g[c1][q] <= h[c2][q]
  {
    forall id | id in g[c1][q] ensures id in h[c2][q] {
      assert id in Get(g[c1], q);
      assert id in Get(h[c2], q);
    }
  }

  /** Every set keeps its own obligations. */
  lemma ClosureExtends(g: Grouping, h: Grouping, c: set<int>)
    requires IsClosure(g, h) && c in g
    ensures g[c].Keys <= h[c].Keys
    ensures forall q :: q in g[c] ==> g[c][q] <= h[c][q]
  {
    forall q | q in g[c] ensures q in h[c] && g[c][q] <= h[c][q] {
      ClosureMonotone(g, h, c, c, q);
    }
  }

  /** Closing an already closed mapping changes nothing. */
  lemma ClosureIdempotent(g: Grouping, h: Grouping, h2: Grouping)
    requires IsClosure(g, h) && IsClosure(h, h2)
    ensures h2 == h
  {
    forall c | c in h ensures h2[c] == h[c] {
      forall q ensures q in h2[c] <==> q in h[c] {
        if q in h2[c] {
          var c1 :| c1 in h && c1 <= c && q in h[c1];
          var c0 :| c0 in g && c0 <= c1 && q in g[c0];
          assert c0 <= c;
        }
      }
      forall q ensures Get(h2[c], q) == Get(h[c], q) {
        forall id ensures id in Get(h2[c], q) <==> id in Get(h[c], q) {
          if id in Get(h2[c], q) {
            var c1 :| c1 in h && c1 <= c && id in Get(h[c1], q);
            var c0 :| c0 in g && c0 <= c1 && id in Get(g[c0], q);
            assert c0 <= c;
          }
        }
      }
      ObligationsEqual(h2[c], h[c]);
    }
  }

  /** The closed mapping, listed in creation order, may itself be closed again. */
  lemma ClosureWellFormed(order: seq<set<int>>, g: Grouping, h: Grouping, out: seq<set<int>>)
    requires WellFormed(order, g) && IsClosure(g, h)
    requires NoDup(out) && ToSet(out) == h.Keys
    ensures WellFormed(out, h)
  {
    forall c | c in h ensures h[c] != map[] {
      var q :| q in g[c];
      assert q in h[c];
    }
  }

  // ---------------------------------------------------------------------------
  // Formatting and the whole generator

  /** The output record for the set `c` with obligations `o`: numbered `id`,
      its scenarios sorted, each quantity's requirement ids sorted. */
  ghost predicate Formatted(t: Test, id: int, c: set<int>, o: Obligations)
  {
    t.id == id && SortedListOf(t.scenarios, c) &&
    t.quantities.Keys == o.Keys &&
    (forall q :: q in t.quantities ==> SortedListOf(t.quantities[q], o[q])) &&
    t.apply == None && t.retract == None
  }

  /** The loop `for idx, (config, quantities) in enumerate(…, start=1)`. */
  method Format(out: seq<set<int>>, h: Grouping) returns (tests: seq<Test>)
    requires forall i :: 0 <= i < |out| ==> out[i] in h
    ensures |tests| == |out|
    ensures forall i :: 0 <= i < |out| ==> Formatted(tests[i], i + 1, out[i], h[out[i]])
  {
    tests := [];
    var idx := 0;
    while idx < |out|
      invariant idx <= |out| && |tests| == idx
      invariant forall i :: 0 <= i < idx ==> Formatted(tests[i], i + 1, out[i], h[out[i]])
    {
      var config := out[idx];
      var obligations := h[config];
      var quantities := map q | q in obligations :: Sorted(obligations[q]);
      tests := tests + [Test(idx + 1, Sorted(config), quantities, None, None)];
      idx := idx + 1;
    }
  }

  /** What the generator promises about its output for the requirements `reqs`:
      - one configuration per distinct scenario set, numbered 1..n;
      - listed in the order the closure loop creates them, which goes by the
        aggregation order of their first subset, then of themselves;
      - scenario and requirement lists strictly ascending;
      - under each quantity key, the ids of exactly the requirements for that
        quantity whose scenario set is a subset of the configuration's. */
  ghost predicate Generated(reqs: seq<Requirement>, tests: seq<Test>)
  {
    var order := FirstOccurrences(KeySeq(reqs));
    var sets := ScenarioSets(tests);
    NoDup(sets) && ToSet(sets) == ToSet(KeySeq(reqs)) &&
    (forall a, b :: 0 <= a < b < |tests| ==> RankBefore(order, sets[a], sets[b])) &&
    (forall i :: 0 <= i < |tests| ==>
       tests[i].id == i + 1 && Ascending(tests[i].scenarios) &&
       tests[i].apply == None && tests[i].retract == None) &&
    GeneratedKeys(reqs, tests) &&
    (forall i, q :: 0 <= i < |tests| && q in tests[i].quantities ==> Ascending(tests[i].quantities[q])) &&
    GeneratedIds(reqs, tests)
  }

  /** Configuration i carries quantity q iff some requirement for q has a
      scenario set inside configuration i's. */
  ghost predicate GeneratedKeys(reqs: seq<Requirement>, tests: seq<Test>)
  {
    forall i, q :: 0 <= i < |tests| ==>
      (q in tests[i].quantities <==>
       exists k :: 0 <= k < |reqs| && Key(reqs[k]) <= ScenarioSet(tests[i]) && QKey(reqs[k]) == q)
  }

  /** Under quantity q, configuration i lists exactly the ids of the
      requirements for q whose scenario sets lie inside configuration i's. */
  ghost predicate GeneratedIds(reqs: seq<Requirement>, tests: seq<Test>)
  {
    forall i, q, id :: 0 <= i < |tests| && q in tests[i].quantities ==>
      (id in tests[i].quantities[q] <==>
       exists k :: 0 <= k < |reqs| && Key(reqs[k]) <= ScenarioSet(tests[i]) && QKey(reqs[k]) == q && reqs[k].id == id)
  }

  lemma ComposeKeys(reqs: seq<Requirement>, g: Grouping, h: Grouping, c: set<int>, q: string)
    requires Groups(reqs, g) && IsClosure(g, h) && c in h
    ensures q in h[c] <==> exists k :: 0 <= k < |reqs| && Key(reqs[k]) <= c && QKey(reqs[k]) == q
  {
    if q in h[c] {
      var c1 :| c1 in g && c1 <= c && q in g[c1];
      var k :| 0 <= k < |reqs| && Key(reqs[k]) == c1 && QKey(reqs[k]) == q;
    }
    if exists k :: 0 <= k < |reqs| && Key(reqs[k]) <= c && QKey(reqs[k]) == q {
      var k :| 0 <= k < |reqs| && Key(reqs[k]) <= c && QKey(reqs[k]) == q;
      var c1 := Key(reqs[k]);
      assert c1 in g;
      assert q in g[c1];
    }
  }

  lemma ComposeIds(reqs: seq<Requirement>, g: Grouping, h: Grouping, c: set<int>, q: string, id: int)
    requires Groups(reqs, g) && IsClosure(g, h) && c in h
    ensures id in Get(h[c], q) <==>
            exists k :: 0 <= k < |reqs| && Key(reqs[k]) <= c && QKey(reqs[k]) == q && reqs[k].id == id
  {
    if id in Get(h[c], q) {
      var c1 :| c1 in g && c1 <= c && id in Get(g[c1], q);
      var k :| 0 <= k < |reqs| && Key(reqs[k]) == c1 && QKey(reqs[k]) == q && reqs[k].id == id;
    }
    if exists k :: 0 <= k < |reqs| && Key(reqs[k]) <= c && QKey(reqs[k]) == q && reqs[k].id == id {
      var k :| 0 <= k < |reqs| && Key(reqs[k]) <= c && QKey(reqs[k]) == q && reqs[k].id == id;
      var c1 := Key(reqs[k]);
      assert c1 in g;
      assert id in Get(g[c1], q);
    }
  }

  lemma GeneratedKeysOf(reqs: seq<Requirement>, g: Grouping, out: seq<set<int>>, h: Grouping, tests: seq<Test>)
    requires Groups(reqs, g) && IsClosure(g, h)
    requires |tests| == |out|
    requires forall i :: 0 <= i < |out| ==> out[i] in h && Formatted(tests[i], i + 1, out[i], h[out[i]])
    ensures GeneratedKeys(reqs, tests)
  {
    forall i, q | 0 <= i < |tests|
      ensures q in tests[i].quantities <==>
              exists k :: 0 <= k < |reqs| && Key(reqs[k]) <= ScenarioSet(tests[i]) && QKey(reqs[k]) == q
    {
      assert Formatted(tests[i], i + 1, out[i], h[out[i]]);
      ComposeKeys(reqs, g, h, out[i], q);
    }
  }

  lemma GeneratedIdsOf(reqs: seq<Requirement>, g: Grouping, out: seq<set<int>>, h: Grouping, tests: seq<Test>)
    requires Groups(reqs, g) && IsClosure(g, h)
    requires |tests| == |out|
    requires forall i :: 0 <= i < |out| ==> out[i] in h && Formatted(tests[i], i + 1, out[i], h[out[i]])
    ensures GeneratedIds(reqs, tests)
  {
    forall i, q, id | 0 <= i < |tests| && q in tests[i].quantities
      ensures id in tests[i].quantities[q] <==>
              exists k :: 0 <= k < |reqs| && Key(reqs[k]) <= ScenarioSet(tests[i]) && QKey(reqs[k]) == q && reqs[k].id == id
    {
      assert Formatted(tests[i], i + 1, out[i], h[out[i]]);
      ComposeIds(reqs, g, h, out[i], q, id);
      assert id in tests[i].quantities[q] <==> id in ToSet(tests[i].quantities[q]);
    }
  }

  lemma GeneratedOf(reqs: seq<Requirement>, g: Grouping, out: seq<set<int>>, h: Grouping, tests: seq<Test>)
    requires Groups(reqs, g) && IsClosure(g, h)
    requires CreationOrder(FirstOccurrences(KeySeq(reqs)), h, out)
    requires |tests| == |out|
    requires forall i :: 0 <= i < |out| ==> out[i] in h && Formatted(tests[i], i + 1, out[i], h[out[i]])
    ensures Generated(reqs, tests)
  {
    var sets := ScenarioSets(tests);
    assert sets == out;
    forall c ensures c in ToSet(KeySeq(reqs)) <==> c in g {
      if c in g {
        var i :| 0 <= i < |reqs| && Key(reqs[i]) == c;
        assert KeySeq(reqs)[i] == c;
      }
    }
    GeneratedKeysOf(reqs, g, out, h, tests);
    GeneratedIdsOf(reqs, g, out, h, tests);
  }

  /** The requirements the bindings parse to, when all of them parse. */
  ghost function Parsed(bindings: seq<Binding>): seq<Requirement>
    requires forall i :: 0 <= i < |bindings| ==> PlainBinding(bindings[i]) && ParseBinding(bindings[i]).Ok?
  {
    seq(|bindings|, i requires 0 <= i < |bindings| => ParseBinding(bindings[i]).value)
  }

  /** `generate_tests` with the file load and save replaced by the bindings
      passed in and the configurations returned. */
  method GenerateTests(bindings: seq<Binding>) returns (r: Result<seq<Test>>)
    requires forall i :: 0 <= i < |bindings| ==> PlainBinding(bindings[i])
    ensures r.Err? <==> exists i :: 0 <= i < |bindings| && ParseBinding(bindings[i]).Err?
    ensures r.Err? ==> exists i :: 0 <= i < |bindings| && ParseBinding(bindings[i]) == Err(r.error) &&
                                   forall k :: 0 <= k < i ==> ParseBinding(bindings[k]).Ok?
    ensures r.Ok? ==> Generated(Parsed(bindings), r.value)
  {
    var parsed := ParseBindings(bindings);
    if parsed.Err? {
      return Err(parsed.error);
    }
    var reqs := parsed.value;
    assert reqs == Parsed(bindings);
    var order, g := Group(reqs);
    GroupsWellFormed(reqs, g);
    var out, h := Close(order, g);
    var tests := Format(out, h);
    GeneratedOf(reqs, g, out, h, tests);
    return Ok(tests);
  }

  // ---------------------------------------------------------------------------
  // The two-requirement example

  /** A configuration's quantity table is fixed by `Generated`: its keys and
      each key's ids are the ones the requirements inside it call for. */
  lemma GeneratedQuantities(reqs: seq<Requirement>, tests: seq<Test>, i: nat, expected: map<string, seq<int>>)
    requires Generated(reqs, tests) && i < |tests|
    requires forall q :: q in expected <==>
               exists k :: 0 <= k < |reqs| && Key(reqs[k]) <= ScenarioSet(tests[i]) && QKey(reqs[k]) == q
    requires forall q, id :: q in expected ==>
               (id in expected[q] <==>
                exists k :: 0 <= k < |reqs| && Key(reqs[k]) <= ScenarioSet(tests[i]) && QKey(reqs[k]) == q && reqs[k].id == id)
    requires forall q :: q in expected ==> Ascending(expected[q])
    ensures tests[i].quantities == expected
  {
    var m := tests[i].quantities;
    assert m.Keys == expected.Keys;
    forall q | q in m ensures m[q] == expected[q] {
      forall id ensures id in m[q] <==> id in expected[q] { }
      assert ToSet(m[q]) == ToSet(expected[q]);
      SortedListUnique(m[q], expected[q], ToSet(expected[q]));
    }
  }

  /** The two scenario sets of the example, in the order the closure creates them. */
  lemma ExampleOrder(reqs: seq<Requirement>)
    requires reqs == [Requirement(1, [3], 10), Requirement(2, [3, 19], 11)]
    ensures FirstOccurrences(KeySeq(reqs)) == [{3}, {3, 19}]
  {
    var a, b := {3}, {3, 19};
    assert a != b by { assert 19 !in a; }
    var keys := KeySeq(reqs);
    assert Key(reqs[0]) == a && Key(reqs[1]) == b;
    assert keys == [a, b];
    var order := FirstOccurrences(keys);
    NoDupCard(order);
    assert ToSet(keys) == {a, b};
    assert |order| == 2;
    assert order[0] in {a, b} && order[1] in {a, b};
    assert IndexOf(keys, a) == 0 && IndexOf(keys, b) == 1;
  }

  /** Generated output for the example has two configurations, one per set. */
  lemma ExampleCount(reqs: seq<Requirement>, tests: seq<Test>)
    requires reqs == [Requirement(1, [3], 10), Requirement(2, [3, 19], 11)]
    requires Generated(reqs, tests)
    ensures |tests| == 2
    ensures ScenarioSet(tests[0]) in {{3}, {3, 19}} && ScenarioSet(tests[1]) in {{3}, {3, 19}}
    ensures ScenarioSet(tests[0]) != ScenarioSet(tests[1])
  {
    var a, b := {3}, {3, 19};
    assert a != b by { assert 19 !in a; }
    assert ToSet(KeySeq(reqs)) == {a, b} by {
      assert Key(reqs[0]) == a && Key(reqs[1]) == b;
      assert KeySeq(reqs) == [a, b];
    }
    var sets := ScenarioSets(tests);
    NoDupCard(sets);
    assert sets[0] in ToSet(sets) && sets[1] in ToSet(sets);
  }

  /** Generated output for the example holds {3} first and {3, 19} second. */
  lemma ExampleSets(reqs: seq<Requirement>, tests: seq<Test>)
    requires reqs == [Requirement(1, [3], 10), Requirement(2, [3, 19], 11)]
    requires Generated(reqs, tests)
    ensures |tests| == 2 && tests[0].scenarios == [3] && tests[1].scenarios == [3, 19]
  {
    var a, b := {3}, {3, 19};
    ExampleOrder(reqs);
    ExampleCount(reqs, tests);
    var order := [a, b];
    var sets := ScenarioSets(tests);
    assert FirstSubset(order, a) == 0 && FirstSubset(order, b) == 0;
    assert IndexOf(order, a) == 0 && IndexOf(order, b) == 1 by { assert a != b by { assert 19 !in a; } }
    assert RankBefore(order, sets[0], sets[1]);
    assert sets[0] == a && sets[1] == b;
    SortedListUnique(tests[0].scenarios, [3], a);
    SortedListUnique(tests[1].scenarios, [3, 19], b);
  }

  /** {3} holds only requirement 1, so only quantity 10. */
  lemma ExampleFirstQuantities(reqs: seq<Requirement>, tests: seq<Test>)
    requires reqs == [Requirement(1, [3], 10), Requirement(2, [3, 19], 11)]
    requires Generated(reqs, tests) && |tests| == 2 && tests[0].scenarios == [3]
    ensures tests[0].quantities == map["10" := [1]]
  {
    assert QKey(reqs[0]) == "10";
    assert Key(reqs[0]) == {3} && Key(reqs[1]) == {3, 19};
    assert ScenarioSet(tests[0]) == {3};
    assert !({3, 19} <= {3}) by { assert 19 !in {3}; }
    GeneratedQuantities(reqs, tests, 0, map["10" := [1]]);
  }

  /** {3, 19} holds both requirements, so quantities 10 and 11. */
  lemma ExampleSecondQuantities(reqs: seq<Requirement>, tests: seq<Test>)
    requires reqs == [Requirement(1, [3], 10), Requirement(2, [3, 19], 11)]
    requires Generated(reqs, tests) && |tests| == 2 && tests[1].scenarios == [3, 19]
    ensures tests[1].quantities == map["10" := [1], "11" := [2]]
  {
    assert QKey(reqs[0]) == "10" && QKey(reqs[1]) == "11";
    assert Key(reqs[0]) == {3} && Key(reqs[1]) == {3, 19};
    assert ScenarioSet(tests[1]) == {3, 19};
    GeneratedQuantities(reqs, tests, 1, map["10" := [1], "11" := [2]]);
  }

  /** Requirement 1 needs quantity 10 under scenario 3 and requirement 2 needs
      quantity 11 under scenarios 3 and 19: the generator's only possible output
      is configuration 1 = {3} with 10 → [1], then configuration 2 = {3, 19},
      which inherits 10 → [1] from {3} and adds 11 → [2]. */
  lemma GeneratedExample(tests: seq<Test>)
    requires Generated([Requirement(1, [3], 10), Requirement(2, [3, 19], 11)], tests)
    ensures tests == [Test(1, [3], map["10" := [1]], None, None),
                      Test(2, [3, 19], map["10" := [1], "11" := [2]], None, None)]
  {
    var reqs := [Requirement(1, [3], 10), Requirement(2, [3, 19], 11)];
    ExampleSets(reqs, tests);
    ExampleFirstQuantities(reqs, tests);
    ExampleSecondQuantities(reqs, tests);
  }
}
