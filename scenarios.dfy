/** The scenario view's index: each requirement's situations joined into one
    comma-separated string, then an index from scenario id to the ids of the
    requirements it can exercise, read back by splitting on commas. */
module ScenarioIndex {
  import opened Wrappers
  import opened Collections
  import opened Text
  import opened Proxied

  /** A requirement whose situations are one comma-joined string. */
  datatype JoinedRequirement = JoinedRequirement(id: string, situations: string, fields: map<string, string>)

  /** `",".join(flattened situations)`, with `configs` removed. */
  function JoinedOf(r: ProxyRequirement): JoinedRequirement
  {
    JoinedRequirement(r.id, Join(Flatten(r.situations), ","), r.fields)
  }

  /** The scenario ids the index reads back from an entry. */
  function Parts(r: JoinedRequirement): seq<string>
  {
    Split(r.situations, ',')
  }

  /** `id` is filed under `s`. */
  predicate Has(index: map<string, set<string>>, s: string, id: string)
  {
    s in index && id in index[s]
  }

  /** `index` maps each scenario `s` to the ids of the requirements whose
      split situations contain `s`, and holds no other key. */
  ghost predicate IsIndex(table: map<string, JoinedRequirement>, index: map<string, set<string>>)
  {
    (forall s, id :: Has(index, s, id) <==> id in table && s in Parts(table[id])) &&
    (forall s :: s in index ==> index[s] != {})
  }

  /** The inner loop: add `id` under every scenario of `parts`. */
  method AddAll(index: map<string, set<string>>, id: string, parts: seq<string>) returns (r: map<string, set<string>>)
    requires forall s :: s in index ==> index[s] != {}
    ensures forall s, x :: Has(r, s, x) <==> Has(index, s, x) || (x == id && s in parts)
    ensures forall s :: s in r ==> r[s] != {}
  {
    r := index;
    for j := 0 to |parts|
      invariant forall s, x :: Has(r, s, x) <==> Has(index, s, x) || (x == id && s in parts[..j])
      invariant forall s :: s in r ==> r[s] != {}
    {
      var situation := parts[j];
      assert forall s :: s in parts[..j + 1] <==> s in parts[..j] || s == situation by {
        assert parts[..j + 1] == parts[..j] + [situation];
      }
      ghost var prev := r;
      var current := if situation in r then r[situation] else {};
      r := r[situation := current + {id}];
      forall s, x ensures Has(r, s, x) <==> Has(prev, s, x) || (x == id && s == situation) {
        if s == situation { }
      }
    }
    assert parts[..|parts|] == parts;
  }

  /** The loop `for req_id, req in reqproxy2.items()`. */
  method InvertIndex(table: map<string, JoinedRequirement>) returns (index: map<string, set<string>>)
    ensures IsIndex(table, index)
  {
    var ids := SetToList(table.Keys);
    index := map[];
    ghost var done: set<string> := {};
    for k := 0 to |ids|
      invariant done == ToSet(ids[..k]) && done <= table.Keys
      invariant forall s, id :: Has(index, s, id) <==> id in done && s in Parts(table[id])
      invariant forall s :: s in index ==> index[s] != {}
    {
      var reqId := ids[k];
      assert ids[..k + 1] == ids[..k] + [reqId];
      assert reqId in ToSet(ids);
      index := AddAll(index, reqId, Parts(table[reqId]));
      done := done + {reqId};
    }
    assert ids[..|ids|] == ids;
  }

  /** The keys of the index are the scenarios of all entries. */
  lemma IndexKeys(table: map<string, JoinedRequirement>, index: map<string, set<string>>, s: string)
    requires IsIndex(table, index)
    ensures s in index <==> exists id :: id in table && s in Parts(table[id])
  {
    if s in index {
      var id := Pick(index[s]);
      assert Has(index, s, id);
    }
    if exists id :: id in table && s in Parts(table[id]) {
      var id :| id in table && s in Parts(table[id]);
      assert Has(index, s, id);
    }
  }

  /** When no scenario id holds a comma, reading an entry back gives its
      flattened scenarios: `id` is indexed under `s` exactly when `s` is
      one of them. */
  lemma IndexedIffScenario(reqs: seq<ProxyRequirement>, index: map<string, set<string>>, i: nat, s: string)
    requires IsIndex(ById(reqs, JoinedOf), index)
    requires i < |reqs| && forall j :: i < j < |reqs| ==> reqs[j].id != reqs[i].id
    requires Flatten(reqs[i].situations) != []
    requires forall p :: p in Flatten(reqs[i].situations) ==> ',' !in p
    ensures Has(index, s, reqs[i].id) <==> s in Flatten(reqs[i].situations)
  {
    ByIdLast(reqs, JoinedOf, i);
    var flat := Flatten(reqs[i].situations);
    var entry := ById(reqs, JoinedOf)[reqs[i].id];
    assert entry.situations == Join(flat, ",");
    SplitJoin(flat, ',');
    assert Parts(entry) == flat;
  }

  /** A requirement without scenarios is indexed under the empty key, since
      `",".join([])` splits back to `[""]`. */
  lemma NoScenariosIndexedUnderEmpty(reqs: seq<ProxyRequirement>, index: map<string, set<string>>, i: nat)
    requires IsIndex(ById(reqs, JoinedOf), index)
    requires i < |reqs| && forall j :: i < j < |reqs| ==> reqs[j].id != reqs[i].id
    requires Flatten(reqs[i].situations) == []
    ensures Has(index, "", reqs[i].id)
  {
    ByIdLast(reqs, JoinedOf, i);
    SplitEmpty(',');
    var entry := ById(reqs, JoinedOf)[reqs[i].id];
    assert entry.situations == "";
    assert Parts(entry) == [""];
  }

  /** The scenario view's two steps together: the joined table by id, then its index. */
  method ScenarioRequirements(reqs: seq<ProxyRequirement>) returns (table: map<string, JoinedRequirement>, index: map<string, set<string>>)
    ensures table == ById(reqs, JoinedOf)
    ensures IsIndex(table, index)
  {
    table := IndexById(reqs, JoinedOf);
    index := InvertIndex(table);
  }
}
