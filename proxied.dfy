/** The proxied requirement records (`requirements-proxied.json`) and the
    table by requirement id that the strategy and scenario views build from them. */
module Proxied {
  import opened Wrappers

  /** One situation: the scenario ids that can exercise the requirement. */
  datatype Situation = Situation(scenarios: seq<string>)

  /** A requirement record: its id, its situations, the optional `configs`
      entry, and the remaining fields, which the views copy unchanged. */
  datatype ProxyRequirement = ProxyRequirement(id: string, situations: seq<Situation>,
                                               configs: Option<seq<string>>, fields: map<string, string>)

  /** `[scenario for situation in situations for scenario in situation["scenarios"]]`. */
  function Flatten(situations: seq<Situation>): seq<string>
  {
    if situations == [] then [] else situations[0].scenarios + Flatten(situations[1..])
  }

  /** The flattened list holds exactly the scenarios of the situations. */
  lemma {:induction false} FlattenMembers(situations: seq<Situation>, s: string)
    ensures s in Flatten(situations) <==> exists k :: 0 <= k < |situations| && s in situations[k].scenarios
  {
    if situations != [] {
      var rest := situations[1..];
      FlattenMembers(rest, s);
      if exists k :: 0 <= k < |situations| && s in situations[k].scenarios {
        var k :| 0 <= k < |situations| && s in situations[k].scenarios;
        if k > 0 { assert rest[k - 1] == situations[k]; }
      }
      if exists k :: 0 <= k < |rest| && s in rest[k].scenarios {
        var k :| 0 <= k < |rest| && s in rest[k].scenarios;
        assert situations[k + 1] == rest[k];
      }
    }
  }

  /** Flattening keeps the order of the situations. */
  lemma {:induction false} FlattenAppend(a: seq<Situation>, b: seq<Situation>)
    ensures Flatten(a + b) == Flatten(a) + Flatten(b)
  {
    if a != [] {
      assert (a + b)[1..] == a[1..] + b;
      FlattenAppend(a[1..], b);
    } else {
      assert a + b == b;
    }
  }

  /** `table[req["id"]] = f(req)` for each record in turn. */
  function ById<T>(reqs: seq<ProxyRequirement>, f: ProxyRequirement -> T): map<string, T>
  {
    if reqs == [] then map[]
    else ById(reqs[..|reqs| - 1], f)[reqs[|reqs| - 1].id := f(reqs[|reqs| - 1])]
  }

  /** The loop filling the table by id. */
  method IndexById<T>(reqs: seq<ProxyRequirement>, f: ProxyRequirement -> T) returns (table: map<string, T>)
    ensures table == ById(reqs, f)
  {
    table := map[];
    for i := 0 to |reqs|
      invariant table == ById(reqs[..i], f)
    {
      assert reqs[..i + 1][..i] == reqs[..i];
      table := table[reqs[i].id := f(reqs[i])];
    }
    assert reqs[..|reqs|] == reqs;
  }

  /** The table has one entry per distinct id. */
  lemma {:induction false} ByIdKeys<T>(reqs: seq<ProxyRequirement>, f: ProxyRequirement -> T, x: string)
    ensures x in ById(reqs, f) <==> exists i :: 0 <= i < |reqs| && reqs[i].id == x
  {
    if reqs != [] {
      var init := reqs[..|reqs| - 1];
      ByIdKeys(init, f, x);
      if exists i :: 0 <= i < |init| && init[i].id == x {
        var i :| 0 <= i < |init| && init[i].id == x;
        assert reqs[i] == init[i];
      }
      if exists i :: 0 <= i < |reqs| && reqs[i].id == x {
        var i :| 0 <= i < |reqs| && reqs[i].id == x;
        if i < |init| { assert init[i] == reqs[i]; }
      }
    }
  }

  /** A record whose id does not come again later is the one kept: later
      duplicates overwrite earlier ones. */
  lemma {:induction false} ByIdLast<T>(reqs: seq<ProxyRequirement>, f: ProxyRequirement -> T, i: nat)
    requires i < |reqs|
    requires forall j :: i < j < |reqs| ==> reqs[j].id != reqs[i].id
    ensures reqs[i].id in ById(reqs, f) && ById(reqs, f)[reqs[i].id] == f(reqs[i])
  {
    var n := |reqs| - 1;
    if i < n {
      var init := reqs[..n];
      assert init[i] == reqs[i];
      assert forall j :: i < j < |init| ==> init[j] == reqs[j];
      ByIdLast(init, f, i);
    }
  }
}
