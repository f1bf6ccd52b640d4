/** The delta pass: each configuration gets the scenarios to apply and to
    retract when moving to it from the previous one (from nothing, for the first). */
module Delta {
  import opened Wrappers
  import opened Collections
  import opened Plan

  /** The active scenarios before configuration `i` is set up. */
  ghost function Before(tests: seq<Test>, i: nat): set<int>
    requires i <= |tests|
  {
    if i == 0 then {} else ScenarioSet(tests[i - 1])
  }

  /** `u` is `t` with `apply` = sorted(S − prev) and `retract` = sorted(prev − S),
      where S is the scenario set of `t`; nothing else differs. */
  ghost predicate DeltaOf(t: Test, prev: set<int>, u: Test)
  {
    u.id == t.id && u.scenarios == t.scenarios && u.quantities == t.quantities &&
    u.apply.Some? && SortedListOf(u.apply.value, ScenarioSet(t) - prev) &&
    u.retract.Some? && SortedListOf(u.retract.value, prev - ScenarioSet(t))
  }

  /** The whole pass: same configurations, same order, deltas against the predecessor. */
  ghost predicate Annotated(tests: seq<Test>, out: seq<Test>)
  {
    |out| == |tests| &&
    forall i :: 0 <= i < |tests| ==> DeltaOf(tests[i], Before(tests, i), out[i])
  }

  /** The loop `for cfg in raw_tests` (also the recomputation after reordering). */
  method Annotate(tests: seq<Test>) returns (out: seq<Test>)
    ensures Annotated(tests, out)
  {
    out := [];
    var prev: set<int> := {};
    var i := 0;
    while i < |tests|
      invariant i <= |tests| && |out| == i
      invariant prev == Before(tests, i)
      invariant forall k :: 0 <= k < i ==> DeltaOf(tests[k], Before(tests, k), out[k])
    {
      var cfg := tests[i];
      var current := ToSet(cfg.scenarios);
      var next := cfg.(apply := Some(Sorted(current - prev)), retract := Some(Sorted(prev - current)));
      AnnotateStep(tests, out, i, next);
      out := out + [next];
      prev := current;
      i := i + 1;
    }
  }

  lemma AnnotateStep(tests: seq<Test>, out: seq<Test>, i: nat, next: Test)
    requires i < |tests| && |out| == i
    requires forall k :: 0 <= k < i ==> DeltaOf(tests[k], Before(tests, k), out[k])
    requires next == tests[i].(apply := Some(Sorted(ScenarioSet(tests[i]) - Before(tests, i))),
                               retract := Some(Sorted(Before(tests, i) - ScenarioSet(tests[i]))))
    ensures forall k :: 0 <= k < i + 1 ==> DeltaOf(tests[k], Before(tests, k), (out + [next])[k])
  {
    forall k | 0 <= k < i + 1 ensures DeltaOf(tests[k], Before(tests, k), (out + [next])[k]) {
      if k < i {
        assert (out + [next])[k] == out[k];
      } else {
        assert (out + [next])[k] == next;
      }
    }
  }

  /** Only `apply` and `retract` are written: restoring them gives the input back. */
  lemma AnnotatedKeepsRecords(tests: seq<Test>, out: seq<Test>, i: nat)
    requires Annotated(tests, out) && i < |tests|
    ensures out[i].(apply := tests[i].apply, retract := tests[i].retract) == tests[i]
    ensures ScenarioSet(out[i]) == ScenarioSet(tests[i])
  {
    assert DeltaOf(tests[i], Before(tests, i), out[i]);
  }

  /** The first configuration applies all its scenarios and retracts nothing. */
  lemma AnnotatedFirst(tests: seq<Test>, out: seq<Test>)
    requires Annotated(tests, out) && |tests| > 0
    ensures out[0].apply == Some(Sorted(ScenarioSet(tests[0])))
    ensures out[0].retract == Some([])
  {
    assert DeltaOf(tests[0], {}, out[0]);
    SortedOfSortedList(out[0].apply.value, ScenarioSet(tests[0]) - {});
    assert ScenarioSet(tests[0]) - {} == ScenarioSet(tests[0]);
    SortedOfSortedList(out[0].retract.value, {});
  }

  /** What is applied and what is retracted never overlap, and applying the
      delta to the previous set gives the current one. */
  lemma DeltaReconstructs(prev: set<int>, current: set<int>)
    ensures (current - prev) !! (prev - current)
    ensures current == (prev - (prev - current)) + (current - prev)
  {
  }

  lemma AnnotatedDeltas(tests: seq<Test>, out: seq<Test>, i: nat)
    requires Annotated(tests, out) && i < |tests|
    ensures Ascending(out[i].apply.value) && Ascending(out[i].retract.value)
    ensures ToSet(out[i].apply.value) !! ToSet(out[i].retract.value)
    ensures ScenarioSet(tests[i]) ==
            (Before(tests, i) - ToSet(out[i].retract.value)) + ToSet(out[i].apply.value)
  {
    assert DeltaOf(tests[i], Before(tests, i), out[i]);
    DeltaReconstructs(Before(tests, i), ScenarioSet(tests[i]));
  }

  /** The states reached by replaying the first `n` deltas from nothing. */
  ghost function Replay(out: seq<Test>, n: nat): set<int>
    requires n <= |out|
    requires forall i :: 0 <= i < |out| ==> out[i].apply.Some? && out[i].retract.Some?
  {
    if n == 0 then {}
    else (Replay(out, n - 1) - ToSet(out[n - 1].retract.value)) + ToSet(out[n - 1].apply.value)
  }

  /** Replaying the deltas from the empty set visits exactly the configurations' scenario sets. */
  lemma {:induction false} ReplayVisits(tests: seq<Test>, out: seq<Test>, n: nat)
    requires Annotated(tests, out) && n <= |tests|
    ensures forall i :: 0 <= i < |out| ==> out[i].apply.Some? && out[i].retract.Some?
    ensures Replay(out, n) == Before(tests, n)
  {
    forall i | 0 <= i < |out| ensures out[i].apply.Some? && out[i].retract.Some? {
      assert DeltaOf(tests[i], Before(tests, i), out[i]);
    }
    if n > 0 {
      ReplayVisits(tests, out, n - 1);
      AnnotatedDeltas(tests, out, n - 1);
    }
  }

  /** Running the pass a second time gives the same deltas, since it only reads `scenarios`. */
  lemma AnnotateIdempotent(tests: seq<Test>, out: seq<Test>, out2: seq<Test>)
    requires Annotated(tests, out) && Annotated(out, out2)
    ensures out2 == out
  {
    forall i | 0 <= i < |tests| ensures out2[i] == out[i] {
      assert DeltaOf(tests[i], Before(tests, i), out[i]);
      assert DeltaOf(out[i], Before(out, i), out2[i]);
      if i > 0 {
        assert DeltaOf(tests[i - 1], Before(tests, i - 1), out[i - 1]);
      }
      assert Before(out, i) == Before(tests, i);
      SortedListUnique(out2[i].apply.value, out[i].apply.value, ScenarioSet(tests[i]) - Before(tests, i));
      SortedListUnique(out2[i].retract.value, out[i].retract.value, Before(tests, i) - ScenarioSet(tests[i]));
    }
  }

  /** The pass is determined by its input. */
  lemma AnnotatedUnique(tests: seq<Test>, out: seq<Test>, out2: seq<Test>)
    requires Annotated(tests, out) && Annotated(tests, out2)
    ensures out2 == out
  {
    forall i | 0 <= i < |tests| ensures out2[i] == out[i] {
      assert DeltaOf(tests[i], Before(tests, i), out[i]);
      assert DeltaOf(tests[i], Before(tests, i), out2[i]);
      SortedListUnique(out2[i].apply.value, out[i].apply.value, ScenarioSet(tests[i]) - Before(tests, i));
      SortedListUnique(out2[i].retract.value, out[i].retract.value, Before(tests, i) - ScenarioSet(tests[i]));
    }
  }
}
