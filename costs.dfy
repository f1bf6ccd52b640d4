/** The cost model: a table from scenario (or quantity) id to cost, where an id
    missing from the table costs 0 (`costs.get(s, 0)`), and the sums built on it. */
module Costs {
  import opened Collections

  function Lookup<K>(costs: map<K, int>, k: K): int
  {
    if k in costs then costs[k] else 0
  }

  ghost predicate NonNegative<K>(costs: map<K, int>)
  {
    forall k :: k in costs ==> costs[k] >= 0
  }

  /** `sum(costs.get(s, 0) for s in ids)` over a list: a repeated id is counted each time. */
  function ListCost<K>(costs: map<K, int>, ids: seq<K>): int
  {
    if ids == [] then 0 else Lookup(costs, ids[0]) + ListCost(costs, ids[1..])
  }

  /** `sum(costs.get(s, 0) for s in ids)` over a set. */
  ghost function SetCost<K>(costs: map<K, int>, s: set<K>): int
  {
    if s == {} then 0
    else
      var x :| x in s;
      Lookup(costs, x) + SetCost(costs, s - {x})
  }

  /** The sum over a set does not depend on the order its elements are taken in. */
  lemma {:induction false} SetCostRemove<K>(costs: map<K, int>, s: set<K>, x: K)
    requires x in s
    ensures SetCost(costs, s) == Lookup(costs, x) + SetCost(costs, s - {x})
    decreases |s|
  {
    var y :| y in s && SetCost(costs, s) == Lookup(costs, y) + SetCost(costs, s - {y});
    if y != x {
      SetCostRemove(costs, s - {y}, x);
      SetCostRemove(costs, s - {x}, y);
      assert s - {y} - {x} == s - {x} - {y};
    }
  }

  lemma {:induction false} SetCostUnion<K>(costs: map<K, int>, a: set<K>, b: set<K>)
    requires a !! b
    ensures SetCost(costs, a + b) == SetCost(costs, a) + SetCost(costs, b)
    decreases |a|
  {
    if a != {} {
      var x := Pick(a);
      SetCostRemove(costs, a, x);
      SetCostRemove(costs, a + b, x);
      assert (a + b) - {x} == (a - {x}) + b;
      SetCostUnion(costs, a - {x}, b);
    } else {
      assert a + b == b;
    }
  }

  lemma {:induction false} ListCostAppend<K>(costs: map<K, int>, a: seq<K>, b: seq<K>)
    ensures ListCost(costs, a + b) == ListCost(costs, a) + ListCost(costs, b)
  {
    if a != [] {
      assert (a + b)[1..] == a[1..] + b;
      ListCostAppend(costs, a[1..], b);
    } else {
      assert a + b == b;
    }
  }

  /** Each occurrence is paid for: taking one occurrence of `x` out of the
      list takes exactly its cost out of the sum. */
  lemma ListCostRemoveFirst<K>(costs: map<K, int>, xs: seq<K>, x: K)
    requires x in xs
    ensures ListCost(costs, xs) == Lookup(costs, x) + ListCost(costs, RemoveFirst(xs, x))
  {
    var k := IndexOf(xs, x);
    var before, after := xs[..k], xs[k + 1..];
    assert xs == before + ([x] + after);
    assert RemoveFirst(xs, x) == before + after;
    ListCostAppend(costs, before, [x] + after);
    ListCostAppend(costs, before, after);
    assert ([x] + after)[1..] == after;
  }

  /** Over a duplicate-free list, the list sum is the set sum. */
  lemma {:induction false} ListCostOfDistinct<K>(costs: map<K, int>, xs: seq<K>)
    requires NoDup(xs)
    ensures ListCost(costs, xs) == SetCost(costs, ToSet(xs))
  {
    if xs != [] {
      ListCostOfDistinct(costs, xs[1..]);
      TailSet(xs);
      SetCostRemove(costs, ToSet(xs), xs[0]);
    }
  }

  lemma {:induction false} ListCostNonNegative<K>(costs: map<K, int>, xs: seq<K>)
    requires NonNegative(costs)
    ensures ListCost(costs, xs) >= 0
  {
    if xs != [] {
      ListCostNonNegative(costs, xs[1..]);
    }
  }

  lemma {:induction false} SetCostNonNegative<K>(costs: map<K, int>, s: set<K>)
    requires NonNegative(costs)
    ensures SetCost(costs, s) >= 0
    decreases |s|
  {
    if s != {} {
      var x := Pick(s);
      SetCostRemove(costs, s, x);
      SetCostNonNegative(costs, s - {x});
    }
  }

  /** Cost of moving from the active set `from` to `to`: apply what is new,
      retract what is no longer needed. */
  ghost function TransitionCost<K>(costs: map<K, int>, from: set<K>, to: set<K>): int
  {
    SetCost(costs, to - from) + SetCost(costs, from - to)
  }

  /** The transition cost is the cost of the symmetric difference. */
  lemma TransitionIsSymmetricDifference<K>(costs: map<K, int>, from: set<K>, to: set<K>)
    ensures TransitionCost(costs, from, to) == SetCost(costs, (from - to) + (to - from))
  {
    SetCostUnion(costs, from - to, to - from);
  }

  lemma TransitionSymmetric<K>(costs: map<K, int>, a: set<K>, b: set<K>)
    ensures TransitionCost(costs, a, b) == TransitionCost(costs, b, a)
  {
  }

  /** Moving from nothing costs the whole target set. */
  lemma TransitionFromEmpty<K>(costs: map<K, int>, to: set<K>)
    ensures TransitionCost(costs, {}, to) == SetCost(costs, to)
  {
    assert to - {} == to;
    assert {} - to == {};
  }

  /** Cost of visiting `sets` in order, starting from the active set `from`. */
  ghost function PathCost<K>(costs: map<K, int>, from: set<K>, sets: seq<set<K>>): int
    decreases |sets|
  {
    if sets == [] then 0
    else TransitionCost(costs, from, sets[0]) + PathCost(costs, sets[0], sets[1..])
  }

  /** Cost of the cycle nothing → sets[0] → … → last → nothing. */
  ghost function CycleCost<K>(costs: map<K, int>, sets: seq<set<K>>): int
  {
    PathCost(costs, {}, sets + [{}])
  }

  lemma {:induction false} PathCostNonNegative<K>(costs: map<K, int>, from: set<K>, sets: seq<set<K>>)
    requires NonNegative(costs)
    ensures PathCost(costs, from, sets) >= 0
    decreases |sets|
  {
    if sets != [] {
      SetCostNonNegative(costs, sets[0] - from);
      SetCostNonNegative(costs, from - sets[0]);
      PathCostNonNegative(costs, sets[0], sets[1..]);
    }
  }

  /** `sum(costs.get(s, 0) for s in s)`, computed by iterating the set. */
  method SumSetCost<K>(costs: map<K, int>, s: set<K>) returns (total: int)
    ensures total == SetCost(costs, s)
  {
    total := 0;
    var rest := s;
    while rest != {}
      invariant rest <= s
      invariant total + SetCost(costs, rest) == SetCost(costs, s)
      decreases |rest|
    {
      var x :| x in rest;
      SetCostRemove(costs, rest, x);
      total := total + Lookup(costs, x);
      rest := rest - {x};
    }
  }
}
