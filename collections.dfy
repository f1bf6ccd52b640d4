/** Sets, duplicate-free lists and ascending lists: what Python's `set(xs)`,
    `list(s)` and `sorted(s)` produce. */
module Collections {

  function ToSet<T>(xs: seq<T>): set<T>
  {
    set x | x in xs
  }

  predicate NoDup<T(==)>(xs: seq<T>)
  {
    forall i, j :: 0 <= i < j < |xs| ==> xs[i] != xs[j]
  }

  predicate Ascending(xs: seq<int>)
  {
    forall i, j :: 0 <= i < j < |xs| ==> xs[i] < xs[j]
  }

  /** `xs` is `sorted(s)`: the elements of `s`, each once, in increasing order. */
  predicate SortedListOf(xs: seq<int>, s: set<int>)
  {
    Ascending(xs) && ToSet(xs) == s
  }

  lemma AscendingNoDup(xs: seq<int>)
    requires Ascending(xs)
    ensures NoDup(xs)
  {
  }

  /** A duplicate-free list has as many elements as its set. */
  lemma {:induction false} NoDupCard<T>(xs: seq<T>)
    requires NoDup(xs)
    ensures |ToSet(xs)| == |xs|
  {
    if xs != [] {
      NoDupCard(xs[1..]);
      assert ToSet(xs) == {xs[0]} + ToSet(xs[1..]);
      assert xs[0] !in ToSet(xs[1..]);
    }
  }

  lemma TailSet<T>(xs: seq<T>)
    requires NoDup(xs) && xs != []
    ensures ToSet(xs[1..]) == ToSet(xs) - {xs[0]}
  {
    assert xs == [xs[0]] + xs[1..];
    ToSetCons(xs[0], xs[1..]);
    assert xs[0] !in xs[1..];
  }

  /** In an ascending list, the head is the least element of its set. */
  lemma HeadIsLeast(xs: seq<int>, y: int)
    requires Ascending(xs) && y in ToSet(xs)
    ensures xs[0] <= y
  {
    var k :| 0 <= k < |xs| && xs[k] == y;
    if k > 0 { assert xs[0] < xs[k]; }
  }

  /** A set has exactly one sorted listing. */
  lemma {:induction false} SortedListUnique(xs: seq<int>, ys: seq<int>, s: set<int>)
    requires SortedListOf(xs, s) && SortedListOf(ys, s)
    ensures xs == ys
    decreases |xs|
  {
    NoDupCard(xs);
    NoDupCard(ys);
    if xs != [] {
      assert xs[0] in ToSet(xs) && ys[0] in ToSet(ys);
      HeadIsLeast(ys, xs[0]);
      HeadIsLeast(xs, ys[0]);
      TailSet(xs);
      TailSet(ys);
      SortedListUnique(xs[1..], ys[1..], s - {xs[0]});
      assert xs == [xs[0]] + xs[1..] && ys == [ys[0]] + ys[1..];
    }
  }

  /** Some element of a non-empty set. */
  lemma Pick<T>(s: set<T>) returns (x: T)
    requires s != {}
    ensures x in s
  {
    x :| x in s;
  }

  /** `m` is the least element of `s`. */
  predicate IsLeast(m: int, s: set<int>)
  {
    m in s && forall y :: y in s ==> m <= y
  }

  lemma LeastOfSingle(x: int, s: set<int>)
    requires x in s && s - {x} == {}
    ensures IsLeast(x, s)
  {
    forall y | y in s ensures x <= y {
      assert y !in s - {x};
    }
  }

  lemma LeastOfMore(x: int, m: int, rest: set<int>, s: set<int>)
    requires x in s && rest == s - {x} && IsLeast(m, rest)
    ensures IsLeast(if x < m then x else m, s)
  {
    var least := if x < m then x else m;
    forall y | y in s ensures least <= y {
      if y != x { assert y in rest; }
    }
  }

  lemma {:induction false} MinimumExists(s: set<int>)
    requires s != {}
    ensures exists m :: IsLeast(m, s)
    decreases |s|
  {
    var x := Pick(s);
    var rest := s - {x};
    if rest == {} {
      LeastOfSingle(x, s);
    } else {
      assert |rest| < |s| by { assert s == rest + {x}; }
      MinimumExists(rest);
      var m :| IsLeast(m, rest);
      LeastOfMore(x, m, rest, s);
    }
  }

  lemma ToSetCons<T>(x: T, xs: seq<T>)
    ensures ToSet([x] + xs) == {x} + ToSet(xs)
  {
  }

  lemma ConsAscending(m: int, xs: seq<int>)
    requires Ascending(xs)
    requires forall y :: y in xs ==> m < y
    ensures Ascending([m] + xs)
  {
    forall i, j | 0 <= i < j < |xs| + 1 ensures ([m] + xs)[i] < ([m] + xs)[j] {
      assert ([m] + xs)[j] == xs[j - 1] && xs[j - 1] in xs;
      if i > 0 {
        assert ([m] + xs)[i] == xs[i - 1];
      }
    }
  }

  function Min(s: set<int>): (m: int)
    requires s != {}
    ensures m in s && forall y :: y in s ==> m <= y
  {
    MinimumExists(s);
    var m :| IsLeast(m, s);
    m
  }

  /** Python's `sorted(s)` for a set of integers. */
  function Sorted(s: set<int>): (xs: seq<int>)
    ensures SortedListOf(xs, s)
    decreases |s|
  {
    if s == {} then []
    else
      var m := Min(s);
      var rest := Sorted(s - {m});
      ConsAscending(m, rest);
      ToSetCons(m, rest);
      [m] + rest
  }

  lemma SortedOfSortedList(xs: seq<int>, s: set<int>)
    requires SortedListOf(xs, s)
    ensures Sorted(s) == xs
  {
    SortedListUnique(xs, Sorted(s), s);
  }

  /** Position of the first `x` in `xs`, or `|xs|` if there is none. */
  function IndexOf<T(==)>(xs: seq<T>, x: T): (k: nat)
    ensures k <= |xs|
    ensures k < |xs| ==> xs[k] == x
    ensures k == |xs| <==> x !in xs
    ensures forall j :: 0 <= j < k ==> xs[j] != x
  {
    if xs == [] then 0
    else if xs[0] == x then 0
    else 1 + IndexOf(xs[1..], x)
  }

  lemma IndexOfNoDup<T>(xs: seq<T>, k: nat)
    requires NoDup(xs) && k < |xs|
    ensures IndexOf(xs, xs[k]) == k
  {
  }

  /** Python's `list.remove(x)`: drops the first element equal to `x`. */
  function RemoveFirst<T(==)>(xs: seq<T>, x: T): (r: seq<T>)
    ensures x in xs ==> |r| == |xs| - 1
    ensures x in xs ==> multiset(r) == multiset(xs) - multiset{x}
    ensures x !in xs ==> r == xs
  {
    var k := IndexOf(xs, x);
    if k == |xs| then xs
    else
      assert xs == xs[..k] + [xs[k]] + xs[k+1..];
      xs[..k] + xs[k+1..]
  }

  /** Iterates a set in an unspecified order, as Python's `list(s)` does. */
  method SetToList<T>(s: set<T>) returns (xs: seq<T>)
    ensures NoDup(xs) && ToSet(xs) == s
  {
    xs := [];
    var rest := s;
    while rest != {}
      invariant ToSet(xs) + rest == s
      invariant ToSet(xs) !! rest
      invariant NoDup(xs)
      decreases |rest|
    {
      var x :| x in rest;
      SetToListStep(xs, rest, s, x);
      xs := xs + [x];
      rest := rest - {x};
    }
  }

  lemma SetToListStep<T>(xs: seq<T>, rest: set<T>, s: set<T>, x: T)
    requires ToSet(xs) + rest == s && ToSet(xs) !! rest && NoDup(xs) && x in rest
    ensures ToSet(xs + [x]) + (rest - {x}) == s && ToSet(xs + [x]) !! (rest - {x}) && NoDup(xs + [x])
    ensures |rest - {x}| < |rest|
  {
    assert ToSet(xs + [x]) == ToSet(xs) + {x};
    assert rest == (rest - {x}) + {x};
    forall i, j | 0 <= i < j < |xs + [x]| ensures (xs + [x])[i] != (xs + [x])[j] {
      assert (xs + [x])[i] == xs[i] && xs[i] in ToSet(xs);
      if j < |xs| { assert (xs + [x])[j] == xs[j]; }
    }
  }
}
