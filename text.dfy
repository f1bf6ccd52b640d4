/** Python string operations the core relies on: `str.split`, `str.join`,
    `str(n)` for integers, `int(s)`, string ordering and right alignment. */
module Text {
  import opened Wrappers

  /** Python's `s.split(sep)` for a one-character separator. */
  function Split(s: string, sep: char): (parts: seq<string>)
    ensures |parts| >= 1
    ensures forall p :: p in parts ==> sep !in p
    decreases |s|
  {
    if |s| == 0 then [""]
    else
      var rest := Split(s[1..], sep);
      if s[0] == sep then [""] + rest
      else [[s[0]] + rest[0]] + rest[1..]
  }

  /** Python's `sep.join(parts)`. */
  function Join(parts: seq<string>, sep: string): string
  {
    if |parts| == 0 then ""
    else if |parts| == 1 then parts[0]
    else parts[0] + sep + Join(parts[1..], sep)
  }

  /** Splitting text that starts with a separator-free piece. */
  lemma {:induction false} SplitPrefix(p: string, t: string, sep: char)
    requires sep !in p
    ensures Split(p + t, sep) == [p + Split(t, sep)[0]] + Split(t, sep)[1..]
    decreases |p|
  {
    if p != [] {
      assert (p + t)[1..] == p[1..] + t;
      SplitPrefix(p[1..], t, sep);
      assert [p[0]] + (p[1..] + Split(t, sep)[0]) == p + Split(t, sep)[0];
    } else {
      assert p + t == t;
      var parts := Split(t, sep);
      assert p + parts[0] == parts[0];
      assert parts == [parts[0]] + parts[1..];
    }
  }

  /** Joining separator-free pieces and splitting again gives the pieces back. */
  lemma {:induction false} SplitJoin(parts: seq<string>, sep: char)
    requires |parts| >= 1
    requires forall p :: p in parts ==> sep !in p
    ensures Split(Join(parts, [sep]), sep) == parts
  {
    if |parts| == 1 {
      SplitPrefix(parts[0], "", sep);
      assert Split("", sep) == [""];
      assert parts[0] + "" == parts[0];
    } else {
      var rest := Join(parts[1..], [sep]);
      assert Join(parts, [sep]) == parts[0] + ([sep] + rest);
      SplitPrefix(parts[0], [sep] + rest, sep);
      assert ([sep] + rest)[1..] == rest;
      assert Split([sep] + rest, sep) == [""] + Split(rest, sep);
      SplitJoin(parts[1..], sep);
      assert parts[0] + "" == parts[0];
      assert parts == [parts[0]] + parts[1..];
    }
  }

  lemma JoinConsHead(a: string, b: string, tail: seq<string>, sep: string)
    ensures Join([a + b] + tail, sep) == a + Join([b] + tail, sep)
  {
    if |tail| > 0 {
      assert ([a + b] + tail)[1..] == tail;
      assert ([b] + tail)[1..] == tail;
    }
  }

  /** Splitting and joining again gives the text back. */
  lemma {:induction false} JoinSplit(s: string, sep: char)
    ensures Join(Split(s, sep), [sep]) == s
    decreases |s|
  {
    if |s| > 0 {
      var rest := Split(s[1..], sep);
      JoinSplit(s[1..], sep);
      if s[0] == sep {
        assert ([""] + rest)[1..] == rest;
      } else {
        assert rest == [rest[0]] + rest[1..];
        JoinConsHead([s[0]], rest[0], rest[1..], [sep]);
      }
      assert s == [s[0]] + s[1..];
    }
  }

  /** Python's `",".join([])` is `""`, which splits back to `[""]`. */
  lemma SplitEmpty(sep: char)
    ensures Join([], [sep]) == ""
    ensures Split("", sep) == [""]
  {
  }

  function DigitChar(d: nat): char
    requires d < 10
  {
    "0123456789"[d]
  }

  predicate IsDigit(c: char)
  {
    '0' <= c <= '9'
  }

  function DigitValue(c: char): nat
    requires IsDigit(c)
  {
    (c as int) - ('0' as int)
  }

  predicate AllDigits(s: string)
  {
    forall i :: 0 <= i < |s| ==> IsDigit(s[i])
  }

  /** Decimal digits of a natural number, most significant first (Python's `str(n)`). */
  function NatToString(n: nat): (s: string)
    ensures |s| >= 1 && AllDigits(s)
  {
    if n < 10 then [DigitChar(n)]
    else NatToString(n / 10) + [DigitChar(n % 10)]
  }

  /** Python's `str(n)` for any integer. */
  function IntToString(n: int): (s: string)
    ensures Plain(s)
  {
    if n < 0 then "-" + NatToString(-n) else NatToString(n)
  }

  /** The number a string of decimal digits denotes. */
  function DigitsValue(s: string): nat
    requires AllDigits(s)
  {
    if s == [] then 0
    else DigitsValue(s[..|s| - 1]) * 10 + DigitValue(s[|s| - 1])
  }

  /** The ASCII characters Python's `int()` treats as themselves: no
      whitespace (stripped by `int()`) and no `_` (a digit separator there). */
  predicate PlainChar(c: char)
  {
    ' ' < c < '\U{7F}' && c != '_'
  }

  predicate Plain(s: string)
  {
    forall i :: 0 <= i < |s| ==> PlainChar(s[i])
  }

  lemma PlainConcat(a: string, b: string)
    requires Plain(a) && Plain(b)
    ensures Plain(a + b)
  {
    forall i | 0 <= i < |a + b| ensures PlainChar((a + b)[i]) {
      if i >= |a| { assert (a + b)[i] == b[i - |a|]; }
    }
  }

  /** The pieces of plain text are plain. */
  lemma {:induction false} SplitPlain(s: string, sep: char)
    requires Plain(s)
    ensures forall i :: 0 <= i < |Split(s, sep)| ==> Plain(Split(s, sep)[i])
    decreases |s|
  {
    if |s| > 0 {
      assert Plain(s[1..]) by {
        forall i | 0 <= i < |s[1..]| ensures PlainChar(s[1..][i]) { assert s[1..][i] == s[i + 1]; }
      }
      SplitPlain(s[1..], sep);
      var rest := Split(s[1..], sep);
      if s[0] != sep {
        PlainConcat([s[0]], rest[0]);
        var parts := Split(s, sep);
        forall i | 0 <= i < |parts| ensures Plain(parts[i]) {
          if i > 0 { assert parts[i] == rest[i]; }
        }
      }
    }
  }

  /** Joining plain pieces with a plain separator gives plain text. */
  lemma {:induction false} JoinPlain(parts: seq<string>, sep: string)
    requires forall i :: 0 <= i < |parts| ==> Plain(parts[i])
    requires Plain(sep)
    ensures Plain(Join(parts, sep))
  {
    if |parts| > 1 {
      JoinPlain(parts[1..], sep);
      PlainConcat(parts[0], sep);
      PlainConcat(parts[0] + sep, Join(parts[1..], sep));
    }
  }

  /** `str(n)` holds only a sign and digits. */
  lemma IntToStringChars(n: int, c: char)
    requires !IsDigit(c) && c != '-'
    ensures c !in IntToString(n)
  {
    var d := NatToString(if n < 0 then -n else n);
    assert c !in d by {
      forall i | 0 <= i < |d| ensures d[i] != c { assert IsDigit(d[i]); }
    }
  }

  /** Python's `int(s)` on plain text: an optional sign and at least one decimal
      digit; anything else raises ValueError. */
  function ParseInt(s: string): (r: Result<int>)
    requires Plain(s)
    ensures r.Err? ==> r.error == ValueError(s)
  {
    if |s| >= 2 && (s[0] == '-' || s[0] == '+') && AllDigits(s[1..]) then
      var v := DigitsValue(s[1..]) as int;
      Ok(if s[0] == '-' then -v else v)
    else if |s| >= 1 && AllDigits(s) then
      Ok(DigitsValue(s))
    else
      Err(ValueError(s))
  }

  lemma {:induction false} DigitsOfNat(n: nat)
    ensures DigitsValue(NatToString(n)) == n
  {
    var s := NatToString(n);
    if n < 10 {
      assert s[..0] == [];
    } else {
      DigitsOfNat(n / 10);
      assert s[..|s| - 1] == NatToString(n / 10);
    }
  }

  /** A non-empty run of digits parses to its value. */
  lemma ParseDigits(d: string)
    requires |d| >= 1 && AllDigits(d) && Plain(d)
    ensures ParseInt(d) == Ok(DigitsValue(d))
  {
    assert IsDigit(d[0]);
  }

  /** A minus sign before a non-empty run of digits negates its value. */
  lemma ParseNegDigits(d: string)
    requires |d| >= 1 && AllDigits(d) && Plain("-" + d)
    ensures ParseInt("-" + d) == Ok(-(DigitsValue(d) as int))
  {
    assert ("-" + d)[1..] == d;
  }

  /** `int(str(n)) == n`. */
  lemma ParseIntToString(n: int)
    ensures ParseInt(IntToString(n)) == Ok(n)
  {
    if n < 0 {
      DigitsOfNat(-n);
      ParseNegDigits(NatToString(-n));
    } else {
      DigitsOfNat(n);
      ParseDigits(NatToString(n));
    }
  }

  /** `str` is injective on integers. */
  lemma IntToStringInjective(a: int, b: int)
    requires IntToString(a) == IntToString(b)
    ensures a == b
  {
    ParseIntToString(a);
    ParseIntToString(b);
  }

  /** Python's `<` on strings: lexicographic by code point. */
  predicate StrLess(a: string, b: string)
  {
    if a == [] then b != []
    else if b == [] then false
    else if a[0] != b[0] then a[0] < b[0]
    else StrLess(a[1..], b[1..])
  }

  function Repeat(s: string, n: nat): (r: string)
    ensures |r| == n * |s|
  {
    if n == 0 then "" else s + Repeat(s, n - 1)
  }

  function Spaces(n: nat): (r: string)
    ensures |r| == n
    ensures forall i :: 0 <= i < n ==> r[i] == ' '
  {
    if n == 0 then "" else " " + Spaces(n - 1)
  }

  /** Python's `f"{s:>w}"`: pads on the left with spaces up to width `w`, never truncates. */
  function PadLeft(s: string, w: nat): (r: string)
    ensures |r| == if |s| < w then w else |s|
    ensures r[|r| - |s|..] == s
    ensures forall i :: 0 <= i < |r| - |s| ==> r[i] == ' '
  {
    if |s| < w then Spaces(w - |s|) + s else s
  }

  lemma {:induction false} StrLessIrreflexive(a: string)
    ensures !StrLess(a, a)
    decreases |a|
  {
    if a != [] {
      StrLessIrreflexive(a[1..]);
    }
  }

  lemma {:induction false} StrLessTransitive(a: string, b: string, c: string)
    requires StrLess(a, b) && StrLess(b, c)
    ensures StrLess(a, c)
    decreases |a|
  {
    if a != [] && a[0] == b[0] && b[0] == c[0] {
      StrLessTransitive(a[1..], b[1..], c[1..]);
    }
  }

  lemma {:induction false} StrLessTotal(a: string, b: string)
    requires a != b
    ensures StrLess(a, b) || StrLess(b, a)
    decreases |a|
  {
    if a != [] && b != [] && a[0] == b[0] {
      assert a == [a[0]] + a[1..] && b == [b[0]] + b[1..];
      StrLessTotal(a[1..], b[1..]);
    }
  }

  /** Strictly increasing under Python's string order. */
  predicate StrAscending(xs: seq<string>)
  {
    forall i, j :: 0 <= i < j < |xs| ==> StrLess(xs[i], xs[j])
  }

  function InsertStr(x: string, xs: seq<string>): (r: seq<string>)
    requires StrAscending(xs) && x !in xs
    ensures StrAscending(r)
    ensures multiset(r) == multiset(xs) + multiset{x}
    decreases |xs|
  {
    if xs == [] then [x]
    else if StrLess(x, xs[0]) then
      InsertStrFront(x, xs);
      [x] + xs
    else
      StrAscendingTail(xs);
      var rest := InsertStr(x, xs[1..]);
      InsertStrBehind(x, xs, rest);
      [xs[0]] + rest
  }

  lemma StrAscendingTail(xs: seq<string>)
    requires StrAscending(xs) && xs != []
    ensures StrAscending(xs[1..]) && xs == [xs[0]] + xs[1..]
  {
    forall i, j | 0 <= i < j < |xs[1..]| ensures StrLess(xs[1..][i], xs[1..][j]) {
      assert xs[1..][i] == xs[i + 1] && xs[1..][j] == xs[j + 1];
    }
  }

  /** A string below the head goes in front. */
  lemma InsertStrFront(x: string, xs: seq<string>)
    requires StrAscending(xs) && xs != [] && StrLess(x, xs[0])
    ensures StrAscending([x] + xs)
  {
    var r := [x] + xs;
    forall i, j | 0 <= i < j < |r| ensures StrLess(r[i], r[j]) {
      assert r[j] == xs[j - 1];
      if i == 0 {
        if j > 1 { StrLessTransitive(x, xs[0], xs[j - 1]); }
      } else {
        assert r[i] == xs[i - 1];
      }
    }
  }

  /** A string above the head goes behind it, among the rest. */
  lemma InsertStrBehind(x: string, xs: seq<string>, rest: seq<string>)
    requires StrAscending(xs) && xs != [] && x !in xs && !StrLess(x, xs[0])
    requires StrAscending(rest) && multiset(rest) == multiset(xs[1..]) + multiset{x}
    ensures StrAscending([xs[0]] + rest)
    ensures multiset([xs[0]] + rest) == multiset(xs) + multiset{x}
  {
    StrLessTotal(x, xs[0]);
    assert xs == [xs[0]] + xs[1..];
    var r := [xs[0]] + rest;
    forall i, j | 0 <= i < j < |r| ensures StrLess(r[i], r[j]) {
      assert r[j] == rest[j - 1];
      if i == 0 {
        assert rest[j - 1] in multiset(xs[1..]) + multiset{x};
        if rest[j - 1] != x {
          assert rest[j - 1] in xs[1..];
          var m :| 0 <= m < |xs[1..]| && xs[1..][m] == rest[j - 1];
          assert xs[m + 1] == rest[j - 1];
        }
      } else {
        assert r[i] == rest[i - 1];
      }
    }
  }

  /** `sorted(xs)` for a list of distinct strings. */
  function SortStrings(xs: seq<string>): (r: seq<string>)
    requires forall i, j :: 0 <= i < j < |xs| ==> xs[i] != xs[j]
    ensures StrAscending(r)
    ensures multiset(r) == multiset(xs)
    decreases |xs|
  {
    if xs == [] then []
    else
      var init := xs[..|xs| - 1];
      var last := xs[|xs| - 1];
      assert xs == init + [last];
      var sorted := SortStrings(init);
      assert last !in init;
      assert last !in multiset(sorted);
      InsertStr(last, sorted)
  }

  /** A set of strings has one ascending listing. */
  lemma {:induction false} StrAscendingUnique(xs: seq<string>, ys: seq<string>)
    requires StrAscending(xs) && StrAscending(ys)
    requires forall x :: x in xs <==> x in ys
    ensures xs == ys
    decreases |xs|
  {
    if xs != [] { assert xs[0] in ys; }
    if ys != [] { assert ys[0] in xs; }
    if xs != [] && ys != [] {
      if xs[0] != ys[0] {
        assert ys[0] in xs;
        var k :| 0 <= k < |xs| && xs[k] == ys[0];
        assert StrLess(xs[0], ys[0]);
        assert xs[0] in ys;
        var m :| 0 <= m < |ys| && ys[m] == xs[0];
        assert StrLess(ys[0], xs[0]);
        StrLessTransitive(xs[0], ys[0], xs[0]);
        StrLessIrreflexive(xs[0]);
      }
      forall x ensures x in xs[1..] <==> x in ys[1..] {
        if x in xs[1..] {
          var k :| 1 <= k < |xs| && xs[k] == x;
          assert StrLess(xs[0], x);
          StrLessIrreflexive(x);
          assert x in ys;
        }
        if x in ys[1..] {
          var k :| 1 <= k < |ys| && ys[k] == x;
          assert StrLess(ys[0], x);
          StrLessIrreflexive(x);
          assert x in xs;
        }
      }
      StrAscendingUnique(xs[1..], ys[1..]);
      assert xs == [xs[0]] + xs[1..] && ys == [ys[0]] + ys[1..];
    }
  }

  /** Python's `s.replace(c, r)` for a one-character pattern. */
  function ReplaceChar(s: string, c: char, r: string): string
  {
    if s == [] then "" else (if s[0] == c then r else [s[0]]) + ReplaceChar(s[1..], c, r)
  }

  lemma {:induction false} ReplaceCharConcat(a: string, b: string, c: char, r: string)
    ensures ReplaceChar(a + b, c, r) == ReplaceChar(a, c, r) + ReplaceChar(b, c, r)
  {
    if a != [] {
      assert (a + b)[1..] == a[1..] + b;
      ReplaceCharConcat(a[1..], b, c, r);
    } else {
      assert a + b == b;
    }
  }

  /** The number of occurrences of `c` in `s`. */
  function CountChar(s: string, c: char): nat
  {
    if s == [] then 0 else (if s[0] == c then 1 else 0) + CountChar(s[1..], c)
  }

  lemma {:induction false} CountCharConcat(a: string, b: string, c: char)
    ensures CountChar(a + b, c) == CountChar(a, c) + CountChar(b, c)
  {
    if a != [] {
      assert (a + b)[1..] == a[1..] + b;
      CountCharConcat(a[1..], b, c);
    } else {
      assert a + b == b;
    }
  }

  lemma {:induction false} CountCharIn(s: string, c: char)
    ensures CountChar(s, c) > 0 <==> c in s
  {
    if s != [] {
      CountCharIn(s[1..], c);
      assert s == [s[0]] + s[1..];
    }
  }

  /** `s.split(sep)` has one more piece than `s` has separators. */
  lemma {:induction false} SplitCount(s: string, sep: char)
    ensures |Split(s, sep)| == CountChar(s, sep) + 1
    decreases |s|
  {
    if s != [] {
      SplitCount(s[1..], sep);
    }
  }

  /** Splitting at a separator splits the two sides independently. */
  lemma {:induction false} SplitConcat(a: string, b: string, sep: char)
    ensures Split(a + [sep] + b, sep) == Split(a, sep) + Split(b, sep)
    decreases |a|
  {
    if a == [] {
      assert a + [sep] + b == [sep] + b;
      assert ([sep] + b)[1..] == b;
    } else {
      assert (a + [sep] + b)[1..] == a[1..] + [sep] + b;
      assert (a + [sep] + b)[0] == a[0];
      SplitConcat(a[1..], b, sep);
    }
  }

  /** Text without the separator is a single piece. */
  lemma SplitNone(s: string, sep: char)
    requires sep !in s
    ensures Split(s, sep) == [s]
  {
    SplitCount(s, sep);
    CountCharIn(s, sep);
    JoinSplit(s, sep);
  }

  lemma {:induction false} ReplaceCharAbsent(s: string, c: char, r: string)
    requires c !in s
    ensures ReplaceChar(s, c, r) == s
  {
    if s != [] {
      ReplaceCharAbsent(s[1..], c, r);
      assert s == [s[0]] + s[1..];
    }
  }

  lemma {:induction false} RepeatCount(s: string, n: nat, c: char)
    ensures CountChar(Repeat(s, n), c) == n * CountChar(s, c)
  {
    if n > 0 {
      var k := CountChar(s, c);
      assert Repeat(s, n) == s + Repeat(s, n - 1);
      RepeatCount(s, n - 1, c);
      CountCharConcat(s, Repeat(s, n - 1), c);
      MulStep(n, k);
    }
  }

  lemma MulStep(n: nat, k: nat)
    requires n > 0
    ensures n * k == k + (n - 1) * k
  {
  }
}
