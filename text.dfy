/**
 * The parts of Python's str that the report code leans on: the ordering `<`
 * that `sorted` uses, `str.split` and `str.join`, `str.startswith`, and the
 * base-10 conversions `int(s)` and `str(n)`.
 */
module Text {
  import opened Wrappers

  // ----- Python's ordering of str -----

  /** Python's `a < b` on str: lexicographic by code point, a proper prefix first. */
  predicate Less(a: string, b: string)
    decreases |a|
  {
    if a == [] then b != []
    else if b == [] then false
    else if a[0] == b[0] then Less(a[1..], b[1..])
    else a[0] < b[0]
  }

  /** Python's `a <= b` on str. */
  predicate LessEq(a: string, b: string)
  {
    a == b || Less(a, b)
  }

  lemma {:induction false} LessIrreflexive(a: string)
    ensures !Less(a, a)
  {
    if a != [] {
      LessIrreflexive(a[1..]);
    }
  }

  lemma {:induction false} LessAsymmetric(a: string, b: string)
    requires Less(a, b)
    ensures !Less(b, a)
  {
    if a != [] && b != [] && a[0] == b[0] {
      LessAsymmetric(a[1..], b[1..]);
    }
  }

  lemma {:induction false} LessTransitive(a: string, b: string, c: string)
    requires Less(a, b) && Less(b, c)
    ensures Less(a, c)
  {
    if a != [] && a[0] == b[0] && b[0] == c[0] {
      LessTransitive(a[1..], b[1..], c[1..]);
    }
  }

  lemma {:induction false} LessTotal(a: string, b: string)
    ensures a == b || Less(a, b) || Less(b, a)
  {
    if a != [] && b != [] && a[0] == b[0] {
      LessTotal(a[1..], b[1..]);
      assert a == [a[0]] + a[1..] && b == [b[0]] + b[1..];
    }
  }

  lemma LessEqTransitive(a: string, b: string, c: string)
    requires LessEq(a, b) && LessEq(b, c)
    ensures LessEq(a, c)
  {
    if a != b && b != c {
      LessTransitive(a, b, c);
    }
  }

  // ----- sorted(): sorting a list of str -----

  predicate Sorted(s: seq<string>)
  {
    forall i, j :: 0 <= i < j < |s| ==> LessEq(s[i], s[j])
  }

  predicate StrictlySorted(s: seq<string>)
  {
    forall i, j :: 0 <= i < j < |s| ==> Less(s[i], s[j])
  }

  predicate NoDup<T(==)>(s: seq<T>)
  {
    forall i, j :: 0 <= i < j < |s| ==> s[i] != s[j]
  }

  lemma SortedCons(a: string, t: seq<string>, x: string, rest: seq<string>)
    requires Sorted(t) && multiset(t) == multiset(rest) + multiset{x}
    requires LessEq(a, x) && forall y :: y in rest ==> LessEq(a, y)
    ensures Sorted([a] + t)
  {
    forall j | 0 <= j < |t|
      ensures LessEq(a, t[j])
    {
      assert t[j] in multiset(t);
      if t[j] != x {
        assert t[j] in multiset(rest);
      }
    }
  }

  function Insert(x: string, s: seq<string>): (r: seq<string>)
    requires Sorted(s)
    ensures Sorted(r)
    ensures multiset(r) == multiset(s) + multiset{x}
  {
    if s == [] then [x]
    else if LessEq(x, s[0]) then
      SortedFront(x, s);
      [x] + s
    else
      var t := Insert(x, s[1..]);
      LessTotal(x, s[0]);
      SortedHeadLeast(s);
      SortedCons(s[0], t, x, s[1..]);
      assert s == [s[0]] + s[1..];
      [s[0]] + t
  }

  lemma SortedFront(x: string, s: seq<string>)
    requires Sorted(s) && s != [] && LessEq(x, s[0])
    ensures Sorted([x] + s)
  {
    forall j | 0 <= j < |s| ensures LessEq(x, s[j]) {
      if j > 0 {
        LessEqTransitive(x, s[0], s[j]);
      }
    }
  }

  lemma SortedHeadLeast(s: seq<string>)
    requires Sorted(s) && s != []
    ensures Sorted(s[1..])
    ensures forall y :: y in s[1..] ==> LessEq(s[0], y)
  {
    SortedTail(s);
    forall y | y in s[1..] ensures LessEq(s[0], y) {
      var k :| 0 <= k < |s[1..]| && s[1..][k] == y;
      assert s[k + 1] == y;
    }
  }

  /** Python's `sorted(s)` for a list of str (insertion sort; the order is total, so stability is moot). */
  function Sort(s: seq<string>): (r: seq<string>)
    ensures Sorted(r)
    ensures multiset(r) == multiset(s)
  {
    if s == [] then []
    else
      assert s == [s[0]] + s[1..];
      Insert(s[0], Sort(s[1..]))
  }

  /** Two sorted lists with the same elements, counted with multiplicity, are the same list. */
  lemma {:induction false} SortedUnique(a: seq<string>, b: seq<string>)
    requires Sorted(a) && Sorted(b) && multiset(a) == multiset(b)
    ensures a == b
    decreases |a|
  {
    if a != [] {
      SortedHead(a, b);
      SortedTail(a);
      SortedTail(b);
      assert multiset(a) == multiset{a[0]} + multiset(a[1..]) by {
        assert a == [a[0]] + a[1..];
      }
      assert multiset(b) == multiset{b[0]} + multiset(b[1..]) by {
        assert b == [b[0]] + b[1..];
      }
      assert multiset(a[1..]) == multiset(a) - multiset{a[0]};
      assert multiset(b[1..]) == multiset(b) - multiset{b[0]};
      SortedUnique(a[1..], b[1..]);
      assert a == [a[0]] + a[1..] && b == [b[0]] + b[1..];
    } else {
      assert |b| == |multiset(b)| == |multiset(a)| == 0;
    }
  }

  /** Two sorted lists with the same elements start with the same element. */
  lemma SortedHead(a: seq<string>, b: seq<string>)
    requires Sorted(a) && Sorted(b) && multiset(a) == multiset(b) && a != []
    ensures b != [] && a[0] == b[0]
  {
    assert a[0] in multiset(b);
    var k :| 0 <= k < |b| && b[k] == a[0];
    assert b[0] in multiset(a);
    var m :| 0 <= m < |a| && a[m] == b[0];
    assert LessEq(b[0], a[0]) && LessEq(a[0], b[0]);
    if a[0] != b[0] {
      LessAsymmetric(a[0], b[0]);
    }
  }

  lemma SortedTail(a: seq<string>)
    requires Sorted(a) && a != []
    ensures Sorted(a[1..])
  {
    assert forall i :: 0 <= i < |a| - 1 ==> a[1..][i] == a[i + 1];
  }

  /** `sorted` depends only on which strings occur how often, not on their order. */
  lemma SortIgnoresOrder(s: seq<string>, t: seq<string>)
    requires multiset(s) == multiset(t)
    ensures Sort(s) == Sort(t)
  {
    SortedUnique(Sort(s), Sort(t));
  }

  lemma {:induction false} NoDupCounts<T>(s: seq<T>)
    requires NoDup(s)
    ensures forall x :: multiset(s)[x] <= 1
    decreases |s|
  {
    if s != [] {
      var init := s[..|s| - 1];
      assert s == init + [s[|s| - 1]];
      assert NoDup(init);
      NoDupCounts(init);
      assert s[|s| - 1] !in init;
    }
  }

  lemma CountsNoDup<T>(s: seq<T>)
    requires forall x :: multiset(s)[x] <= 1
    ensures NoDup(s)
  {
    forall i, j | 0 <= i < j < |s|
      ensures s[i] != s[j]
    {
      assert s == s[..j] + [s[j]] + s[j + 1..];
      assert multiset(s) == multiset(s[..j]) + multiset{s[j]} + multiset(s[j + 1..]);
      assert s[..j][i] == s[i];
      assert s[i] in multiset(s[..j]);
      assert multiset(s)[s[j]] == multiset(s[..j])[s[j]] + 1 + multiset(s[j + 1..])[s[j]];
      assert multiset(s)[s[j]] <= 1;
    }
  }

  /** The elements of s, each once, in order of first occurrence (pandas' `unique`). */
  function Distinct<T(==)>(s: seq<T>): (r: seq<T>)
    ensures NoDup(r)
    ensures forall i :: 0 <= i < |r| ==> r[i] in s
    ensures forall i :: 0 <= i < |s| ==> s[i] in r
    decreases |s|
  {
    if s == [] then []
    else
      var t := Distinct(s[..|s| - 1]);
      assert s == s[..|s| - 1] + [s[|s| - 1]];
      if s[|s| - 1] in t then t else t + [s[|s| - 1]]
  }

  /** `sorted(set(s))`: the distinct strings of s in increasing order. */
  function SortedSet(s: seq<string>): (r: seq<string>)
    ensures StrictlySorted(r)
    ensures forall x :: x in r <==> x in s
  {
    var d := Distinct(s);
    var r := Sort(d);
    NoDupCounts(d);
    assert forall x :: multiset(r)[x] == multiset(d)[x];
    CountsNoDup(r);
    assert forall x :: x in r <==> x in multiset(r);
    r
  }

  /** A strictly increasing list repeats nothing. */
  lemma StrictlySortedNoDup(s: seq<string>)
    requires StrictlySorted(s)
    ensures NoDup(s)
  {
    forall i, j | 0 <= i < j < |s|
      ensures s[i] != s[j]
    {
      LessIrreflexive(s[i]);
    }
  }

  // ----- str.join, str.split, str.startswith -----

  /** Python's `sep.join(parts)`. */
  function Join(sep: string, parts: seq<string>): string
  {
    if parts == [] then ""
    else if |parts| == 1 then parts[0]
    else parts[0] + sep + Join(sep, parts[1..])
  }

  /** Python's `s.split(c)` for a one-character separator c. */
  function Split(s: string, c: char): (parts: seq<string>)
    ensures |parts| >= 1
    decreases |s|
  {
    if s == [] then [""]
    else
      var rest := Split(s[1..], c);
      if s[0] == c then [""] + rest else [[s[0]] + rest[0]] + rest[1..]
  }

  /** Splitting and joining with the same separator gives back the string. */
  lemma {:induction false} SplitJoin(s: string, c: char)
    ensures Join([c], Split(s, c)) == s
    decreases |s|
  {
    if s != [] {
      SplitJoin(s[1..], c);
      SplitJoinStep(s, c);
    }
  }

  /** One step of SplitJoin: from the rest of the string to the whole. */
  lemma SplitJoinStep(s: string, c: char)
    requires s != [] && Join([c], Split(s[1..], c)) == s[1..]
    ensures Join([c], Split(s, c)) == s
  {
    var rest := Split(s[1..], c);
    if s[0] == c {
      JoinEmptyFirst(c, rest);
    } else {
      JoinExtendFirst(c, s[0], rest);
    }
    assert s == [s[0]] + s[1..];
  }

  lemma JoinEmptyFirst(c: char, rest: seq<string>)
    requires |rest| >= 1
    ensures Join([c], [""] + rest) == [c] + Join([c], rest)
  {
    var parts := [""] + rest;
    assert |parts| > 1 && parts[0] == "" && parts[1..] == rest;
    assert Join([c], parts) == parts[0] + [c] + Join([c], parts[1..]);
    assert "" + [c] == [c];
  }

  lemma JoinExtendFirst(c: char, x: char, rest: seq<string>)
    requires |rest| >= 1
    ensures Join([c], [[x] + rest[0]] + rest[1..]) == [x] + Join([c], rest)
  {
    var parts := [[x] + rest[0]] + rest[1..];
    if |rest| > 1 {
      var tail := Join([c], rest[1..]);
      assert parts[1..] == rest[1..];
      assert Join([c], parts) == ([x] + rest[0]) + [c] + tail;
      assert Join([c], rest) == rest[0] + [c] + tail;
      ConcatAssoc([x], rest[0], [c], tail);
    }
  }

  lemma ConcatAssoc<T>(a: seq<T>, b: seq<T>, c: seq<T>, d: seq<T>)
    ensures (a + b) + c + d == a + (b + c + d)
  {
  }

  /** The separator occurs in no piece, and s holds c exactly when it splits into more than one piece. */
  lemma {:induction false} SplitPieces(s: string, c: char)
    ensures forall p :: p in Split(s, c) ==> c !in p
    ensures (c in s) <==> |Split(s, c)| > 1
    decreases |s|
  {
    if s != [] {
      SplitPieces(s[1..], c);
      assert s == [s[0]] + s[1..];
      var rest := Split(s[1..], c);
      if s[0] != c {
        forall p | p in Split(s, c) ensures c !in p {
          if p != [s[0]] + rest[0] {
            assert p in rest[1..];
          }
        }
      }
    }
  }

  /** A string with one separator splits into the two sides. */
  lemma {:induction false} SplitPair(x: string, y: string, c: char)
    requires c !in x && c !in y
    ensures Split(x + [c] + y, c) == [x, y]
    decreases |x|
  {
    if x == [] {
      assert x + [c] + y == [c] + y;
      SplitPieces(y, c);
      SplitJoin(y, c);
    } else {
      assert (x + [c] + y)[1..] == x[1..] + [c] + y;
      SplitPair(x[1..], y, c);
      assert [x[0]] + x[1..] == x;
    }
  }

  /** Python's `s.startswith(prefix)`. */
  predicate StartsWith(s: string, prefix: string)
  {
    |prefix| <= |s| && s[..|prefix|] == prefix
  }

  // ----- int(s) and str(n) -----

  predicate IsDigit(c: char)
  {
    '0' <= c <= '9'
  }

  /**
   * The characters `int()` strips from both ends: the six ASCII whitespace
   * characters, and the non-ASCII characters for which `str.isspace()` holds.
   * The ASCII separators U+001C..U+001F satisfy `isspace()` but are not
   * stripped, so `int()` rejects them.
   */
  predicate IsSpace(c: char)
  {
    || ('\t' <= c <= '\r')
    || c == ' '
    || c == '\U{85}' || c == '\U{A0}' || c == '\U{1680}'
    || ('\U{2000}' <= c <= '\U{200A}')
    || c == '\U{2028}' || c == '\U{2029}' || c == '\U{202F}' || c == '\U{205F}' || c == '\U{3000}'
  }

  function StripStart(s: string): string
  {
    if s != [] && IsSpace(s[0]) then StripStart(s[1..]) else s
  }

  function StripEnd(s: string): string
  {
    if s != [] && IsSpace(s[|s| - 1]) then StripEnd(s[..|s| - 1]) else s
  }

  /** Python's grammar for the digits of a base-10 int: ASCII digits, single underscores only between two digits. */
  predicate IsDigitRun(s: string)
  {
    && |s| > 0
    && IsDigit(s[0])
    && forall i :: 0 <= i < |s| ==> IsDigit(s[i]) || (s[i] == '_' && DigitAfter(s, i))
  }

  /** The character after position `i` of `s` exists and is a digit. */
  predicate DigitAfter(s: string, i: int)
  {
    0 <= i && i + 1 < |s| && IsDigit(s[i + 1])
  }

  /** The number a run of digits denotes; underscores are skipped. */
  function DigitsValue(s: string): nat
  {
    if s == [] then 0
    else
      var c := s[|s| - 1];
      if IsDigit(c) then 10 * DigitsValue(s[..|s| - 1]) + (c as int - '0' as int)
      else DigitsValue(s[..|s| - 1])
  }

  /** The default of `sys.int_info.default_max_str_digits`: the most digits `int()` converts from, and `str()` to, text. */
  const MaxStrDigits := 4300

  /** How many digits a string holds; underscores do not count towards the limit. */
  function DigitCount(s: string): nat
  {
    if s == [] then 0 else (if IsDigit(s[|s| - 1]) then 1 else 0) + DigitCount(s[..|s| - 1])
  }

  /** Digits that `int()` accepts: a well-formed run within the digit limit. */
  predicate Convertible(s: string)
  {
    IsDigitRun(s) && DigitCount(s) <= MaxStrDigits
  }

  /** Python's `int(s)` on a str, base 10; None where `int` raises ValueError. */
  function ParseInt(s: string): Option<int>
  {
    var t := StripEnd(StripStart(s));
    if t != [] && (t[0] == '+' || t[0] == '-') then
      if Convertible(t[1..]) then
        var n: int := DigitsValue(t[1..]);
        Some(if t[0] == '-' then -n else n)
      else None
    else if Convertible(t) then Some(DigitsValue(t))
    else None
  }

  /** A string of only digits counts every character towards the limit. */
  lemma {:induction false} DigitCountAll(s: string)
    requires forall i :: 0 <= i < |s| ==> IsDigit(s[i])
    ensures DigitCount(s) == |s|
  {
    if s != [] {
      DigitCountAll(s[..|s| - 1]);
    }
  }

  /** `int()` refuses the separators U+001C..U+001F around a number, and more than 4300 digits. */
  lemma ParseIntRefuses(d: string)
    requires forall i :: 0 <= i < |d| ==> IsDigit(d[i])
    ensures ParseInt("\U{1C}" + d) == None && ParseInt(d + "\U{1F}") == None
    ensures |d| > MaxStrDigits ==> ParseInt(d) == None
  {
    var b := "\U{1C}" + d;
    NothingToStrip(b);
    assert b[0] == '\U{1C}';
    var e := d + "\U{1F}";
    NothingToStrip(e);
    assert !IsDigitRun(e) by {
      var k := |e| - 1;
      assert e[k] == '\U{1F}';
    }
    if |d| > MaxStrDigits {
      NothingToStrip(d);
      DigitCountAll(d);
    }
  }

  /** Text that neither starts nor ends with whitespace is left as it is by the stripping. */
  lemma NothingToStrip(s: string)
    requires s != [] && !IsSpace(s[0]) && !IsSpace(s[|s| - 1])
    ensures StripEnd(StripStart(s)) == s
  {
  }

  /** Python's `str(n)` for a non-negative int. */
  function NatToString(n: nat): (s: string)
    ensures s != []
    ensures forall i :: 0 <= i < |s| ==> IsDigit(s[i])
  {
    if n < 10 then [('0' as int + n) as char]
    else NatToString(n / 10) + [('0' as int + n % 10) as char]
  }

  lemma {:induction false} NatToStringValue(n: nat)
    ensures DigitsValue(NatToString(n)) == n
  {
    if n >= 10 {
      var s := NatToString(n);
      assert s[..|s| - 1] == NatToString(n / 10);
      NatToStringValue(n / 10);
    }
  }

  /** `int(str(n)) == n` whenever `str(n)` is within the digit limit (beyond it `str` itself raises ValueError). */
  lemma ParseNatToString(n: nat)
    requires |NatToString(n)| <= MaxStrDigits
    ensures ParseInt(NatToString(n)) == Some(n)
  {
    var s := NatToString(n);
    assert !IsSpace(s[0]) && !IsSpace(s[|s| - 1]);
    assert StripEnd(StripStart(s)) == s;
    assert IsDigitRun(s);
    DigitCountAll(s);
    NatToStringValue(n);
  }

  lemma NatToStringInjective(m: nat, n: nat)
    requires NatToString(m) == NatToString(n)
    ensures m == n
  {
    NatToStringValue(m);
    NatToStringValue(n);
  }

  /** Numbers up to 999 are written with at most three digits. */
  lemma {:induction false} NatToStringShort(n: nat)
    requires n < 1000
    ensures |NatToString(n)| <= 3
  {
    if n >= 10 {
      NatToStringShort(n / 10);
    }
  }
}
