/** String rules shared by the Python scripts and the Node services: substring
    search, single-character splitting, joining, Python's `str.strip`, the
    JavaScript `trim`, ASCII lower-casing, and decimal rendering and parsing
    of integers (Python's `str(n)` and `int(s)`). */
module Text {

  /** `sub` occurs in `s` starting at position `i`. */
  predicate OccursAt(s: string, sub: string, i: int) {
    0 <= i && i + |sub| <= |s| && s[i..i + |sub|] == sub
  }

  /** An occurrence of a two-character string is those two characters. */
  lemma OccursPair(s: string, a: char, b: char, i: int)
    ensures OccursAt(s, [a, b], i) ==> s[i] == a && s[i + 1] == b
  {
    if OccursAt(s, [a, b], i) {
      assert s[i..i + 2][0] == s[i] && s[i..i + 2][1] == s[i + 1];
    }
  }

  /** Python's `sub in s` and JavaScript's `s.includes(sub)`. */
  predicate Contains(s: string, sub: string) {
    exists i | 0 <= i <= |s| - |sub| :: OccursAt(s, sub, i)
  }

  predicate StartsWith(s: string, p: string) {
    |p| <= |s| && s[..|p|] == p
  }

  /** An occurrence inside `s` is still one once text is added around `s`. */
  lemma {:induction false} ContainsInfix(a: string, s: string, b: string, sub: string)
    requires Contains(s, sub)
    ensures Contains(a + s + b, sub)
  {
    var i :| 0 <= i <= |s| - |sub| && OccursAt(s, sub, i);
    assert (a + s + b)[|a| + i..|a| + i + |sub|] == s[i..i + |sub|];
    assert OccursAt(a + s + b, sub, |a| + i);
  }

  // ---------------------------------------------------------------------
  // Whitespace

  /** The characters for which Python's `str.isspace()` holds; `str.strip()`
      and `str.split()` without arguments use exactly this set. */
  predicate IsPySpace(c: char) {
    var n := c as int;
    n == 0x20 || (0x09 <= n <= 0x0D) || (0x1C <= n <= 0x1F) || n == 0x85 || n == 0xA0
    || n == 0x1680 || (0x2000 <= n <= 0x200A) || n == 0x2028 || n == 0x2029
    || n == 0x202F || n == 0x205F || n == 0x3000
  }

  /** The characters that JavaScript's `String.prototype.trim` removes and
      that the regular-expression class `\s` matches. */
  predicate IsJsSpace(c: char) {
    var n := c as int;
    n == 0x20 || (0x09 <= n <= 0x0D) || n == 0xA0
    || n == 0x1680 || (0x2000 <= n <= 0x200A) || n == 0x2028 || n == 0x2029
    || n == 0x202F || n == 0x205F || n == 0x3000 || n == 0xFEFF
  }

  /** Every character of `s` is whitespace by the rule `space`. */
  predicate AllSpace(s: string, space: char -> bool) {
    forall i :: 0 <= i < |s| ==> space(s[i])
  }

  predicate AllPySpace(s: string) {
    AllSpace(s, IsPySpace)
  }

  predicate AllJsSpace(s: string) {
    AllSpace(s, IsJsSpace)
  }

  /** The first position at or after `lo` that is not whitespace, or `|s|`. */
  function SkipLeft(s: string, space: char -> bool, lo: nat): (i: nat)
    requires lo <= |s|
    ensures lo <= i <= |s|
    decreases |s| - lo
  {
    if lo < |s| && space(s[lo]) then SkipLeft(s, space, lo + 1) else lo
  }

  /** What is skipped is whitespace, and skipping stops at text. */
  lemma {:induction false} SkipLeftSpec(s: string, space: char -> bool, lo: nat)
    requires lo <= |s|
    ensures var i := SkipLeft(s, space, lo);
      && (forall k :: lo <= k < i ==> space(s[k]))
      && (i < |s| ==> !space(s[i]))
    decreases |s| - lo
  {
    if lo < |s| && space(s[lo]) {
      SkipLeftSpec(s, space, lo + 1);
    }
  }

  /** The end of `s[lo..hi]` once its trailing whitespace is skipped. */
  function SkipRight(s: string, space: char -> bool, lo: nat, hi: nat): (j: nat)
    requires lo <= hi <= |s|
    ensures lo <= j <= hi
    decreases hi
  {
    if lo < hi && space(s[hi - 1]) then SkipRight(s, space, lo, hi - 1) else hi
  }

  lemma {:induction false} SkipRightSpec(s: string, space: char -> bool, lo: nat, hi: nat)
    requires lo <= hi <= |s|
    ensures var j := SkipRight(s, space, lo, hi);
      && (forall k :: j <= k < hi ==> space(s[k]))
      && (lo < j ==> !space(s[j - 1]))
    decreases hi
  {
    if lo < hi && space(s[hi - 1]) {
      SkipRightSpec(s, space, lo, hi - 1);
    }
  }

  /** `s` without its leading and trailing whitespace. */
  function Strip(s: string, space: char -> bool): string {
    var i := SkipLeft(s, space, 0);
    s[i..SkipRight(s, space, i, |s|)]
  }

  /** Python's `s.strip()`. */
  function PyStrip(s: string): string {
    Strip(s, IsPySpace)
  }

  /** JavaScript's `s.trim()`. */
  function JsTrim(s: string): string {
    Strip(s, IsJsSpace)
  }

  /** Stripping keeps the part of `s` between a whitespace prefix and a
      whitespace suffix, and that part neither starts nor ends with
      whitespace. */
  lemma StripInfix(s: string, space: char -> bool)
    ensures var i := SkipLeft(s, space, 0); var j := SkipRight(s, space, i, |s|);
      && Strip(s, space) == s[i..j]
      && (forall k :: 0 <= k < i ==> space(s[k]))
      && (forall k :: j <= k < |s| ==> space(s[k]))
      && (i < j ==> !space(s[i]) && !space(s[j - 1]))
  {
    var i := SkipLeft(s, space, 0);
    SkipLeftSpec(s, space, 0);
    SkipRightSpec(s, space, i, |s|);
  }

  /** A string strips to the empty string exactly when it is all whitespace. */
  lemma StripEmptyIff(s: string, space: char -> bool)
    ensures Strip(s, space) == [] <==> AllSpace(s, space)
  {
    StripInfix(s, space);
    var i := SkipLeft(s, space, 0);
    var j := SkipRight(s, space, i, |s|);
    if i < j {
      assert Strip(s, space)[0] == s[i];
      assert !space(s[i]);
    }
  }

  /** A string that starts and ends with text strips to itself. */
  lemma StripNoSpace(s: string, space: char -> bool)
    requires s != [] && !space(s[0]) && !space(s[|s| - 1])
    ensures Strip(s, space) == s
  {
    assert SkipLeft(s, space, 0) == 0;
    assert SkipRight(s, space, 0, |s|) == |s|;
  }

  // ---------------------------------------------------------------------
  // Case

  function LowerChar(c: char): char {
    if 'A' <= c <= 'Z' then (c as int + 32) as char else c
  }

  /** `s.lower()`, restricted to the ASCII letters. */
  function Lower(s: string): (r: string)
    ensures |r| == |s|
    ensures forall i :: 0 <= i < |s| ==> r[i] == LowerChar(s[i])
  {
    if s == [] then [] else [LowerChar(s[0])] + Lower(s[1..])
  }

  // ---------------------------------------------------------------------
  // Splitting and joining on one character

  /** `s.split(c)` in Python and in JavaScript for a one-character
      separator: the pieces between consecutive occurrences of `c`. */
  function Split(s: string, c: char): (r: seq<string>)
    ensures |r| >= 1
    decreases |s|
  {
    if c !in s then [s]
    else
      var i := IndexOf(s, c);
      [s[..i]] + Split(s[i + 1..], c)
  }

  /** No piece holds the separator. */
  lemma {:induction false} SplitAvoids(s: string, c: char)
    ensures forall k :: 0 <= k < |Split(s, c)| ==> c !in Split(s, c)[k]
    decreases |s|
  {
    if c in s {
      SplitAvoids(s[IndexOf(s, c) + 1..], c);
    }
  }

  /** The position of the first `c` in `s`. */
  function IndexOf(s: string, c: char): (i: nat)
    requires c in s
    ensures i < |s| && s[i] == c && c !in s[..i]
  {
    if s[0] == c then 0 else 1 + IndexOf(s[1..], c)
  }

  lemma {:induction false} IndexOfAfter(a: string, c: char, b: string)
    requires c !in a
    ensures c in a + [c] + b && IndexOf(a + [c] + b, c) == |a|
  {
    if a != [] {
      assert (a + [c] + b)[1..] == a[1..] + [c] + b;
      IndexOfAfter(a[1..], c, b);
    }
  }

  lemma {:induction false} IndexOfPrefix(a: string, t: string, c: char)
    requires c in a
    ensures c in a + t && IndexOf(a + t, c) == IndexOf(a, c)
  {
    if a[0] != c {
      assert (a + t)[1..] == a[1..] + t;
      IndexOfPrefix(a[1..], t, c);
    }
  }

  /** Splitting `a`, a separator and a separator-free `b` gives the pieces
      of `a` followed by `b`. */
  lemma {:induction false} SplitAppendSep(a: string, c: char, b: string)
    requires c !in b
    ensures Split(a + [c] + b, c) == Split(a, c) + [b]
    decreases |a|
  {
    if c !in a {
      SplitCons(a, c, b);
      assert Split(b, c) == [b];
    } else {
      var i := IndexOf(a, c);
      var p, t := a[..i], a[i + 1..];
      assert a == p + [c] + t;
      assert a + [c] + b == p + [c] + (t + [c] + b);
      SplitCons(p, c, t + [c] + b);
      SplitCons(p, c, t);
      SplitAppendSep(t, c, b);
      Associative([p], Split(t, c), [b]);
    }
  }

  /** A first piece free of the separator comes off the front. */
  lemma SplitCons(a: string, c: char, rest: string)
    requires c !in a
    ensures Split(a + [c] + rest, c) == [a] + Split(rest, c)
  {
    var s := a + [c] + rest;
    IndexOfAfter(a, c, rest);
    assert s[..|a|] == a;
    assert s[|a| + 1..] == rest;
  }

  lemma Associative<T>(x: seq<T>, y: seq<T>, z: seq<T>)
    ensures x + (y + z) == (x + y) + z
  {
  }

  /** `sep.join(parts)`. */
  function Join(parts: seq<string>, sep: string): (r: string)
    ensures parts == [] ==> r == []
  {
    if parts == [] then []
    else if |parts| == 1 then parts[0]
    else parts[0] + sep + Join(parts[1..], sep)
  }

  /** A character in neither the parts nor the separator is not in the
      joined string. */
  lemma {:induction false} JoinAvoids(parts: seq<string>, sep: string, c: char)
    requires c !in sep
    requires forall k :: 0 <= k < |parts| ==> c !in parts[k]
    ensures c !in Join(parts, sep)
  {
    if |parts| > 1 {
      JoinAvoids(parts[1..], sep, c);
    }
  }

  lemma {:induction false} SplitJoin(parts: seq<string>, c: char)
    requires parts != []
    requires forall k :: 0 <= k < |parts| ==> c !in parts[k]
    ensures Split(Join(parts, [c]), c) == parts
    decreases |parts|
  {
    if |parts| > 1 {
      var s := Join(parts, [c]);
      var rest := Join(parts[1..], [c]);
      assert s == parts[0] + [c] + rest;
      assert s[|parts[0]|] == c;
      assert c in s;
      IndexOfAfter(parts[0], c, rest);
      assert s[..|parts[0]|] == parts[0];
      assert s[|parts[0]| + 1..] == rest;
      SplitJoin(parts[1..], c);
    }
  }

  /** Every piece of `s.split(c)` is an infix of `s`, and re-joining the
      pieces with `c` gives `s` back. */
  lemma {:induction false} JoinSplit(s: string, c: char)
    ensures Join(Split(s, c), [c]) == s
    decreases |s|
  {
    if c in s {
      var i := IndexOf(s, c);
      var a, b := s[..i], s[i + 1..];
      var rest := Split(b, c);
      JoinSplit(b, c);
      JoinCons(a, rest, [c]);
      assert s == a + [c] + b;
    }
  }

  lemma JoinCons(p: string, rest: seq<string>, sep: string)
    requires rest != []
    ensures Join([p] + rest, sep) == p + sep + Join(rest, sep)
  {
    assert ([p] + rest)[1..] == rest;
  }

  /** `s.split(sep, 1)` in Python, unpacked into two names: the text before
      the first occurrence of `sep` and the text after it, or `NoSep` when
      `sep` does not occur (the unpacking then raises). */
  function SplitFirst(s: string, sep: string): (r: Option2)
    requires |sep| > 0
    ensures r.Pair? ==> s == r.before + sep + r.after
    ensures r.Pair? ==> forall i :: 0 <= i < |r.before| ==> !OccursAt(s, sep, i)
    ensures r.NoSep? ==> forall i :: !OccursAt(s, sep, i)
    decreases |s|
  {
    if |s| < |sep| then
      NoSep
    else if s[..|sep|] == sep then
      Pair([], s[|sep|..])
    else
      match SplitFirst(s[1..], sep)
      case NoSep =>
        forall i ensures !OccursAt(s, sep, i) {
          if i == 0 {
            assert s[0..|sep|] == s[..|sep|];
          } else if 0 < i && i + |sep| <= |s| {
            OccursShift(s, sep, i);
          }
        }
        NoSep
      case Pair(b, a) =>
        var before := [s[0]] + b;
        forall i | 0 <= i < |before| ensures !OccursAt(s, sep, i) {
          if i == 0 {
            assert s[0..|sep|] == s[..|sep|];
          } else if i + |sep| <= |s| {
            OccursShift(s, sep, i);
          }
        }
        Pair(before, a)
  }

  lemma OccursShift(s: string, sep: string, i: int)
    requires 0 < i && |s| > 0
    ensures OccursAt(s, sep, i) <==> OccursAt(s[1..], sep, i - 1)
  {
    if i + |sep| <= |s| {
      assert s[i..i + |sep|] == s[1..][i - 1..i - 1 + |sep|];
    }
  }

  /** `sep in s` decides whether `s.split(sep, 1)` unpacks into two names. */
  lemma SplitFirstFound(s: string, sep: string)
    requires |sep| > 0
    ensures SplitFirst(s, sep).Pair? <==> Contains(s, sep)
  {
    var r := SplitFirst(s, sep);
    if r.Pair? {
      assert s[|r.before|..|r.before| + |sep|] == sep;
      assert OccursAt(s, sep, |r.before|);
    }
  }

  /** For a one-character separator, `s.split(c, 1)` unpacks exactly when
      `c in s`, and the part before is free of `c`. */
  lemma SplitFirstChar(s: string, c: char)
    ensures SplitFirst(s, [c]).Pair? <==> c in s
    ensures SplitFirst(s, [c]).Pair? ==> c !in SplitFirst(s, [c]).before
  {
    if c in s {
      var i := IndexOf(s, c);
      assert s[i..i + 1] == [c];
      assert OccursAt(s, [c], i);
    }
    SplitFirstCharBefore(s, c);
  }

  lemma SplitFirstCharBefore(s: string, c: char)
    ensures SplitFirst(s, [c]).Pair? ==> c !in SplitFirst(s, [c]).before
  {
    var r := SplitFirst(s, [c]);
    if r.Pair? {
      forall i | 0 <= i < |r.before| ensures r.before[i] != c {
        assert !OccursAt(s, [c], i);
        assert s[i] == r.before[i];
        assert s[i..i + 1] == [s[i]];
      }
    }
  }

  /** The leading run of non-whitespace characters of `s`. */
  function TakeWord(s: string): (r: string)
    ensures |r| <= |s| && r == s[..|r|]
    ensures forall i :: 0 <= i < |r| ==> !IsPySpace(r[i])
    ensures |r| == |s| || IsPySpace(s[|r|])
  {
    if s == [] || IsPySpace(s[0]) then []
    else
      var t := TakeWord(s[1..]);
      assert s[..|t| + 1] == [s[0]] + s[1..][..|t|];
      assert |t| < |s| - 1 ==> s[|t| + 1] == s[1..][|t|];
      [s[0]] + t
  }

  /** Python's `s.split()[0]`: the first whitespace-separated word, or `None`
      where the indexing raises `IndexError` (a blank string). */
  function FirstWord(s: string): (r: Option<string>)
    ensures r.None? <==> AllPySpace(s)
    ensures r.Some? ==> r.value != [] && forall i :: 0 <= i < |r.value| ==> !IsPySpace(r.value[i])
  {
    var i := SkipLeft(s, IsPySpace, 0);
    SkipLeftSpec(s, IsPySpace, 0);
    if i == |s| then None
    else
      assert s[i..][0] == s[i];
      Some(TakeWord(s[i..]))
  }

  lemma {:induction false} TakeWordOfWord(w: string, rest: string)
    requires forall i :: 0 <= i < |w| ==> !IsPySpace(w[i])
    requires rest == [] || IsPySpace(rest[0])
    ensures TakeWord(w + rest) == w
  {
    if w != [] {
      assert (w + rest)[1..] == w[1..] + rest;
      TakeWordOfWord(w[1..], rest);
    } else {
      assert w + rest == rest;
    }
  }

  /** A non-blank word followed by a space, or by nothing, is what
      `split()[0]` returns. */
  lemma FirstWordOfWord(w: string, rest: string)
    requires w != [] && forall i :: 0 <= i < |w| ==> !IsPySpace(w[i])
    requires rest == [] || IsPySpace(rest[0])
    ensures FirstWord(w + rest) == Some(w)
  {
    var s := w + rest;
    assert s[0] == w[0];
    assert SkipLeft(s, IsPySpace, 0) == 0;
    assert s[0..] == s;
    TakeWordOfWord(w, rest);
  }

  datatype Option2 = NoSep | Pair(before: string, after: string)

  /** `s.replace(c, "")`. */
  function Remove<T(==,!new)>(s: seq<T>, c: T): (r: seq<T>)
    ensures c !in r
    ensures forall x :: x != c ==> (x in r <==> x in s)
  {
    if s == [] then []
    else if s[0] == c then Remove(s[1..], c)
    else [s[0]] + Remove(s[1..], c)
  }

  /** The index of the first element satisfying `p`. */
  function FirstWhere<T>(xs: seq<T>, p: T -> bool): (r: Option<nat>)
    ensures r.Some? ==> r.value < |xs| && p(xs[r.value])
    ensures r.Some? ==> forall j :: 0 <= j < r.value ==> !p(xs[j])
    ensures r.None? ==> forall j :: 0 <= j < |xs| ==> !p(xs[j])
  {
    if xs == [] then None
    else if p(xs[0]) then Some(0)
    else match FirstWhere(xs[1..], p)
      case None => None
      case Some(j) => Some(j + 1)
  }

  /** The indices of the elements satisfying `p`, in increasing order: what
      a comprehension `[... for x in xs if p(x)]` visits. */
  function Positions<T>(xs: seq<T>, p: T -> bool): (r: seq<nat>)
    ensures |r| <= |xs|
    ensures forall k :: 0 <= k < |r| ==> r[k] < |xs| && p(xs[r[k]])
    ensures forall k, l :: 0 <= k < l < |r| ==> r[k] < r[l]
    ensures forall i: nat :: i < |xs| && p(xs[i]) ==> i in r
  {
    if xs == [] then []
    else
      var n := |xs| - 1;
      var init := xs[..n];
      var before := Positions(init, p);
      var r := before + (if p(xs[n]) then [n] else []);
      assert forall k :: 0 <= k < |r| ==> r[k] < |xs| && p(xs[r[k]]) by {
        forall k | 0 <= k < |r|
          ensures r[k] < |xs| && p(xs[r[k]])
        {
          if k < |before| {
            assert r[k] == before[k] && init[r[k]] == xs[r[k]];
          }
        }
      }
      assert forall i: nat :: i < |xs| && p(xs[i]) ==> i in r by {
        forall i: nat | i < |xs| && p(xs[i])
          ensures i in r
        {
          if i < n {
            assert init[i] == xs[i];
          }
        }
      }
      r
  }

  /** Element `i` of the middle part of a concatenation. */
  lemma IndexMiddle<T>(a: seq<T>, b: seq<T>, c: seq<T>, i: nat)
    requires i < |b|
    ensures (a + b + c)[|a| + i] == b[i]
  {
  }

  lemma {:induction false} RemoveAppend<T(!new)>(a: seq<T>, b: seq<T>, c: T)
    ensures Remove(a + b, c) == Remove(a, c) + Remove(b, c)
  {
    if a != [] {
      assert (a + b)[1..] == a[1..] + b;
      RemoveAppend(a[1..], b, c);
    } else {
      assert a + b == b;
    }
  }

  lemma {:induction false} RemoveAbsent<T(!new)>(s: seq<T>, c: T)
    requires c !in s
    ensures Remove(s, c) == s
  {
    if s != [] {
      RemoveAbsent(s[1..], c);
      assert s == [s[0]] + s[1..];
    }
  }

  // ---------------------------------------------------------------------
  // Decimal numbers

  predicate IsDigit(c: char) { '0' <= c <= '9' }

  predicate AllDigits(s: string) {
    forall i :: 0 <= i < |s| ==> IsDigit(s[i])
  }

  function DigitChar(d: nat): char
    requires d < 10
  {
    ('0' as int + d) as char
  }

  /** Python's `str(n)` for a natural number. */
  function NatToString(n: nat): (r: string)
    ensures |r| >= 1 && AllDigits(r)
    ensures |r| > 1 ==> r[0] != '0'
  {
    if n < 10 then [DigitChar(n)] else NatToString(n / 10) + [DigitChar(n % 10)]
  }

  /** The value of a string of decimal digits. */
  function DigitsValue(s: string): nat
    requires AllDigits(s)
  {
    if s == [] then 0
    else
      assert IsDigit(s[|s| - 1]);
      DigitsValue(s[..|s| - 1]) * 10 + (s[|s| - 1] as int - '0' as int)
  }

  lemma {:induction false} DigitsValueOfNatToString(n: nat)
    ensures DigitsValue(NatToString(n)) == n
  {
    if n >= 10 {
      var s := NatToString(n);
      assert s[..|s| - 1] == NatToString(n / 10);
      DigitsValueOfNatToString(n / 10);
    }
  }

  /** Distinct numbers render as distinct strings. */
  lemma NatToStringInjective(a: nat, b: nat)
    requires NatToString(a) == NatToString(b)
    ensures a == b
  {
    DigitsValueOfNatToString(a);
    DigitsValueOfNatToString(b);
  }

  /** Python's `str(i)` for an integer. */
  function IntToString(i: int): (r: string)
    ensures |r| >= 1
    ensures i < 0 <==> r[0] == '-'
  {
    if i < 0 then "-" + NatToString(-i) else NatToString(i)
  }

  /** Python's `str(b)` for a bool. */
  function PyBool(b: bool): string {
    if b then "True" else "False"
  }

  /** The digits of `s` with `_` removed, when `s` is a run of digits
      in which single underscores may separate digits (Python's `int`
      accepts `1_000`). */
  predicate UnderscoredDigits(s: string) {
    && |s| >= 1 && IsDigit(s[0]) && IsDigit(s[|s| - 1])
    && (forall i :: 0 <= i < |s| ==> IsDigit(s[i]) || s[i] == '_')
    && (forall i :: 0 <= i < |s| - 1 ==> !(s[i] == '_' && s[i + 1] == '_'))
  }

  lemma RemoveUnderscoreDigits(s: string)
    requires forall i :: 0 <= i < |s| ==> IsDigit(s[i]) || s[i] == '_'
    ensures AllDigits(Remove(s, '_'))
  {
    var r := Remove(s, '_');
    forall i | 0 <= i < |r| ensures IsDigit(r[i]) {
      assert r[i] in r;
      assert r[i] in s;
    }
  }

  /** Python's `int(s)` for a base-10 string: surrounding whitespace
      ignored, an optional sign, then underscored digits; `None` where
      Python raises `ValueError`. */
  function PyInt(s: string): (r: Option<int>)
    ensures r.Some? ==> exists k :: 0 <= k < |PyStrip(s)| && IsDigit(PyStrip(s)[k])
  {
    var t := PyStrip(s);
    var sign := if |t| > 0 && (t[0] == '-' || t[0] == '+') then 1 else 0;
    var body := t[sign..];
    if !UnderscoredDigits(body) then None
    else
      RemoveUnderscoreDigits(body);
      assert IsDigit(t[sign]);
      var v: int := DigitsValue(Remove(body, '_'));
      Some(if sign == 1 && t[0] == '-' then -v else v)
  }

  lemma NoUnderscoreInDigits(s: string)
    requires AllDigits(s)
    ensures Remove(s, '_') == s
  {
    if s != [] {
      NoUnderscoreInDigits(s[1..]);
      assert s == [s[0]] + s[1..];
    }
  }

  /** `int(str(i)) == i`: rendering an integer and parsing it back is the
      identity. */
  lemma PyIntOfIntToString(i: int)
    ensures PyInt(IntToString(i)) == Some(i)
  {
    var s := IntToString(i);
    StripNoSpace(s, IsPySpace);
    var n: nat := if i < 0 then -i else i;
    var d := NatToString(n);
    assert s[if i < 0 then 1 else 0..] == d;
    NoUnderscoreInDigits(d);
    DigitsValueOfNatToString(n);
  }

  datatype Option<+T> = None | Some(value: T)

  /** A value, or the message of the error that took its place. */
  datatype Result<+T> = Ok(value: T) | Err(msg: string)
}
