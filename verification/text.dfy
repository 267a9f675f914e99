/** The JavaScript string operations the application relies on, over strings of
    Unicode scalar values: `trim`, `startsWith`/`endsWith`, ASCII `toLowerCase`,
    first-occurrence search (exact and ASCII case-insensitive), `split`/`join`
    on one character, the string form of `replace`, and UTF-16 length. */
module Text {
  import opened Wrappers

  // ---------------------------------------------------------------------------
  // White space

  /** The characters JavaScript's `\s` matches and `String.prototype.trim` strips:
      WhiteSpace plus LineTerminator of ECMA-262. */
  predicate IsSpace(c: char) {
    || c == ' ' || c == '\t' || c == '\n' || c == '\r'
    || c == '\U{000B}' || c == '\U{000C}' || c == '\U{00A0}' || c == '\U{1680}'
    || ('\U{2000}' <= c <= '\U{200A}')
    || c == '\U{2028}' || c == '\U{2029}' || c == '\U{202F}' || c == '\U{205F}'
    || c == '\U{3000}' || c == '\U{FEFF}'
  }

  predicate AllSpace(s: string) {
    forall i :: 0 <= i < |s| ==> IsSpace(s[i])
  }

  /** `trimStart`: drops the longest all-space prefix. */
  function TrimStart(s: string): (r: string)
    ensures |r| <= |s| && r == s[|s| - |r|..]
    ensures AllSpace(s[..|s| - |r|])
    ensures r == [] || !IsSpace(r[0])
    decreases |s|
  {
    if |s| > 0 && IsSpace(s[0]) then
      var r := TrimStart(s[1..]);
      assert s[1..][|s| - 1 - |r|..] == s[|s| - |r|..];
      assert s[..|s| - |r|] == [s[0]] + s[1..][..|s| - 1 - |r|];
      r
    else s
  }

  /** `trimEnd`: drops the longest all-space suffix. */
  function TrimEnd(s: string): (r: string)
    ensures |r| <= |s| && r == s[..|r|]
    ensures AllSpace(s[|r|..])
    ensures r == [] || !IsSpace(r[|r| - 1])
    decreases |s|
  {
    if |s| > 0 && IsSpace(s[|s| - 1]) then
      var r := TrimEnd(s[..|s| - 1]);
      assert s[..|s| - 1][..|r|] == s[..|r|];
      assert s[|r|..] == s[..|s| - 1][|r|..] + [s[|s| - 1]];
      r
    else s
  }

  /** `r` is the infix of `s` at `i` with nothing but white space around it. */
  predicate TrimmedAt(s: string, i: int, r: string) {
    0 <= i <= |s| - |r| && r == s[i..i + |r|] && AllSpace(s[..i]) && AllSpace(s[i + |r|..])
  }

  /** `String.prototype.trim`: the infix of `s` left after removing white space at
      both ends. */
  function Trim(s: string): (r: string)
    ensures exists i :: TrimmedAt(s, i, r)
    ensures r == [] || (!IsSpace(r[0]) && !IsSpace(r[|r| - 1]))
  {
    TrimEndOfStart(s);
    TrimEnd(TrimStart(s))
  }

  lemma TrimEndOfStart(s: string)
    ensures TrimmedAt(s, |s| - |TrimStart(s)|, TrimEnd(TrimStart(s)))
  {
    InfixWithSpaceAround(s, TrimStart(s), TrimEnd(TrimStart(s)));
  }

  /** A prefix `r` of a suffix `t` of `s`, with white space cut off around both. */
  lemma InfixWithSpaceAround(s: string, t: string, r: string)
    requires |t| <= |s| && t == s[|s| - |t|..] && AllSpace(s[..|s| - |t|])
    requires |r| <= |t| && r == t[..|r|] && AllSpace(t[|r|..])
    ensures TrimmedAt(s, |s| - |t|, r)
  {
    var i := |s| - |t|;
    assert s[i..][..|r|] == s[i..i + |r|];
    assert s[i..][|r|..] == s[i + |r|..];
  }

  /** A string whose trimmed form is empty; JavaScript's `!s.trim()`. */
  predicate IsBlank(s: string) {
    Trim(s) == ""
  }

  /** A string trims to nothing exactly when every character of it is white space. */
  lemma BlankIffAllSpace(s: string)
    ensures IsBlank(s) <==> AllSpace(s)
  {
    if IsBlank(s) {
      TrimEndEmpty(TrimStart(s));
      TrimStartEmpty(s);
    }
    if AllSpace(s) {
      TrimStartAllSpace(s);
    }
  }

  lemma TrimStartEmpty(s: string)
    requires TrimStart(s) == []
    ensures AllSpace(s)
  {
    assert s[..|s|] == s;
  }

  lemma TrimEndEmpty(s: string)
    requires TrimEnd(s) == []
    ensures AllSpace(s)
  {
    assert s[0..] == s;
  }

  lemma {:induction false} TrimStartAllSpace(s: string)
    requires AllSpace(s)
    ensures TrimStart(s) == []
    decreases |s|
  {
    if |s| > 0 {
      TrimStartAllSpace(s[1..]);
    }
  }

  lemma {:induction false} TrimStartAfterSpace(a: string, x: string)
    requires AllSpace(a)
    ensures TrimStart(a + x) == TrimStart(x)
    decreases |a|
  {
    if |a| > 0 {
      assert (a + x)[1..] == a[1..] + x;
      TrimStartAfterSpace(a[1..], x);
    } else {
      assert a + x == x;
    }
  }

  lemma {:induction false} TrimEndBeforeSpace(x: string, b: string)
    requires AllSpace(b)
    ensures TrimEnd(x + b) == TrimEnd(x)
    decreases |b|
  {
    if |b| > 0 {
      assert (x + b)[..|x + b| - 1] == x + b[..|b| - 1];
      TrimEndBeforeSpace(x, b[..|b| - 1]);
    } else {
      assert x + b == x;
    }
  }

  lemma {:induction false} TrimStartBeforeSpace(x: string, b: string)
    requires AllSpace(b)
    ensures TrimStart(x + b) == if TrimStart(x) == [] then TrimStart(b) else TrimStart(x) + b
    decreases |x|
  {
    if |x| > 0 && IsSpace(x[0]) {
      assert (x + b)[1..] == x[1..] + b;
      TrimStartBeforeSpace(x[1..], b);
    } else if |x| == 0 {
      assert x + b == b;
    }
  }

  /** Trimming a trimmed string changes nothing. */
  lemma TrimIdempotent(s: string)
    ensures Trim(Trim(s)) == Trim(s)
  {
    TrimStartNoLeading(Trim(s));
    TrimEndNoTrailing(Trim(s));
  }

  lemma TrimStartNoLeading(s: string)
    requires s == [] || !IsSpace(s[0])
    ensures TrimStart(s) == s
  {
  }

  lemma TrimEndNoTrailing(s: string)
    requires s == [] || !IsSpace(s[|s| - 1])
    ensures TrimEnd(s) == s
  {
  }

  /** Trimming ignores white space added at either end. */
  lemma TrimPadded(a: string, x: string, b: string)
    requires AllSpace(a) && AllSpace(b)
    ensures Trim(a + x + b) == Trim(x)
  {
    assert a + x + b == a + (x + b);
    TrimStartAfterSpace(a, x + b);
    TrimStartBeforeSpace(x, b);
    if TrimStart(x) == [] {
      TrimStartAllSpace(b);
    } else {
      TrimEndBeforeSpace(TrimStart(x), b);
    }
  }

  // ---------------------------------------------------------------------------
  // Prefixes, suffixes, infixes and case

  /** `x` occurs verbatim somewhere in `s`. */
  predicate IsInfix(x: string, s: string) {
    exists k :: 0 <= k <= |s| && StartsWith(s[k..], x)
  }

  lemma InfixOfConcat(a: string, x: string, b: string)
    ensures IsInfix(x, a + x + b)
  {
    assert (a + x + b)[|a|..][..|x|] == x;
  }

  predicate StartsWith(s: string, p: string) {
    |p| <= |s| && s[..|p|] == p
  }

  predicate EndsWith(s: string, p: string) {
    |p| <= |s| && s[|s| - |p|..] == p
  }

  /** ASCII lower-casing of one character. */
  function LowerChar(c: char): char {
    if 'A' <= c <= 'Z' then (c as int + 32) as char else c
  }

  /** `toLowerCase`, restricted to the ASCII letters. */
  function Lower(s: string): (r: string)
    ensures |r| == |s|
    ensures forall i :: 0 <= i < |s| ==> r[i] == LowerChar(s[i])
  {
    seq(|s|, i requires 0 <= i < |s| => LowerChar(s[i]))
  }

  // ---------------------------------------------------------------------------
  // Search

  /** The text a search compares: ASCII-folded when `ci`. */
  function Folded(s: string, ci: bool): string {
    if ci then Lower(s) else s
  }

  /** `p` occurs in `s` at index `k`, case-insensitively (ASCII) when `ci`. */
  predicate MatchAt(s: string, k: nat, p: string, ci: bool) {
    k + |p| <= |s| && Folded(s[k..k + |p|], ci) == Folded(p, ci)
  }

  /** `k` is the first index at which `p` occurs in `s`. */
  predicate FirstMatch(s: string, p: string, k: nat, ci: bool) {
    MatchAt(s, k, p, ci) && forall j: nat :: j < k ==> !MatchAt(s, j, p, ci)
  }

  predicate Contains(s: string, p: string, ci: bool) {
    exists k: nat :: k <= |s| && MatchAt(s, k, p, ci)
  }

  /** The first index at or after `from` at which `p` occurs in `s`, as a regular
      expression engine scanning left to right finds it. */
  function Find(s: string, p: string, from: nat, ci: bool): (r: Option<nat>)
    ensures r.Some? ==> from <= r.value && MatchAt(s, r.value, p, ci)
    ensures forall k: nat :: from <= k && (r.None? || k < r.value) ==> !MatchAt(s, k, p, ci)
    decreases |s| - from
  {
    if from + |p| > |s| then None
    else if MatchAt(s, from, p, ci) then Some(from)
    else Find(s, p, from + 1, ci)
  }

  /** Searching from the start finds the first occurrence, and nothing exactly when
      there is none. */
  lemma FindFromStart(s: string, p: string, ci: bool)
    ensures Find(s, p, 0, ci).Some? <==> Contains(s, p, ci)
    ensures Find(s, p, 0, ci).Some? ==> FirstMatch(s, p, Find(s, p, 0, ci).value, ci)
  {
  }

  /** `s.replace(p, rep)` with a string pattern: only the first exact occurrence is
      replaced; without one, `s` is returned as it is. */
  function ReplaceFirst(s: string, p: string, rep: string): (r: string)
    ensures Contains(s, p, false) <==>
              (exists k: nat :: FirstMatch(s, p, k, false) && r == s[..k] + rep + s[k + |p|..])
    ensures !Contains(s, p, false) ==> r == s
  {
    match Find(s, p, 0, false)
    case None => s
    case Some(k) =>
      assert FirstMatch(s, p, k, false);
      s[..k] + rep + s[k + |p|..]
  }

  /** Index of the first occurrence of `c`. */
  function IndexOfChar(s: string, c: char): (r: Option<nat>)
    ensures r.Some? ==> r.value < |s| && s[r.value] == c && c !in s[..r.value]
    ensures r.Some? ==> forall j :: 0 <= j < r.value ==> s[j] != c
    ensures r.None? <==> c !in s
    decreases |s|
  {
    if |s| == 0 then None
    else if s[0] == c then Some(0)
    else match IndexOfChar(s[1..], c)
      case None => None
      case Some(k) =>
        assert s[..k + 1] == [s[0]] + s[1..][..k];
        Some(k + 1)
  }

  /** Index of the last occurrence of `c`. */
  function LastIndexOfChar(s: string, c: char): (r: Option<nat>)
    ensures r.Some? ==> r.value < |s| && s[r.value] == c && c !in s[r.value + 1..]
    ensures r.Some? ==> forall j :: r.value < j < |s| ==> s[j] != c
    ensures r.None? <==> c !in s
    decreases |s|
  {
    if |s| == 0 then None
    else if s[|s| - 1] == c then Some(|s| - 1)
    else
      var r := LastIndexOfChar(s[..|s| - 1], c);
      assert s == s[..|s| - 1] + [s[|s| - 1]];
      if r.Some? then
        assert s[r.value + 1..] == s[..|s| - 1][r.value + 1..] + [s[|s| - 1]];
        r
      else r
  }

  // ---------------------------------------------------------------------------
  // Splitting and joining on one character

  /** `xs.join(d)`. */
  function Join(xs: seq<string>, d: char): string
    decreases |xs|
  {
    if |xs| == 0 then ""
    else if |xs| == 1 then xs[0]
    else xs[0] + [d] + Join(xs[1..], d)
  }

  /** `s.split(d)`: the pieces between the occurrences of `d`; their join gives back
      `s`. */
  function Split(s: string, d: char): (r: seq<string>)
    ensures |r| >= 1
    ensures forall i :: 0 <= i < |r| ==> d !in r[i]
    ensures Join(r, d) == s
    decreases |s|
  {
    match IndexOfChar(s, d)
    case None => [s]
    case Some(k) =>
      var rest := Split(s[k + 1..], d);
      var r := [s[..k]] + rest;
      assert r[1..] == rest;
      assert s == s[..k] + [d] + s[k + 1..];
      r
  }

  /** Splitting a join of separator-free pieces gives the pieces back. */
  lemma {:induction false} SplitJoin(xs: seq<string>, d: char)
    requires |xs| >= 1
    requires forall i :: 0 <= i < |xs| ==> d !in xs[i]
    ensures Split(Join(xs, d), d) == xs
    decreases |xs|
  {
    if |xs| == 1 {
      assert IndexOfChar(xs[0], d).None?;
    } else {
      var s := Join(xs, d);
      assert s == xs[0] + [d] + Join(xs[1..], d);
      assert s[..|xs[0]|] == xs[0];
      assert s[|xs[0]|] == d;
      var n := |xs[0]|;
      var k := IndexOfChar(s, d);
      assert d in s;
      assert forall j :: 0 <= j < n ==> s[j] != d by {
        assert forall j :: 0 <= j < n ==> s[j] == xs[0][j];
      }
      assert k.value == n;
      assert s[|xs[0]| + 1..] == Join(xs[1..], d);
      SplitJoin(xs[1..], d);
    }
  }

  // ---------------------------------------------------------------------------
  // Lengths, concatenation, numerals

  /** The JavaScript `length` of a string: characters outside the Basic
      Multilingual Plane take two UTF-16 code units. */
  function Utf16Length(s: string): (n: nat)
    ensures |s| <= n <= 2 * |s|
    decreases |s|
  {
    if |s| == 0 then 0
    else (if s[0] as int >= 0x1_0000 then 2 else 1) + Utf16Length(s[1..])
  }

  /** Concatenation of a sequence of strings, in order. */
  function Concat(xs: seq<string>): string
    decreases |xs|
  {
    if |xs| == 0 then "" else xs[0] + Concat(xs[1..])
  }

  lemma {:induction false} ConcatAppend(xs: seq<string>, x: string)
    ensures Concat(xs + [x]) == Concat(xs) + x
    decreases |xs|
  {
    if |xs| == 0 {
      assert xs + [x] == [x];
    } else {
      assert (xs + [x])[1..] == xs[1..] + [x];
      ConcatAppend(xs[1..], x);
    }
  }

  lemma {:induction false} ConcatSplitAt(xs: seq<string>, i: nat)
    requires i < |xs|
    ensures Concat(xs) == Concat(xs[..i]) + xs[i] + Concat(xs[i + 1..])
    decreases i
  {
    if i > 0 {
      assert xs[1..][..i - 1] == xs[1..i];
      assert xs[1..][i - 1 + 1..] == xs[i + 1..];
      ConcatSplitAt(xs[1..], i - 1);
      assert Concat(xs[..i]) == xs[0] + Concat(xs[..i][1..]);
      assert xs[..i][1..] == xs[1..i];
    } else {
      assert xs[..0] == [];
    }
  }

  /** A concatenation opens with its first part. */
  lemma ConcatStartsWith(xs: seq<string>)
    requires |xs| > 0
    ensures StartsWith(Concat(xs), xs[0])
  {
    assert Concat(xs)[..|xs[0]|] == xs[0];
  }

  /** Every part of a concatenation occurs in it verbatim. */
  lemma ConcatInfix(xs: seq<string>, i: nat)
    requires i < |xs|
    ensures IsInfix(xs[i], Concat(xs))
  {
    ConcatSplitAt(xs, i);
    InfixOfConcat(Concat(xs[..i]), xs[i], Concat(xs[i + 1..]));
  }

  predicate IsDigit(c: char) {
    '0' <= c <= '9'
  }

  /** The decimal numeral of `n`, as `String(n)` writes a non-negative integer. */
  function DecimalText(n: nat): (r: string)
    ensures |r| >= 1 && (forall i :: 0 <= i < |r| ==> IsDigit(r[i]))
    ensures r[0] == '0' ==> n == 0
    decreases n
  {
    if n < 10 then ["0123456789"[n]]
    else DecimalText(n / 10) + ["0123456789"[n % 10]]
  }

  /** The value of a string of decimal digits. */
  function DigitsValue(s: string): nat
    requires forall i :: 0 <= i < |s| ==> IsDigit(s[i])
    decreases |s|
  {
    if |s| == 0 then 0
    else
      assert IsDigit(s[|s| - 1]);
      10 * DigitsValue(s[..|s| - 1]) + (s[|s| - 1] as int - '0' as int)
  }

  /** Reading a numeral back gives the number it was written from. */
  lemma {:induction false} DecimalTextValue(n: nat)
    ensures DigitsValue(DecimalText(n)) == n
    decreases n
  {
    var r := DecimalText(n);
    if n >= 10 {
      DecimalTextValue(n / 10);
      assert r[..|r| - 1] == DecimalText(n / 10);
    }
  }

  /** Different numbers have different numerals. */
  lemma DecimalTextInjective(m: nat, n: nat)
    requires DecimalText(m) == DecimalText(n)
    ensures m == n
  {
    DecimalTextValue(m);
    DecimalTextValue(n);
  }
}
