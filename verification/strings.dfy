/**
 * Character classes and string operations of the JavaScript runtime that the
 * application code relies on: `\d`, `toLowerCase`/`toUpperCase` (ASCII part),
 * `trim`, `includes`, `split`, `join` and a global `replace`.
 */
module Strings {
  import Seqs

  /** The regular-expression class `\d`: the ASCII digits only. */
  predicate IsDigit(c: char) {
    '0' <= c <= '9'
  }

  /** The characters `String.prototype.trim` removes: ECMAScript WhiteSpace and LineTerminator. */
  predicate IsSpace(c: char) {
    || c == ' ' || c == '\t' || c == '\n' || c == '\r'
    || c == '\U{000B}' || c == '\U{000C}' || c == '\U{00A0}' || c == '\U{1680}'
    || ('\U{2000}' <= c <= '\U{200A}')
    || c == '\U{2028}' || c == '\U{2029}' || c == '\U{202F}' || c == '\U{205F}'
    || c == '\U{3000}' || c == '\U{FEFF}'
  }

  predicate IsUpper(c: char) {
    'A' <= c <= 'Z'
  }

  predicate IsLower(c: char) {
    'a' <= c <= 'z'
  }

  function LowerChar(c: char): (r: char)
    ensures IsUpper(c) ==> IsLower(r) && r as int == c as int + 32
    ensures !IsUpper(c) ==> r == c
  {
    if IsUpper(c) then (c as int + 32) as char else c
  }

  function UpperChar(c: char): (r: char)
    ensures IsLower(c) ==> IsUpper(r) && r as int + 32 == c as int
    ensures !IsLower(c) ==> r == c
  {
    if IsLower(c) then (c as int - 32) as char else c
  }

  /** `toLowerCase`, restricted to the ASCII letters. */
  function ToLower(s: string): (r: string)
    ensures |r| == |s|
    ensures forall i :: 0 <= i < |s| ==> r[i] == LowerChar(s[i])
  {
    seq(|s|, i requires 0 <= i < |s| => LowerChar(s[i]))
  }

  /** `toUpperCase`, restricted to the ASCII letters. */
  function ToUpper(s: string): (r: string)
    ensures |r| == |s|
    ensures forall i :: 0 <= i < |s| ==> r[i] == UpperChar(s[i])
  {
    seq(|s|, i requires 0 <= i < |s| => UpperChar(s[i]))
  }

  lemma ToLowerConcat(a: string, b: string)
    ensures ToLower(a + b) == ToLower(a) + ToLower(b)
  {
  }

  /** `hay.includes(needle)`: `needle` occurs in `hay` at some position. */
  predicate Contains(hay: string, needle: string)
    decreases |hay|
  {
    needle <= hay || (|hay| > 0 && Contains(hay[1..], needle))
  }

  /** The occurrence-based reading of `Contains`: it holds iff some window of `hay` equals `needle`. */
  lemma {:induction false} ContainsAt(hay: string, needle: string, k: nat)
    requires k + |needle| <= |hay| && hay[k..k + |needle|] == needle
    ensures Contains(hay, needle)
    decreases k
  {
    if k == 0 {
      assert needle <= hay;
    } else {
      assert hay[1..][k - 1..k - 1 + |needle|] == needle;
      ContainsAt(hay[1..], needle, k - 1);
    }
  }

  lemma {:induction false} ContainsEmpty(hay: string)
    ensures Contains(hay, "")
  {
    assert hay[0..0] == "";
    ContainsAt(hay, "", 0);
  }

  /** Widening the haystack on either side keeps every occurrence. */
  lemma {:induction false} ContainsInConcat(a: string, b: string, needle: string)
    requires Contains(a, needle) || Contains(b, needle)
    ensures Contains(a + b, needle)
    decreases |a|
  {
    if |a| == 0 {
      assert a + b == b;
    } else if needle <= a {
      assert needle <= a + b;
    } else if Contains(a[1..], needle) {
      ContainsInConcat(a[1..], b, needle);
      assert (a + b)[1..] == a[1..] + b;
    } else {
      ContainsInConcat(a[1..], b, needle);
      assert (a + b)[1..] == a[1..] + b;
    }
  }

  /** `trimStart`: drops the leading whitespace. */
  function TrimStart(s: string): (r: string)
    ensures |r| <= |s| && r == s[|s| - |r|..]
    ensures forall i :: 0 <= i < |s| - |r| ==> IsSpace(s[i])
    ensures |r| == 0 || !IsSpace(r[0])
    decreases |s|
  {
    if |s| > 0 && IsSpace(s[0]) then TrimStart(s[1..]) else s
  }

  /** `trimEnd`: drops the trailing whitespace. */
  function TrimEnd(s: string): (r: string)
    ensures |r| <= |s| && r == s[..|r|]
    ensures forall i :: |r| <= i < |s| ==> IsSpace(s[i])
    ensures |r| == 0 || !IsSpace(r[|r| - 1])
    decreases |s|
  {
    if |s| > 0 && IsSpace(s[|s| - 1]) then TrimEnd(s[..|s| - 1]) else s
  }

  /** Neither starts nor ends with whitespace. */
  predicate IsTrimmed(s: string) {
    |s| == 0 || (!IsSpace(s[0]) && !IsSpace(s[|s| - 1]))
  }

  /** `trim`: whitespace removed from both ends, and nothing else. */
  function Trim(s: string): (r: string)
    ensures IsTrimmed(r)
    ensures |r| <= |s|
    ensures IsTrimmed(s) ==> r == s
    ensures |r| == 0 <==> forall i :: 0 <= i < |s| ==> IsSpace(s[i])
  {
    var t := TrimStart(s);
    var r := TrimEnd(t);
    if |r| > 0 then
      assert !IsSpace(t[0]);
      assert r[0] == t[0];
      r
    else
      assert |t| == 0;
      r
  }

  /** How many leading whitespace characters `trim` drops. */
  function LeadingSpace(s: string): nat {
    |s| - |TrimStart(s)|
  }

  /**
   * `trim` keeps one contiguous slice of `s` and drops only whitespace:
   * everything before the slice and everything after it is whitespace.
   */
  lemma TrimRemovesOnlyOuterSpace(s: string)
    ensures var a, r := LeadingSpace(s), Trim(s);
      && a + |r| <= |s| && r == s[a..a + |r|]
      && (forall i :: 0 <= i < a ==> IsSpace(s[i]))
      && (forall i :: a + |r| <= i < |s| ==> IsSpace(s[i]))
  {
    TrimIsSlice(s);
    TrimDropsTrailingSpace(s);
  }

  lemma TrimIsSlice(s: string)
    ensures LeadingSpace(s) + |Trim(s)| <= |s| && Trim(s) == s[LeadingSpace(s)..LeadingSpace(s) + |Trim(s)|]
  {
    var t := TrimStart(s);
    var r := TrimEnd(t);
    assert r == Trim(s);
    SliceOfSuffix(s, |s| - |t|, |r|);
  }

  lemma SliceOfSuffix<T>(s: seq<T>, a: nat, n: nat)
    requires a + n <= |s|
    ensures s[a..][..n] == s[a..a + n]
  {
  }

  lemma TrimDropsTrailingSpace(s: string)
    ensures LeadingSpace(s) + |Trim(s)| <= |s|
    ensures forall i :: LeadingSpace(s) + |Trim(s)| <= i < |s| ==> IsSpace(s[i])
  {
    var t := TrimStart(s);
    var a := |s| - |t|;
    var r := TrimEnd(t);
    assert r == Trim(s);
    SpaceAfterSuffix(s, a, |r|);
  }

  /** White space past position `n` of the suffix `s[a..]` is white space past `a + n` in `s`. */
  lemma SpaceAfterSuffix(s: string, a: nat, n: nat)
    requires a + n <= |s|
    requires forall k :: n <= k < |s[a..]| ==> IsSpace(s[a..][k])
    ensures forall i :: a + n <= i < |s| ==> IsSpace(s[i])
  {
    forall i | a + n <= i < |s|
      ensures IsSpace(s[i])
    {
      assert s[i] == s[a..][i - a];
    }
  }

  /** Lower-casing maps whitespace to itself and nothing else to whitespace. */
  lemma LowerKeepsSpace(c: char)
    ensures IsSpace(LowerChar(c)) <==> IsSpace(c)
  {
  }

  /** Whitespace is not a letter, so trimming and lower-casing commute. */
  lemma {:induction false} TrimToLower(s: string)
    ensures Trim(ToLower(s)) == ToLower(Trim(s))
  {
    TrimStartToLower(s);
    TrimEndToLower(TrimStart(s));
  }

  lemma {:induction false} TrimStartToLower(s: string)
    ensures TrimStart(ToLower(s)) == ToLower(TrimStart(s))
    decreases |s|
  {
    if |s| > 0 {
      LowerKeepsSpace(s[0]);
      assert ToLower(s)[1..] == ToLower(s[1..]);
      TrimStartToLower(s[1..]);
    }
  }

  lemma {:induction false} TrimEndToLower(s: string)
    ensures TrimEnd(ToLower(s)) == ToLower(TrimEnd(s))
    decreases |s|
  {
    if |s| > 0 {
      LowerKeepsSpace(s[|s| - 1]);
      assert ToLower(s)[..|s| - 1] == ToLower(s[..|s| - 1]);
      TrimEndToLower(s[..|s| - 1]);
    }
  }

  /** Trimming only removes characters: one absent from the text is absent from the result. */
  lemma TrimKeepsOut(s: string, c: char)
    requires c !in s
    ensures c !in Trim(s)
  {
    var t := TrimStart(s);
    var r := TrimEnd(t);
    assert r == s[|s| - |t|..][..|r|];
    assert forall i :: 0 <= i < |r| ==> r[i] == s[|s| - |t| + i];
  }

  /** `s.split(d)` for a one-character separator: always at least one piece. */
  function Split(s: string, d: char): (r: seq<string>)
    ensures |r| >= 1
    decreases |s|
  {
    if |s| == 0 then [""]
    else
      var rest := Split(s[1..], d);
      if s[0] == d then [""] + rest
      else [[s[0]] + rest[0]] + rest[1..]
  }

  /** No piece of a split contains the separator. */
  lemma {:induction false} SplitPiecesLackSeparator(s: string, d: char)
    ensures forall k :: 0 <= k < |Split(s, d)| ==> d !in Split(s, d)[k]
    decreases |s|
  {
    if |s| > 0 {
      SplitPiecesLackSeparator(s[1..], d);
      var rest := Split(s[1..], d);
      if s[0] != d {
        var r := [[s[0]] + rest[0]] + rest[1..];
        assert forall k :: 1 <= k < |r| ==> r[k] == rest[k];
      }
    }
  }

  /** `parts.join(sep)`. */
  function Join(parts: seq<string>, sep: string): string
    decreases |parts|
  {
    if |parts| == 0 then ""
    else if |parts| == 1 then parts[0]
    else parts[0] + sep + Join(parts[1..], sep)
  }

  /** A leading character other than the separator joins the first piece. */
  lemma SplitCons(c: char, s: string, d: char)
    requires c != d
    ensures Split([c] + s, d) == [[c] + Split(s, d)[0]] + Split(s, d)[1..]
  {
    assert ([c] + s)[1..] == s;
  }

  /** A piece without the separator splits into itself. */
  lemma {:induction false} SplitWithoutSeparator(a: string, d: char)
    requires d !in a
    ensures Split(a, d) == [a]
    decreases |a|
  {
    if |a| > 0 {
      SplitWithoutSeparator(a[1..], d);
      assert [a[0]] + a[1..] == a;
    }
  }

  /** The first separator ends the first piece. */
  lemma {:induction false} SplitAtSeparator(a: string, d: char, b: string)
    requires d !in a
    ensures Split(a + [d] + b, d) == [a] + Split(b, d)
    decreases |a|
  {
    var s := a + [d] + b;
    if |a| == 0 {
      assert s[1..] == b;
    } else {
      assert s[1..] == a[1..] + [d] + b;
      SplitAtSeparator(a[1..], d, b);
      assert [a[0]] + a[1..] == a;
    }
  }

  /**
   * `s.replace(/p/g, v)` for a pattern without regular-expression
   * metacharacters and a replacement without `$`: the leftmost occurrences
   * of `p`, taken left to right without overlap, become `v`.
   */
  function ReplaceAll(s: string, p: string, v: string): string
    requires |p| > 0
    decreases |s|
  {
    if p <= s then v + ReplaceAll(s[|p|..], p, v)
    else if |s| == 0 then ""
    else [s[0]] + ReplaceAll(s[1..], p, v)
  }

  /** The pieces of `s` between the leftmost non-overlapping occurrences of `p` (`s.split(p)`). */
  function SplitOn(s: string, p: string): (r: seq<string>)
    requires |p| > 0
    ensures |r| >= 1
    decreases |s|
  {
    if p <= s then [""] + SplitOn(s[|p|..], p)
    else if |s| == 0 then [""]
    else
      var rest := SplitOn(s[1..], p);
      [[s[0]] + rest[0]] + rest[1..]
  }

  lemma JoinExtendsHead(c: char, x: string, xs: seq<string>, sep: string)
    ensures Join([[c] + x] + xs, sep) == [c] + Join([x] + xs, sep)
  {
    if |xs| > 0 {
      assert ([[c] + x] + xs)[1..] == xs;
      assert ([x] + xs)[1..] == xs;
    }
  }

  /** Splitting on `p` and joining with `p` gives back the original string. */
  lemma {:induction false} SplitOnJoin(s: string, p: string)
    requires |p| > 0
    ensures Join(SplitOn(s, p), p) == s
    decreases |s|
  {
    if p <= s {
      SplitOnJoin(s[|p|..], p);
      SplitOnJoinAtPattern(s, p);
    } else if |s| > 0 {
      SplitOnJoin(s[1..], p);
      SplitOnJoinPastChar(s, p);
    }
  }

  lemma SplitOnJoinAtPattern(s: string, p: string)
    requires |p| > 0 && p <= s
    requires Join(SplitOn(s[|p|..], p), p) == s[|p|..]
    ensures Join(SplitOn(s, p), p) == s
  {
    var rest := SplitOn(s[|p|..], p);
    assert SplitOn(s, p) == [""] + rest;
    JoinCons("", rest, p);
    PrefixRest(s, p);
  }

  lemma SplitOnJoinPastChar(s: string, p: string)
    requires |p| > 0 && |s| > 0 && !(p <= s)
    requires Join(SplitOn(s[1..], p), p) == s[1..]
    ensures Join(SplitOn(s, p), p) == s
  {
    var rest := SplitOn(s[1..], p);
    SplitOnPastChar(s, p);
    JoinExtendsHead(s[0], rest[0], rest[1..], p);
    HeadRest(rest);
    HeadRest(s);
  }

  /** Where no occurrence starts, the first character joins the first piece. */
  lemma SplitOnPastChar(s: string, p: string)
    requires |p| > 0 && |s| > 0 && !(p <= s)
    ensures SplitOn(s, p) == [[s[0]] + SplitOn(s[1..], p)[0]] + SplitOn(s[1..], p)[1..]
  {
  }

  lemma HeadRest<T>(s: seq<T>)
    requires |s| > 0
    ensures s == [s[0]] + s[1..]
  {
  }

  lemma JoinCons(x: string, xs: seq<string>, sep: string)
    requires |xs| > 0
    ensures Join([x] + xs, sep) == x + sep + Join(xs, sep)
  {
    assert ([x] + xs)[1..] == xs;
  }

  /** A string is its prefix followed by the rest. */
  lemma PrefixRest(s: string, p: string)
    requires p <= s
    ensures s == p + s[|p|..]
  {
    assert s[..|p|] == p;
  }

  /** The global replacement keeps the text between occurrences and puts `v` where each occurrence was. */
  lemma {:induction false} ReplaceAllIsSplitJoin(s: string, p: string, v: string)
    requires |p| > 0
    ensures ReplaceAll(s, p, v) == Join(SplitOn(s, p), v)
    decreases |s|
  {
    if p <= s {
      var rest := SplitOn(s[|p|..], p);
      ReplaceAllIsSplitJoin(s[|p|..], p, v);
      assert ([""] + rest)[1..] == rest;
    } else if |s| > 0 {
      var rest := SplitOn(s[1..], p);
      ReplaceAllIsSplitJoin(s[1..], p, v);
      JoinExtendsHead(s[0], rest[0], rest[1..], v);
      assert [rest[0]] + rest[1..] == rest;
    }
  }

  /** Where the pattern does not start, one character is copied. */
  lemma ReplaceAllStep(s: string, p: string, v: string)
    requires |p| > 0 && |s| > 0 && !(p <= s)
    ensures ReplaceAll(s, p, v) == [s[0]] + ReplaceAll(s[1..], p, v)
  {
  }

  /** Text without the pattern's first character is copied and does not disturb what follows. */
  lemma {:induction false} ReplaceAllSkipPlain(x: string, y: string, p: string, v: string)
    requires |p| > 0 && p[0] !in x
    ensures ReplaceAll(x + y, p, v) == x + ReplaceAll(y, p, v)
    decreases |x|
  {
    if |x| > 0 {
      assert (x + y)[0] == x[0];
      assert (x + y)[1..] == x[1..] + y;
      ReplaceAllSkipPlain(x[1..], y, p, v);
      HeadRest(x);
    } else {
      assert x + y == y;
    }
  }

  /** A string without the pattern is left as it is. */
  lemma {:induction false} ReplaceAllAbsent(s: string, p: string, v: string)
    requires |p| > 0 && !Contains(s, p)
    ensures ReplaceAll(s, p, v) == s
    decreases |s|
  {
    if |s| > 0 {
      ReplaceAllAbsent(s[1..], p, v);
      assert [s[0]] + s[1..] == s;
    }
  }

  /** Replacing a pattern by itself changes nothing. */
  lemma {:induction false} ReplaceAllByItself(s: string, p: string)
    requires |p| > 0
    ensures ReplaceAll(s, p, p) == s
    decreases |s|
  {
    if p <= s {
      ReplaceAllByItself(s[|p|..], p);
      assert s == p + s[|p|..];
    } else if |s| > 0 {
      ReplaceAllByItself(s[1..], p);
      assert [s[0]] + s[1..] == s;
    }
  }
  /** `s.replace(/\D/g, '')`: the digits of `s`, in order. */
  function Digits(s: string): (r: string)
    ensures |r| <= |s|
    ensures forall i :: 0 <= i < |r| ==> IsDigit(r[i])
    decreases |s|
  {
    if |s| == 0 then "" else (if IsDigit(s[0]) then [s[0]] else "") + Digits(s[1..])
  }

  /** The digits are exactly the characters `\d` matches, each kept, in their order. */
  lemma {:induction false} DigitsIsFilter(s: string)
    ensures Digits(s) == Seqs.Filter(IsDigit, s)
    decreases |s|
  {
    if |s| > 0 {
      DigitsIsFilter(s[1..]);
    }
  }

  lemma {:induction false} DigitsConcat(a: string, b: string)
    ensures Digits(a + b) == Digits(a) + Digits(b)
    decreases |a|
  {
    if |a| > 0 {
      assert (a + b)[1..] == a[1..] + b;
      DigitsConcat(a[1..], b);
    } else {
      assert a + b == b;
    }
  }

  predicate AllDigits(s: string) {
    forall i :: 0 <= i < |s| ==> IsDigit(s[i])
  }

  lemma {:induction false} DigitsOfDigits(s: string)
    requires AllDigits(s)
    ensures Digits(s) == s
    decreases |s|
  {
    if |s| > 0 {
      DigitsOfDigits(s[1..]);
      assert [s[0]] + s[1..] == s;
    }
  }

  function DigitChar(d: nat): (c: char)
    requires d < 10
    ensures IsDigit(c) && c as int - '0' as int == d
  {
    ('0' as int + d) as char
  }

  function DigitValue(c: char): (d: nat)
    requires IsDigit(c)
    ensures d < 10 && DigitChar(d) == c
  {
    c as int - '0' as int
  }

  /** `n.toString()` for a non-negative integer: decimal digits without leading zeros. */
  function NatToString(n: nat): (s: string)
    ensures |s| >= 1 && AllDigits(s)
    ensures |s| > 1 ==> s[0] != '0'
    decreases n
  {
    if n < 10 then [DigitChar(n)] else NatToString(n / 10) + [DigitChar(n % 10)]
  }

  /** The value of a string of decimal digits. */
  function ParseNat(s: string): nat
    requires AllDigits(s)
    decreases |s|
  {
    if |s| == 0 then 0 else ParseNat(s[..|s| - 1]) * 10 + DigitValue(s[|s| - 1])
  }

  /** Decimal rendering is undone by parsing, so distinct numbers render distinctly. */
  lemma {:induction false} NatToStringRoundTrip(n: nat)
    ensures ParseNat(NatToString(n)) == n
    decreases n
  {
    if n >= 10 {
      NatToStringRoundTrip(n / 10);
      var s := NatToString(n);
      assert s[..|s| - 1] == NatToString(n / 10);
    }
  }

  lemma NatToStringInjective(m: nat, n: nat)
    requires NatToString(m) == NatToString(n)
    ensures m == n
  {
    NatToStringRoundTrip(m);
    NatToStringRoundTrip(n);
  }
}
