/** String operations of the JavaScript runtime that the report composer and the
    result view use: decimal numerals (`String(n)`, `toFixed`), substring search
    (`includes`, `replace` with a string pattern), `trim`, and ASCII upper-casing.
    A string is a sequence of characters. */
module Text {
  import opened Numeric
  import opened Outcomes

  predicate IsDigit(c: char)
  {
    '0' <= c <= '9'
  }

  /** The characters `\s` matches in a regular expression, which are also the
      ones `trim` removes: the ECMAScript WhiteSpace and LineTerminator sets. */
  predicate IsSpace(c: char)
  {
    c == '\t' || c == '\n' || c == '\U{B}' || c == '\U{C}' || c == '\r' || c == ' '
    || c == '\U{A0}' || c == '\U{1680}' || ('\U{2000}' <= c <= '\U{200A}')
    || c == '\U{2028}' || c == '\U{2029}' || c == '\U{202F}' || c == '\U{205F}'
    || c == '\U{3000}' || c == '\U{FEFF}'
  }

  predicate AllDigits(s: string)
  {
    forall i :: 0 <= i < |s| ==> IsDigit(s[i])
  }

  predicate AllSpace(s: string)
  {
    forall i :: 0 <= i < |s| ==> IsSpace(s[i])
  }

  function DigitChar(d: nat): (c: char)
    requires d < 10
    ensures IsDigit(c)
    ensures DigitValue(c) == d
  {
    (48 + d) as char
  }

  function DigitValue(c: char): (d: nat)
    requires IsDigit(c)
    ensures d < 10
  {
    c as int - 48
  }

  function Pow10(k: nat): (p: nat)
    ensures 1 <= p
  {
    if k == 0 then 1 else 10 * Pow10(k - 1)
  }

  /** The value of a string of decimal digits, most significant first. */
  function DigitsValue(s: string): nat
    requires AllDigits(s)
  {
    if |s| == 0 then 0 else 10 * DigitsValue(s[..|s| - 1]) + DigitValue(s[|s| - 1])
  }

  /** `String(n)` for a non-negative integer: its shortest decimal numeral. */
  function NatToString(n: nat): (s: string)
    ensures 0 < |s| && AllDigits(s)
    ensures DigitsValue(s) == n
    ensures s[0] == '0' ==> s == "0"
  {
    if n < 10 then [DigitChar(n)]
    else
      var prefix := NatToString(n / 10);
      var s := prefix + [DigitChar(n % 10)];
      assert s[..|s| - 1] == prefix;
      s
  }

  /** `String(n)` for an integer. */
  function IntToString(n: int): (s: string)
    ensures 0 < |s|
    ensures 0 <= n ==> s == NatToString(n)
    ensures n < 0 ==> s == "-" + NatToString(-n)
  {
    if n < 0 then "-" + NatToString(-n) else NatToString(n)
  }

  /** Leading zeros do not change the value of a numeral. */
  lemma {:induction false} DigitsValueConcat(a: string, b: string)
    requires AllDigits(a) && AllDigits(b)
    ensures AllDigits(a + b)
    ensures DigitsValue(a + b) == DigitsValue(a) * Pow10(|b|) + DigitsValue(b)
    decreases |b|
  {
    if |b| == 0 {
      assert a + b == a;
    } else {
      var c := a + b;
      var b' := b[..|b| - 1];
      var last := DigitValue(b[|b| - 1]);
      assert c[..|c| - 1] == a + b';
      DigitsValueConcat(a, b');
      assert DigitsValue(c) == 10 * DigitsValue(a + b') + last;
      assert DigitsValue(b) == 10 * DigitsValue(b') + last;
      assert Pow10(|b|) == 10 * Pow10(|b'|);
      MulTen(DigitsValue(a), Pow10(|b'|));
    }
  }

  lemma MulTen(a: nat, p: nat)
    ensures a * (10 * p) == 10 * (a * p)
  {
  }

  function ZeroRun(k: nat): (z: string)
    ensures |z| == k && AllDigits(z) && DigitsValue(z) == 0
  {
    if k == 0 then "" else
      var z := ZeroRun(k - 1) + "0";
      assert z[..|z| - 1] == ZeroRun(k - 1);
      z
  }

  /** The digits of a fixed-point numeral with the decimal point taken out. */
  function WithoutPoint(s: string, d: nat): string
    requires d < |s|
  {
    if d == 0 then s else s[..|s| - d - 1] + s[|s| - d..]
  }

  /** A numeral as `toFixed(d)` writes it: at least one digit, and for d > 0
      a '.' followed by exactly d digits; no other characters. */
  predicate IsFixedNumeral(s: string, d: nat)
  {
    && d < |s|
    && (d == 0 ==> AllDigits(s))
    && (d > 0 ==>
          && d + 2 <= |s|
          && s[|s| - d - 1] == '.'
          && AllDigits(s[..|s| - d - 1])
          && AllDigits(s[|s| - d..]))
  }

  /** The digits of n, padded with leading zeros to more than d digits. */
  function PaddedDigits(n: nat, d: nat): (padded: string)
    ensures d < |padded|
    ensures AllDigits(padded) && DigitsValue(padded) == n
  {
    var m := NatToString(n);
    if |m| <= d then
      DigitsValueConcat(ZeroRun(d + 1 - |m|), m);
      ZeroRun(d + 1 - |m|) + m
    else m
  }

  /** Puts the '.' before the last d digits (none for d = 0). */
  function InsertPoint(padded: string, d: nat): (s: string)
    requires d < |padded| && AllDigits(padded)
    ensures IsFixedNumeral(s, d)
    ensures WithoutPoint(s, d) == padded
  {
    if d == 0 then padded
    else
      var k := |padded|;
      var s := padded[..k - d] + "." + padded[k - d..];
      assert s[..|s| - d - 1] == padded[..k - d];
      assert s[|s| - d..] == padded[k - d..];
      s
  }

  /** `x.toFixed(d)` for 0 <= x < 10^21: the integer n nearest to x * 10^d (the
      larger one on a tie), written with the last d digits after a '.', padded
      with leading zeros so that at least one digit precedes the point. */
  function Fixed(x: real, d: nat): (s: string)
    requires 0.0 <= x
    ensures IsFixedNumeral(s, d)
    ensures AllDigits(WithoutPoint(s, d))
  {
    var n := Round(Shift(x, d));
    InsertPoint(PaddedDigits(n, d), d)
  }

  /** The digits `toFixed(d)` writes, read without the point, are x * 10^d
      rounded to the nearest integer. */
  lemma FixedValue(x: real, d: nat)
    requires 0.0 <= x
    ensures DigitsValue(WithoutPoint(Fixed(x, d), d)) as real - 0.5 <= Shift(x, d)
    ensures Shift(x, d) < DigitsValue(WithoutPoint(Fixed(x, d), d)) as real + 0.5
  {
  }

  /** x * 10^d. */
  function Shift(x: real, d: nat): (y: real)
    requires 0.0 <= x
    ensures 0.0 <= y
  {
    x * Pow10(d) as real
  }

  /** `n.toFixed(d)` for any double the engine can produce: negative values
      get a leading '-', and the special values print as their names. */
  function NumberToFixed(n: Number, d: nat): (s: string)
    ensures n.Finite? && 0.0 <= n.value ==> s == Fixed(n.value, d)
    ensures n == NaN ==> s == "NaN"
  {
    match n
    case Finite(v) => if v < 0.0 then "-" + Fixed(-v, d) else Fixed(v, d)
    case NaN => "NaN"
    case PosInf => "Infinity"
    case NegInf => "-Infinity"
  }

  /** `pat` occurs in `s` starting at index i. */
  predicate OccursAt(s: string, pat: string, i: nat)
  {
    i + |pat| <= |s| && s[i..i + |pat|] == pat
  }

  /** A string is the prefix of its concatenation with another. */
  lemma PrefixOfConcat(a: string, b: string)
    ensures |a| <= |a + b| && (a + b)[..|a|] == a
  {
  }

  /** The first index at or after `from` at which `pat` occurs. */
  function IndexFrom(s: string, pat: string, from: nat): (r: Option<nat>)
    ensures r.Some? ==> from <= r.value && OccursAt(s, pat, r.value)
    ensures r.Some? ==> forall j :: from <= j < r.value ==> !OccursAt(s, pat, j)
    ensures r.None? ==> forall j :: from <= j ==> !OccursAt(s, pat, j)
    decreases |s| - from
  {
    if from + |pat| > |s| then None
    else if s[from..from + |pat|] == pat then Some(from)
    else IndexFrom(s, pat, from + 1)
  }

  /** `s.indexOf(pat)`, with `None` for -1. */
  function IndexOf(s: string, pat: string): (r: Option<nat>)
    ensures r.Some? ==> OccursAt(s, pat, r.value) && forall j :: 0 <= j < r.value ==> !OccursAt(s, pat, j)
    ensures r.None? ==> forall j :: 0 <= j ==> !OccursAt(s, pat, j)
  {
    IndexFrom(s, pat, 0)
  }

  /** `s.includes(pat)`. */
  predicate Includes(s: string, pat: string)
  {
    IndexOf(s, pat).Some?
  }

  /** `pat` is found exactly when it occurs somewhere. */
  lemma IncludesIff(s: string, pat: string)
    ensures Includes(s, pat) <==> exists j :: OccursAt(s, pat, j)
  {
  }

  /** A character of `pat` that `s` lacks rules out every occurrence. */
  lemma MissingCharExcludes(s: string, pat: string, c: char)
    requires c in pat
    requires c !in s
    ensures !Includes(s, pat)
  {
    var k :| 0 <= k < |pat| && pat[k] == c;
    forall i: nat | i + |pat| <= |s|
      ensures !OccursAt(s, pat, i)
    {
      assert s[i..i + |pat|][k] == s[i + k] != c;
    }
  }

  /** `s.replace(pat, rep)` with a string pattern: only the first occurrence is
      replaced, and the text is returned unchanged when there is none. */
  function ReplaceFirst(s: string, pat: string, rep: string): (r: string)
    ensures IndexOf(s, pat).None? ==> r == s
    ensures IndexOf(s, pat).Some? ==>
      var i := IndexOf(s, pat).value;
      && |r| == |s| - |pat| + |rep|
      && r[..i] == s[..i]
      && r[i..i + |rep|] == rep
      && r[i + |rep|..] == s[i + |pat|..]
  {
    match IndexOf(s, pat)
    case None => s
    case Some(i) =>
      var r := s[..i] + rep + s[i + |pat|..];
      assert r[..i] == s[..i];
      assert r[i..i + |rep|] == rep;
      assert r[i + |rep|..] == s[i + |pat|..];
      r
  }

  /** A text that starts with `pat` loses exactly that prefix. */
  lemma ReplacePrefix(pat: string, rest: string)
    ensures ReplaceFirst(pat + rest, pat, "") == rest
  {
    assert OccursAt(pat + rest, pat, 0);
    var r := ReplaceFirst(pat + rest, pat, "");
    assert r == r[0..];
  }

  function TrimStart(s: string): (t: string)
    ensures |t| <= |s| && t == s[|s| - |t|..]
    ensures AllSpace(s[..|s| - |t|])
    ensures 0 < |t| ==> !IsSpace(t[0])
    decreases |s|
  {
    if 0 < |s| && IsSpace(s[0]) then
      var t := TrimStart(s[1..]);
      assert s[..|s| - |t|] == [s[0]] + s[1..][..|s| - 1 - |t|];
      t
    else s
  }

  function TrimEnd(s: string): (t: string)
    ensures |t| <= |s| && t == s[..|t|]
    ensures AllSpace(s[|t|..])
    ensures 0 < |t| ==> !IsSpace(t[|t| - 1])
    decreases |s|
  {
    if 0 < |s| && IsSpace(s[|s| - 1]) then
      var t := TrimEnd(s[..|s| - 1]);
      assert s[|t|..] == s[..|s| - 1][|t|..] + [s[|s| - 1]];
      t
    else s
  }

  /** `s.trim()`: the text between the leading and the trailing white space. */
  function Trim(s: string): (t: string)
    ensures |t| <= |s|
    ensures exists i :: 0 <= i <= |s| - |t| && t == s[i..i + |t|] && AllSpace(s[..i]) && AllSpace(s[i + |t|..])
    ensures 0 < |t| ==> !IsSpace(t[0]) && !IsSpace(t[|t| - 1])
  {
    var a := TrimStart(s);
    var t := TrimEnd(a);
    var i := |s| - |a|;
    assert t == s[i..i + |t|];
    assert AllSpace(s[..i]);
    assert s[i + |t|..] == a[|t|..];
    assert AllSpace(s[i + |t|..]);
    t
  }

  /** Text already free of white space at both ends is left as it is. */
  lemma {:induction false} TrimUnchanged(s: string)
    requires 0 < |s| ==> !IsSpace(s[0]) && !IsSpace(s[|s| - 1])
    ensures Trim(s) == s
  {
    assert TrimStart(s) == s;
    assert TrimEnd(s) == s;
  }

  /** Trimming twice is trimming once. */
  lemma TrimIdempotent(s: string)
    ensures Trim(Trim(s)) == Trim(s)
  {
    TrimUnchanged(Trim(s));
  }

  function UpperChar(c: char): (u: char)
  {
    if 'a' <= c <= 'z' then (c as int - 32) as char else c
  }

  /** `s.toUpperCase()` on the ASCII letters. */
  function Upper(s: string): (u: string)
    ensures |u| == |s|
    ensures forall i :: 0 <= i < |s| ==> !('a' <= u[i] <= 'z')
    ensures forall i :: 0 <= i < |s| ==> ('A' <= s[i] <= 'Z' || !('a' <= s[i] <= 'z')) ==> u[i] == s[i]
  {
    seq(|s|, i requires 0 <= i < |s| => UpperChar(s[i]))
  }

  /** Upper-casing twice is upper-casing once. */
  lemma UpperIdempotent(s: string)
    ensures Upper(Upper(s)) == Upper(s)
  {
  }
}
