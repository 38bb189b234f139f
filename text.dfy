/**
 * The Python string operations the core relies on: `str.strip()` with and without an
 * argument, `str.lower()`, `str.startswith`, `str.join` and the decimal rendering of
 * integers by `str(int)` / f-strings.
 */
module Text {

  /** Characters for which Python's `str.isspace()` holds, the set `str.strip()` removes. */
  predicate IsSpace(c: char) {
    || c == ' ' || c == '\t' || c == '\n' || c == '\r'
    || c == '\U{B}' || c == '\U{C}'
    || ('\U{1C}' <= c <= '\U{1F}')
    || c == '\U{85}' || c == '\U{A0}' || c == '\U{1680}'
    || ('\U{2000}' <= c <= '\U{200A}')
    || c == '\U{2028}' || c == '\U{2029}' || c == '\U{202F}' || c == '\U{205F}' || c == '\U{3000}'
  }

  /** What a strip removes: `strip()` removes whitespace, `strip(c)` removes the character c. */
  datatype StripSet = Whitespace | Only(c: char)

  predicate Removes(t: StripSet, c: char) {
    match t
    case Whitespace => IsSpace(c)
    case Only(d) => c == d
  }

  /** `s.lstrip(...)`: the longest suffix of s that does not start with a removed character. */
  function TrimStart(s: string, t: StripSet): (r: string)
    ensures |r| <= |s| && r == s[|s| - |r|..]
    ensures forall i :: 0 <= i < |s| - |r| ==> Removes(t, s[i])
    ensures r == [] || !Removes(t, r[0])
  {
    if |s| > 0 && Removes(t, s[0]) then TrimStart(s[1..], t) else s
  }

  /** `s.rstrip(...)`: the longest prefix of s that does not end with a removed character. */
  function TrimEnd(s: string, t: StripSet): (r: string)
    ensures |r| <= |s| && r == s[..|r|]
    ensures forall i :: |r| <= i < |s| ==> Removes(t, s[i])
    ensures r == [] || !Removes(t, r[|r| - 1])
  {
    if |s| > 0 && Removes(t, s[|s| - 1]) then TrimEnd(s[..|s| - 1], t) else s
  }

  function StripBy(s: string, t: StripSet): string {
    TrimEnd(TrimStart(s, t), t)
  }

  /** Python's `s.strip()`. */
  function Strip(s: string): string {
    StripBy(s, Whitespace)
  }

  /** Python's `s.strip(c)` for a one-character argument. */
  function StripChar(s: string, c: char): string {
    StripBy(s, Only(c))
  }

  /** The result of a strip neither starts nor ends with a removed character. */
  lemma StripEnds(s: string, t: StripSet)
    ensures var r := StripBy(s, t); r == [] || (!Removes(t, r[0]) && !Removes(t, r[|r| - 1]))
  {
    var u := TrimStart(s, t);
    var r := TrimEnd(u, t);
    if r != [] {
      assert r[0] == u[0];
    }
  }

  /** Stripping a string that neither starts nor ends with a removed character changes nothing. */
  lemma {:induction false} StripUnchanged(s: string, t: StripSet)
    requires s == [] || (!Removes(t, s[0]) && !Removes(t, s[|s| - 1]))
    ensures StripBy(s, t) == s
  {
  }

  /** Removed characters added on either side disappear again: strip(p + s + q) == strip(s). */
  lemma {:induction false} StripPadding(p: string, s: string, q: string, t: StripSet)
    requires forall i :: 0 <= i < |p| ==> Removes(t, p[i])
    requires forall i :: 0 <= i < |q| ==> Removes(t, q[i])
    ensures StripBy(p + s + q, t) == StripBy(s, t)
  {
    TrimStartPadding(p, s + q, t);
    assert p + s + q == p + (s + q);
    var u := TrimStart(s, t);
    if u == [] {
      TrimStartAllRemoved(s, q, t);
    } else {
      assert TrimStart(s + q, t) == u + q by { TrimStartKeepsTail(s, q, t); }
      TrimEndPadding(u, q, t);
    }
  }

  lemma {:induction false} TrimStartPadding(p: string, s: string, t: StripSet)
    requires forall i :: 0 <= i < |p| ==> Removes(t, p[i])
    ensures TrimStart(p + s, t) == TrimStart(s, t)
  {
    if p != [] {
      assert (p + s)[1..] == p[1..] + s;
      TrimStartPadding(p[1..], s, t);
    } else {
      assert p + s == s;
    }
  }

  /** Trimming the start only touches the tail when everything before it is removed. */
  lemma {:induction false} TrimStartKeepsTail(s: string, q: string, t: StripSet)
    requires TrimStart(s, t) != []
    ensures TrimStart(s + q, t) == TrimStart(s, t) + q
  {
    if Removes(t, s[0]) {
      assert (s + q)[1..] == s[1..] + q;
      TrimStartKeepsTail(s[1..], q, t);
    }
  }

  /** A string that trims to nothing stays trimmed to nothing when removed characters follow it. */
  lemma {:induction false} TrimStartAllRemoved(s: string, q: string, t: StripSet)
    requires TrimStart(s, t) == []
    requires forall i :: 0 <= i < |q| ==> Removes(t, q[i])
    ensures TrimStart(s + q, t) == []
  {
    if s == [] {
      assert s + q == q;
      TrimStartOfRemoved(q, t);
    } else {
      assert (s + q)[1..] == s[1..] + q;
      TrimStartAllRemoved(s[1..], q, t);
    }
  }

  lemma {:induction false} TrimStartOfRemoved(q: string, t: StripSet)
    requires forall i :: 0 <= i < |q| ==> Removes(t, q[i])
    ensures TrimStart(q, t) == []
  {
  }

  lemma {:induction false} TrimEndPadding(u: string, q: string, t: StripSet)
    requires forall i :: 0 <= i < |q| ==> Removes(t, q[i])
    ensures TrimEnd(u + q, t) == TrimEnd(u, t)
  {
    if q != [] {
      assert (u + q)[..|u + q| - 1] == u + q[..|q| - 1];
      TrimEndPadding(u, q[..|q| - 1], t);
    } else {
      assert u + q == u;
    }
  }

  predicate IsUpper(c: char) {
    'A' <= c <= 'Z'
  }

  /** `str.lower()` on one character, for the ASCII letters. */
  function LowerChar(c: char): (r: char)
    ensures !IsUpper(r)
    ensures IsUpper(c) ==> r as int == c as int + 32
    ensures !IsUpper(c) ==> r == c
  {
    if IsUpper(c) then (c as int + 32) as char else c
  }

  /** `s.lower()`, for ASCII letters: character by character, nothing else changes. */
  function Lower(s: string): (r: string)
    ensures |r| == |s|
    ensures forall i :: 0 <= i < |s| ==> r[i] == LowerChar(s[i])
  {
    if s == [] then [] else [LowerChar(s[0])] + Lower(s[1..])
  }

  /** A string without upper-case ASCII letters is its own lower-case form. */
  lemma LowerUnchanged(s: string)
    requires forall i :: 0 <= i < |s| ==> !IsUpper(s[i])
    ensures Lower(s) == s
  {
  }

  predicate StartsWith(s: string, prefix: string) {
    |prefix| <= |s| && forall i :: 0 <= i < |prefix| ==> s[i] == prefix[i]
  }

  /** `sep.join(parts)`. */
  function Join(parts: seq<string>, sep: string): (r: string)
    ensures parts == [] ==> r == []
    ensures |parts| == 1 ==> r == parts[0]
  {
    if parts == [] then []
    else if |parts| == 1 then parts[0]
    else parts[0] + sep + Join(parts[1..], sep)
  }

  predicate IsDigit(c: char) {
    '0' <= c <= '9'
  }

  /** The value of a decimal digit (zero for any other character). */
  function DigitValue(c: char): nat {
    if IsDigit(c) then c as int - '0' as int else 0
  }

  function DigitChar(d: nat): (c: char)
    requires d < 10
    ensures IsDigit(c) && DigitValue(c) == d
  {
    ('0' as int + d) as char
  }

  predicate AllDigits(s: string) {
    forall i :: 0 <= i < |s| ==> IsDigit(s[i])
  }

  /** The value of a string of decimal digits, as Python's `int()` reads it (leading zeros allowed). */
  function DigitsValue(s: string): nat {
    if s == [] then 0 else 10 * DigitsValue(s[..|s| - 1]) + DigitValue(s[|s| - 1])
  }

  /** `str(n)` for a natural number: its shortest decimal rendering. */
  function NatToString(n: nat): (r: string)
    ensures |r| > 0 && AllDigits(r)
    ensures DigitsValue(r) == n
  {
    if n < 10 then [DigitChar(n)]
    else
      var prefix := NatToString(n / 10);
      var r := prefix + [DigitChar(n % 10)];
      assert r[..|r| - 1] == prefix;
      r
  }

  /** `str(i)` for any integer. */
  function IntToString(i: int): (r: string)
    ensures i >= 0 ==> r == NatToString(i)
    ensures i < 0 ==> r == "-" + NatToString(-i)
  {
    if i < 0 then "-" + NatToString(-i) else NatToString(i)
  }
}
