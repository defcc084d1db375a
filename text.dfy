/**
 * String operations of the Python and JavaScript runtimes that the modelled
 * code relies on: whitespace classes, strip/trim, substring search (`find`,
 * `in`, `includes`), `replace(x, "")`, `split(x)[0]`, `startswith`,
 * lower-casing and the decimal rendering of integers.
 */
module Text {

  /** Python's `str.isspace`, which is also the class `\s` matches in a str pattern. */
  predicate PyIsSpace(c: char) {
    || ('\t' <= c <= '\r')
    || ('\U{1C}' <= c <= ' ')
    || c == '\U{85}' || c == '\U{A0}' || c == '\U{1680}'
    || ('\U{2000}' <= c <= '\U{200A}')
    || c == '\U{2028}' || c == '\U{2029}' || c == '\U{202F}' || c == '\U{205F}' || c == '\U{3000}'
  }

  /** JavaScript's WhiteSpace and LineTerminator characters, which `String.prototype.trim` removes. */
  predicate JsIsSpace(c: char) {
    || ('\t' <= c <= '\r')
    || c == ' ' || c == '\U{A0}' || c == '\U{1680}'
    || ('\U{2000}' <= c <= '\U{200A}')
    || c == '\U{2028}' || c == '\U{2029}' || c == '\U{202F}' || c == '\U{205F}' || c == '\U{3000}'
    || c == '\U{FEFF}'
  }

  function TrimStart(s: string, ws: char -> bool): (r: string)
    ensures |r| <= |s| && r == s[|s| - |r|..]
    ensures r == [] || !ws(r[0])
    ensures forall i :: 0 <= i < |s| - |r| ==> ws(s[i])
  {
    if s == [] || !ws(s[0]) then s else TrimStart(s[1..], ws)
  }

  function TrimEnd(s: string, ws: char -> bool): (r: string)
    ensures |r| <= |s| && r == s[..|r|]
    ensures r == [] || !ws(r[|r| - 1])
    ensures forall i :: |r| <= i < |s| ==> ws(s[i])
  {
    if s == [] || !ws(s[|s| - 1]) then s else TrimEnd(s[..|s| - 1], ws)
  }

  /** Removes the leading and the trailing characters of class `ws`. */
  function Strip(s: string, ws: char -> bool): (r: string)
    ensures |r| <= |s|
    ensures r == [] || (!ws(r[0]) && !ws(r[|r| - 1]))
  {
    TrimEnd(TrimStart(s, ws), ws)
  }

  /** Python's `str.strip()` with no argument. */
  function PyStrip(s: string): string {
    Strip(s, PyIsSpace)
  }

  /** JavaScript's `String.prototype.trim()`. */
  function JsTrim(s: string): string {
    Strip(s, JsIsSpace)
  }

  /** What `Strip` keeps is a contiguous piece of its input. */
  lemma StripInfix(s: string, ws: char -> bool) returns (i: nat)
    ensures i + |Strip(s, ws)| <= |s| && Strip(s, ws) == s[i..i + |Strip(s, ws)|]
  {
    var t := TrimStart(s, ws);
    i := |s| - |t|;
    var r := TrimEnd(t, ws);
    assert t == s[i..];
    assert r == t[..|r|];
  }

  /** Strip yields the empty string exactly when every character is of class `ws`. */
  lemma StripEmptyIff(s: string, ws: char -> bool)
    ensures Strip(s, ws) == [] <==> forall i :: 0 <= i < |s| ==> ws(s[i])
  {
    var t := TrimStart(s, ws);
    if !(forall i :: 0 <= i < |s| ==> ws(s[i])) && t != [] {
      assert TrimEnd(t, ws) != [];
    }
  }

  predicate OccursAt(text: string, needle: string, i: nat) {
    i + |needle| <= |text| && text[i..i + |needle|] == needle
  }

  /** Python's `text.find(needle, start)`: the first occurrence at or after `start`, or -1. */
  function FindFrom(text: string, needle: string, start: nat): (r: int)
    ensures r == -1 || (start <= r && OccursAt(text, needle, r))
    ensures r != -1 ==> forall j: nat :: start <= j < r ==> !OccursAt(text, needle, j)
    ensures r == -1 ==> forall j: nat :: start <= j ==> !OccursAt(text, needle, j)
    decreases |text| - start
  {
    if start + |needle| > |text| then -1
    else if OccursAt(text, needle, start) then start
    else FindFrom(text, needle, start + 1)
  }

  /** Python's `needle in text` and JavaScript's `text.includes(needle)`. */
  predicate Contains(text: string, needle: string) {
    FindFrom(text, needle, 0) >= 0
  }

  lemma ContainsIff(text: string, needle: string)
    ensures Contains(text, needle) <==> exists i: nat :: OccursAt(text, needle, i)
  {
    if exists i: nat :: OccursAt(text, needle, i) {
      var i: nat :| OccursAt(text, needle, i);
      assert FindFrom(text, needle, 0) != -1;
    }
  }

  /** An occurrence inside a piece of a string is an occurrence in the whole string. */
  lemma ContainsInfix(a: string, y: string, b: string, needle: string)
    ensures Contains(y, needle) ==> Contains(a + y + b, needle)
  {
    if Contains(y, needle) {
      ContainsIff(y, needle);
      var i: nat :| OccursAt(y, needle, i);
      var x := a + y + b;
      assert x[|a| + i..|a| + i + |needle|] == y[i..i + |needle|];
      assert OccursAt(x, needle, |a| + i);
      ContainsIff(x, needle);
    }
  }

  /** Python's `s.replace(needle, "")`: every non-overlapping occurrence, leftmost first, is removed. */
  function RemoveAll(s: string, needle: string): (r: string)
    ensures |r| <= |s|
    decreases |s|
  {
    if needle == [] || s == [] then s
    else if OccursAt(s, needle, 0) then RemoveAll(s[|needle|..], needle)
    else [s[0]] + RemoveAll(s[1..], needle)
  }

  /** Python's `s.split(p)[0]` for a non-empty separator: the text before the first `p`. */
  function Before(s: string, p: string): (r: string)
    requires p != []
    ensures |r| <= |s| && r == s[..|r|]
    ensures !Contains(r, p)
    ensures !Contains(s, p) ==> r == s
    ensures Contains(s, p) ==> OccursAt(s, p, |r|)
  {
    var i := FindFrom(s, p, 0);
    if i < 0 then s
    else
      var r := s[..i];
      assert forall j: nat :: OccursAt(r, p, j) ==> OccursAt(s, p, j) by {
        forall j: nat | OccursAt(r, p, j) ensures OccursAt(s, p, j) {
          assert s[j..j + |p|] == r[j..j + |p|];
        }
      }
      ContainsIff(r, p);
      r
  }

  predicate StartsWith(s: string, prefix: string) {
    |prefix| <= |s| && s[..|prefix|] == prefix
  }

  function LowerChar(c: char): char {
    if 'A' <= c <= 'Z' then (c as int + 32) as char else c
  }

  /** Lower-casing of the ASCII letters; every other character is kept. */
  function LowerAscii(s: string): (r: string)
    ensures |r| == |s|
    ensures forall i :: 0 <= i < |s| ==> r[i] == LowerChar(s[i])
  {
    seq(|s|, i requires 0 <= i < |s| => LowerChar(s[i]))
  }

  function DigitChar(d: nat): char
    requires d < 10
  {
    ('0' as int + d) as char
  }

  /** The decimal rendering of a natural number, as Python's `str(n)` and JavaScript's template literals give it. */
  function NatToString(n: nat): (r: string)
    ensures |r| >= 1
    ensures forall i :: 0 <= i < |r| ==> '0' <= r[i] <= '9'
  {
    if n < 10 then [DigitChar(n)] else NatToString(n / 10) + [DigitChar(n % 10)]
  }

  /** The number a string of decimal digits denotes. */
  function DecimalValue(s: string): nat
    requires forall i :: 0 <= i < |s| ==> '0' <= s[i] <= '9'
  {
    if s == [] then 0 else DecimalValue(s[..|s| - 1]) * 10 + (s[|s| - 1] as int - '0' as int)
  }

  /** The rendering reads back as the number it renders. */
  lemma {:induction false} NatToStringValue(n: nat)
    ensures DecimalValue(NatToString(n)) == n
  {
    if n >= 10 {
      var s := NatToString(n);
      assert s[..|s| - 1] == NatToString(n / 10);
      NatToStringValue(n / 10);
    }
  }

  /** Distinct numbers render differently. */
  lemma NatToStringInjective(m: nat, n: nat)
    ensures NatToString(m) == NatToString(n) ==> m == n
  {
    NatToStringValue(m);
    NatToStringValue(n);
  }
}
