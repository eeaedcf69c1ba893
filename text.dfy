/** The JavaScript string primitives the request handler leans on: the whitespace class
    `\s` (also what `String.prototype.trim` removes), `trim`, and the lowercasing used to
    compare keys. Strings are sequences of Unicode scalar values, not UTF-16 code units. */
module Text {

  /** ECMAScript WhiteSpace and LineTerminator code points. */
  predicate IsSpace(c: char) {
    || c == '\t' || c == '\n' || c == '\U{000B}' || c == '\U{000C}' || c == '\r' || c == ' '
    || c == '\U{00A0}' || c == '\U{1680}' || ('\U{2000}' <= c <= '\U{200A}')
    || c == '\U{2028}' || c == '\U{2029}' || c == '\U{202F}' || c == '\U{205F}'
    || c == '\U{3000}' || c == '\U{FEFF}'
  }

  /** The code points a regular-expression `.` does not match (no `s` flag). */
  predicate IsLineTerminator(c: char) {
    c == '\n' || c == '\r' || c == '\U{2028}' || c == '\U{2029}'
  }

  /** The class `[A-Za-z]`. */
  predicate IsAsciiLetter(c: char) {
    ('A' <= c <= 'Z') || ('a' <= c <= 'z')
  }

  predicate AllSpace(s: string) {
    forall i :: 0 <= i < |s| ==> IsSpace(s[i])
  }

  predicate NoSpace(s: string) {
    forall i :: 0 <= i < |s| ==> !IsSpace(s[i])
  }

  predicate AllLetters(s: string) {
    forall i :: 0 <= i < |s| ==> IsAsciiLetter(s[i])
  }

  predicate NoLineTerminator(s: string) {
    forall i :: 0 <= i < |s| ==> !IsLineTerminator(s[i])
  }

  /** Length of the longest all-whitespace prefix of `s`. */
  function LeadingSpaceCount(s: string): (n: nat)
    ensures n <= |s| && AllSpace(s[..n])
    ensures n < |s| ==> !IsSpace(s[n])
  {
    if s == [] || !IsSpace(s[0]) then 0 else 1 + LeadingSpaceCount(s[1..])
  }

  /** Length of the longest all-whitespace suffix of `s`. */
  function TrailingSpaceCount(s: string): (n: nat)
    ensures n <= |s| && AllSpace(s[|s| - n..])
    ensures n < |s| ==> !IsSpace(s[|s| - n - 1])
  {
    if s == [] || !IsSpace(s[|s| - 1]) then 0 else 1 + TrailingSpaceCount(s[..|s| - 1])
  }

  /** Length of the longest `[A-Za-z]` prefix of `s`. */
  function LeadingLetterCount(s: string): (n: nat)
    ensures n <= |s| && AllLetters(s[..n])
    ensures n < |s| ==> !IsAsciiLetter(s[n])
  {
    if s == [] || !IsAsciiLetter(s[0]) then 0 else 1 + LeadingLetterCount(s[1..])
  }

  /** `r` is `s` with the whitespace run of length `a` removed in front and only
      whitespace removed behind. */
  ghost predicate IsTrimAt(s: string, a: int, r: string) {
    && 0 <= a <= |s| - |r|
    && s[a..a + |r|] == r
    && AllSpace(s[..a])
    && AllSpace(s[a + |r|..])
  }

  /** `String.prototype.trim`: the result is `s` without leading and trailing
      whitespace, and keeps no whitespace at either end. */
  function Trim(s: string): (r: string)
    ensures exists a :: IsTrimAt(s, a, r)
    ensures r == "" <==> AllSpace(s)
    ensures r != "" ==> !IsSpace(r[0]) && !IsSpace(r[|r| - 1])
  {
    var a := LeadingSpaceCount(s);
    var rest := s[a..];
    var b := TrailingSpaceCount(rest);
    var r := rest[..|rest| - b];
    assert IsTrimAt(s, a, r) by {
      assert s[a + |r|..] == rest[|rest| - b..];
    }
    assert AllSpace(s) ==> a == |s|;
    r
  }

  /** A string that neither starts nor ends with whitespace is its own trim. */
  lemma TrimKeepsTrimmed(s: string)
    requires s != "" && !IsSpace(s[0]) && !IsSpace(s[|s| - 1])
    ensures Trim(s) == s
  {
    var r := Trim(s);
    var a :| IsTrimAt(s, a, r);
  }

  /** ASCII lowercasing, what a case-insensitive (`i` flag, non-Unicode) regular
      expression compares for ASCII letters. */
  function AsciiLower(c: char): (d: char)
    ensures ('A' <= c <= 'Z') ==> 'a' <= d <= 'z' && d as int == c as int + 32
    ensures !('A' <= c <= 'Z') ==> d == c
  {
    if 'A' <= c <= 'Z' then (c as int + 32) as char else c
  }

  /** `String.prototype.toLowerCase` restricted to what decides membership in a set of
      lower-case ASCII words: A-Z and the Kelvin sign (U+212A) map to ASCII letters;
      every other character is kept, and no other character lowercases to ASCII
      on its own. */
  function KeyLowerChar(c: char): (d: char)
    ensures IsAsciiLetter(d) ==> IsAsciiLetter(c) || c == '\U{212A}'
  {
    if c == '\U{212A}' then 'k' else AsciiLower(c)
  }

  function KeyLower(s: string): (r: string)
    ensures |r| == |s|
    ensures forall i :: 0 <= i < |s| ==> r[i] == KeyLowerChar(s[i])
    ensures forall i :: 0 <= i < |r| ==> !('A' <= r[i] <= 'Z')
  {
    seq(|s|, i requires 0 <= i < |s| => KeyLowerChar(s[i]))
  }

  /** Two strings equal when ASCII letters are compared without regard to case. */
  predicate EqualsIgnoreAsciiCase(s: string, t: string) {
    |s| == |t| && forall i :: 0 <= i < |s| ==> AsciiLower(s[i]) == AsciiLower(t[i])
  }
}
