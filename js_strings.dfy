/**
 The few JavaScript string built-ins the registration form relies on:
 `String.prototype.trim`, the regular-expression class `\s` and the
 `length` property, which counts UTF-16 code units.
 */
module JsStrings {

  /** ECMAScript WhiteSpace and LineTerminator code points: the set that
      `trim` strips and that the regular-expression class `\s` matches. */
  predicate IsWhiteSpace(c: char) {
    || c == '\t' || c == '\U{000B}' || c == '\U{000C}' || c == ' '
    || c == '\U{00A0}' || c == '\U{FEFF}'
    || c == '\n' || c == '\r' || c == '\U{2028}' || c == '\U{2029}'
    || c == '\U{1680}' || ('\U{2000}' <= c <= '\U{200A}')
    || c == '\U{202F}' || c == '\U{205F}' || c == '\U{3000}'
  }

  ghost predicate AllWhiteSpace(s: string) {
    forall i :: 0 <= i < |s| ==> IsWhiteSpace(s[i])
  }

  /** No character of `s[lo..hi]` is whitespace. */
  predicate NoWhiteSpaceIn(s: string, lo: int, hi: int)
    requires 0 <= lo <= hi <= |s|
  {
    forall k :: lo <= k < hi ==> !IsWhiteSpace(s[k])
  }

  /** Length of the longest whitespace prefix of `s`. */
  function LeadingWhiteSpace(s: string): (n: nat)
    ensures n <= |s|
    ensures forall i :: 0 <= i < n ==> IsWhiteSpace(s[i])
    ensures n < |s| ==> !IsWhiteSpace(s[n])
  {
    if s != [] && IsWhiteSpace(s[0]) then 1 + LeadingWhiteSpace(s[1..]) else 0
  }

  /** Length of the longest whitespace suffix of `s`. */
  function TrailingWhiteSpace(s: string): (n: nat)
    ensures n <= |s|
    ensures forall i :: |s| - n <= i < |s| ==> IsWhiteSpace(s[i])
    ensures n < |s| ==> !IsWhiteSpace(s[|s| - 1 - n])
  {
    if s != [] && IsWhiteSpace(s[|s| - 1]) then 1 + TrailingWhiteSpace(s[..|s| - 1]) else 0
  }

  /** `s.trim()`: `s` without its leading and trailing whitespace. */
  function Trim(s: string): (r: string)
    ensures |r| <= |s|
    ensures r == [] || (!IsWhiteSpace(r[0]) && !IsWhiteSpace(r[|r| - 1]))
  {
    var rest := s[LeadingWhiteSpace(s)..];
    rest[..|rest| - TrailingWhiteSpace(rest)]
  }

  /** `!s.trim()` holds exactly when every character of `s` is whitespace. */
  lemma TrimEmptyIffAllWhiteSpace(s: string)
    ensures Trim(s) == [] <==> AllWhiteSpace(s)
  {
  }

  /** `s.trim()` is `s` with a whitespace prefix and a whitespace suffix
      cut off, and nothing else. */
  lemma TrimCutsWhiteSpaceOnly(s: string)
    ensures var a := LeadingWhiteSpace(s);
      && a + |Trim(s)| <= |s|
      && s[a..a + |Trim(s)|] == Trim(s)
      && AllWhiteSpace(s[..a])
      && AllWhiteSpace(s[a + |Trim(s)|..])
  {
  }

  /** The number of UTF-16 code units of `s`, which is what `s.length`
      counts: a code point above U+FFFF takes a surrogate pair. */
  function JsLength(s: string): (n: nat)
    ensures |s| <= n <= 2 * |s|
    ensures n == 0 <==> s == []
    ensures (forall i :: 0 <= i < |s| ==> s[i] as int < 0x1_0000) ==> n == |s|
  {
    if s == [] then 0 else (if s[0] as int >= 0x1_0000 then 2 else 1) + JsLength(s[1..])
  }
}
