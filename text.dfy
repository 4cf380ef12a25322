/**
  The pieces of JavaScript's string semantics that the handler relies on:
  the white-space class `\s`, `String.prototype.trim`, letter case, and
  case-insensitive substring tests with an ASCII pattern.
 */
module JsText {

  /**
    The characters matched by `\s` in a regular expression. `trim` removes
    exactly the same characters (ECMAScript's WhiteSpace and LineTerminator).
   */
  predicate IsWhitespace(c: char) {
    || c == '\t' || c == '\n' || c == '\U{B}' || c == '\U{C}' || c == '\r' || c == ' '
    || c == '\U{A0}' || c == '\U{1680}' || ('\U{2000}' <= c <= '\U{200A}')
    || c == '\U{2028}' || c == '\U{2029}' || c == '\U{202F}' || c == '\U{205F}'
    || c == '\U{3000}' || c == '\U{FEFF}'
  }

  predicate IsUpperAscii(c: char) { 'A' <= c <= 'Z' }
  predicate IsLowerAscii(c: char) { 'a' <= c <= 'z' }
  predicate IsAsciiLetter(c: char) { IsUpperAscii(c) || IsLowerAscii(c) }

  /** `\d` without the `u` flag. */
  predicate IsDigit(c: char) { '0' <= c <= '9' }

  predicate AllWhitespace(s: string) {
    forall i :: 0 <= i < |s| ==> IsWhitespace(s[i])
  }

  /** Drops the leading white space. */
  function TrimStart(s: string): string {
    if s != [] && IsWhitespace(s[0]) then TrimStart(s[1..]) else s
  }

  /** Drops the trailing white space. */
  function TrimEnd(s: string): string {
    if s != [] && IsWhitespace(s[|s| - 1]) then TrimEnd(s[..|s| - 1]) else s
  }

  /** `s.trim()` */
  function Trim(s: string): string {
    TrimEnd(TrimStart(s))
  }

  /** `TrimStart` removes a white-space prefix and stops at the first other character. */
  lemma {:induction false} TrimStartSpec(s: string)
    ensures |TrimStart(s)| <= |s| && TrimStart(s) == s[|s| - |TrimStart(s)|..]
    ensures AllWhitespace(s[..|s| - |TrimStart(s)|])
    ensures TrimStart(s) == [] || !IsWhitespace(TrimStart(s)[0])
  {
    if s != [] && IsWhitespace(s[0]) {
      TrimStartSpec(s[1..]);
      var k := |s| - |TrimStart(s)|;
      assert s[..k] == [s[0]] + s[1..][..k - 1];
    }
  }

  /** `TrimEnd` removes a white-space suffix and stops at the last other character. */
  lemma {:induction false} TrimEndSpec(s: string)
    ensures |TrimEnd(s)| <= |s| && TrimEnd(s) == s[..|TrimEnd(s)|]
    ensures AllWhitespace(s[|TrimEnd(s)|..])
    ensures TrimEnd(s) == [] || !IsWhitespace(TrimEnd(s)[|TrimEnd(s)| - 1])
  {
    if s != [] && IsWhitespace(s[|s| - 1]) {
      var p := s[..|s| - 1];
      TrimEndSpec(p);
      var k := |TrimEnd(s)|;
      assert s[k..] == p[k..] + [s[|s| - 1]];
    }
  }

  /**
    Trimming splits `s` into white space, the trimmed text and white space; the
    trimmed text neither starts nor ends with white space, and it is empty
    exactly when `s` is all white space.
   */
  lemma TrimSplits(s: string) returns (lead: string, trail: string)
    ensures s == lead + Trim(s) + trail
    ensures AllWhitespace(lead) && AllWhitespace(trail)
    ensures Trim(s) == [] || (!IsWhitespace(Trim(s)[0]) && !IsWhitespace(Trim(s)[|Trim(s)| - 1]))
    ensures Trim(s) == [] <==> AllWhitespace(s)
  {
    var t := TrimStart(s);
    TrimStartSpec(s);
    TrimEndSpec(t);
    lead := s[..|s| - |t|];
    trail := t[|Trim(s)|..];
    assert s == lead + t;
    assert t == Trim(s) + trail;
    if Trim(s) != [] {
      assert Trim(s)[0] == t[0];
    }
    if Trim(s) == [] {
      assert s == lead + trail;
      assert trail == [];
    }
  }

  /** Trimming twice is trimming once. */
  lemma TrimIdempotent(s: string)
    ensures Trim(Trim(s)) == Trim(s)
  {
    var _, _ := TrimSplits(s);
    TrimOfTrimmed(Trim(s));
  }

  /** A string whose ends are not white space is its own trimmed form. */
  lemma TrimOfTrimmed(s: string)
    requires s == [] || (!IsWhitespace(s[0]) && !IsWhitespace(s[|s| - 1]))
    ensures Trim(s) == s
  {
    if s != [] {
      assert TrimStart(s) == s;
      assert TrimEnd(s) == s;
    }
  }

  /** ASCII case mapping, the only one the regular-expression `i` flag applies to ASCII patterns. */
  function AsciiLowerChar(c: char): char {
    if IsUpperAscii(c) then (c as int + 32) as char else c
  }

  const KelvinSign: char := '\U{212A}'

  /**
    `toLowerCase` on one character, as far as the handler can observe it: ASCII
    letters, and the KELVIN SIGN, the one non-ASCII character whose lower-case
    form is an ASCII letter. Every other character is left as it is.
   */
  function LowerChar(c: char): char {
    if c == KelvinSign then 'k' else AsciiLowerChar(c)
  }

  /** `s.toLowerCase()` */
  function ToLowerCase(s: string): string {
    seq(|s|, i requires 0 <= i < |s| => LowerChar(s[i]))
  }

  /**
    `c.toUpperCase()` for the first character of a surviving city name, which
    is an ASCII letter, a `\s` character or `-`: only the ASCII lower-case
    letters change. Characters whose upper case differs in JavaScript (such as
    "ß", which becomes "SS") never reach it, because the filter drops them.
   */
  function UpperChar(c: char): char {
    if IsLowerAscii(c) then (c as int - 32) as char else c
  }

  function AsciiLower(s: string): string {
    seq(|s|, i requires 0 <= i < |s| => AsciiLowerChar(s[i]))
  }

  /** `needle` occurs in `hay` starting at position `i`. */
  predicate OccursAt(hay: string, needle: string, i: nat) {
    i + |needle| <= |hay| && forall k :: 0 <= k < |needle| ==> hay[i + k] == needle[k]
  }

  /** `needle` occurs in `hay` as a contiguous block. */
  predicate Contains(hay: string, needle: string) {
    exists i: nat :: i <= |hay| && OccursAt(hay, needle, i)
  }

  /** `/term/i.test(s)` for a lower-case ASCII `term`. */
  predicate ContainsIgnoreCase(s: string, term: string) {
    Contains(AsciiLower(s), term)
  }

  /** Lower-casing twice is lower-casing once. */
  lemma ToLowerCaseIdempotent(s: string)
    ensures ToLowerCase(ToLowerCase(s)) == ToLowerCase(s)
  {
  }
}
