/**
 * The Kotlin standard-library string predicates the app relies on:
 * `isEmpty`, `isBlank` (and its negation `isNotBlank`), and the ASCII
 * digits that both `java.time` number parsing and the regex class `\d`
 * accept.
 */
module Chars {
  /**
   * Kotlin's `Char.isWhitespace` on the JVM: `Character.isWhitespace` or
   * `Character.isSpaceChar`. That is the controls TAB..CR and FS..US, and
   * every character of the Unicode categories Zs, Zl and Zp.
   */
  predicate IsWhitespace(c: char) {
    || ('\t' <= c <= '\r')
    || ('\U{001C}' <= c <= ' ')
    || c == '\U{00A0}'
    || c == '\U{1680}'
    || ('\U{2000}' <= c <= '\U{200A}')
    || c == '\U{2028}'
    || c == '\U{2029}'
    || c == '\U{202F}'
    || c == '\U{205F}'
    || c == '\U{3000}'
  }

  /** `CharSequence.isBlank()`: empty, or whitespace only. */
  predicate IsBlank(s: string) {
    forall i :: 0 <= i < |s| ==> IsWhitespace(s[i])
  }

  /** `CharSequence.isEmpty()`. */
  predicate IsEmpty(s: string) {
    |s| == 0
  }

  /** The characters '0'..'9' (regex `\d` without UNICODE_CHARACTER_CLASS). */
  predicate IsDigit(c: char) {
    '0' <= c <= '9'
  }

  function DigitValue(c: char): (d: int)
    requires IsDigit(c)
    ensures 0 <= d <= 9
  {
    c as int - '0' as int
  }

  function DigitChar(d: int): (c: char)
    requires 0 <= d <= 9
    ensures IsDigit(c) && DigitValue(c) == d
  {
    ('0' as int + d) as char
  }

  /** A digit is never whitespace, so a string holding a digit is not blank. */
  lemma DigitMakesNotBlank(s: string, i: int)
    requires 0 <= i < |s| && IsDigit(s[i])
    ensures !IsBlank(s)
  {
    assert !IsWhitespace(s[i]);
  }
}
