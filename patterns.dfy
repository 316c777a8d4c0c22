/**
 * Character classes of the regular expressions used by both service generations, and the
 * upstream URL expression, which both generations spell identically.
 */
module Patterns {
  import opened Text

  predicate IsLower(c: char) { 'a' <= c <= 'z' }

  predicate IsUpper(c: char) { 'A' <= c <= 'Z' }

  predicate IsAsciiLetter(c: char) { IsLower(c) || IsUpper(c) }

  predicate IsAsciiAlnum(c: char) { IsAsciiLetter(c) || IsDigit(c) }

  /** `\s` in a Python text pattern: ASCII and Unicode white space. */
  predicate IsSpace(c: char)
  {
    var n := c as int;
    || n == 0x20 || (0x09 <= n <= 0x0D) || (0x1C <= n <= 0x1F) || n == 0x85 || n == 0xA0
    || n == 0x1680 || (0x2000 <= n <= 0x200A) || n == 0x2028 || n == 0x2029 || n == 0x202F
    || n == 0x205F || n == 0x3000
  }

  predicate IsHexDigit(c: char)
  {
    IsDigit(c) || ('a' <= c <= 'f') || ('A' <= c <= 'F')
  }

  /**
   * One single-character alternative of the upstream URL expression:
   * `[a-zA-Z]`, `[0-9]`, `[$-_@.&+]` (the range from '$' to '_' and three more) or `[!*\(\),]`.
   */
  predicate IsUrlChar(c: char)
  {
    || IsAsciiLetter(c) || IsDigit(c)
    || ('$' <= c <= '_') || c == '@' || c == '.' || c == '&' || c == '+'
    || c == '!' || c == '*' || c == '(' || c == ')' || c == ','
  }

  /**
   * `(?:[a-zA-Z]|[0-9]|[$-_@.&+]|[!*\(\),]|(?:%[0-9a-fA-F][0-9a-fA-F]))+` matched against all of `s`:
   * one or more atoms, each a URL character or a percent escape.
   */
  predicate UrlAtoms(s: string)
    decreases |s|
  {
    && |s| >= 1
    && (|| (IsUrlChar(s[0]) && (|s| == 1 || UrlAtoms(s[1..])))
        || (|s| >= 3 && s[0] == '%' && IsHexDigit(s[1]) && IsHexDigit(s[2])
            && (|s| == 3 || UrlAtoms(s[3..]))))
  }

  /** The whole upstream URL expression: `http[s]?://` followed by the atoms. */
  predicate MatchesUpstreamUrl(s: string)
  {
    || (StartsWith(s, "http://") && UrlAtoms(s[7..]))
    || (StartsWith(s, "https://") && UrlAtoms(s[8..]))
  }

  /**
   * The percent-escape alternative adds nothing: '%' lies in the range `$-_` and hex digits are
   * letters or digits, so the atoms are exactly the non-empty runs of URL characters.
   */
  lemma {:induction false} UrlAtomsAreUrlChars(s: string)
    ensures UrlAtoms(s) <==> |s| >= 1 && forall i :: 0 <= i < |s| ==> IsUrlChar(s[i])
  {
    if |s| >= 2 {
      UrlAtomsAreUrlChars(s[1..]);
      assert forall i :: 1 <= i < |s| ==> s[1..][i - 1] == s[i];
    }
    if |s| >= 4 {
      UrlAtomsAreUrlChars(s[3..]);
      assert forall i :: 3 <= i < |s| ==> s[3..][i - 3] == s[i];
    }
  }
}
