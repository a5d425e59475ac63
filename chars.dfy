/**
  Character classes of Python's `re` module and `str` methods, restricted to
  ASCII (and the few non-ASCII whitespace code points listed in IsSpace).
 */
module Chars {

  predicate IsUpper(c: char) { 'A' <= c <= 'Z' }

  predicate IsLowerLetter(c: char) { 'a' <= c <= 'z' }

  /** `\d`, `str.isdigit`. */
  predicate IsDigit(c: char) { '0' <= c <= '9' }

  /** `\w`: letters, digits and the underscore. */
  predicate IsWordChar(c: char)
  {
    IsUpper(c) || IsLowerLetter(c) || IsDigit(c) || c == '_'
  }

  /** `\s`, `str.isspace`, and the separators of `str.split()` / `str.strip()`. */
  predicate IsSpace(c: char)
  {
    c == ' ' || c == '\t' || c == '\n' || c == '\r' || c == '\U{000B}' || c == '\U{000C}'
    || ('\U{001C}' <= c <= '\U{001F}') || c == '\U{0085}' || c == '\U{00A0}'
  }

  /** `str.lower` on one character. */
  function Lower(c: char): (r: char)
    ensures IsUpper(c) ==> IsLowerLetter(r)
    ensures !IsUpper(c) ==> r == c
    ensures !IsUpper(r)
    ensures IsWordChar(r) == IsWordChar(c)
    ensures IsDigit(r) == IsDigit(c)
    ensures IsSpace(r) == IsSpace(c)
  {
    if IsUpper(c) then (c as int + 32) as char else c
  }

  /** `str.lower`: maps every character and keeps the length. */
  function LowerStr(s: string): (r: string)
    ensures |r| == |s|
    ensures forall i :: 0 <= i < |s| ==> r[i] == Lower(s[i])
  {
    seq(|s|, i requires 0 <= i < |s| => Lower(s[i]))
  }
}
