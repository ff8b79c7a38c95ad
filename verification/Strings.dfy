/** Strings as C compares them. */
module Strings {

  function LowerChar(c: char): char {
    if 'A' <= c <= 'Z' then (c as int + 32) as char else c
  }

  /** tolower on every character. */
  function Lower(s: string): (r: string)
    ensures |r| == |s|
    ensures forall i | 0 <= i < |s| :: r[i] == LowerChar(s[i])
  {
    seq(|s|, i requires 0 <= i < |s| => LowerChar(s[i]))
  }

  /** isspace in the C locale. */
  predicate IsSpace(c: char) {
    c == ' ' || c == '\t' || c == '\n' || c == '\r' || c as int == 11 || c as int == 12
  }

  /** strcasecmp(a, b) == 0. */
  predicate EqualNoCase(a: string, b: string) {
    Lower(a) == Lower(b)
  }

  /** The C string a buffer holds: all before its first NUL. */
  function CString(s: string): (r: string)
    ensures r <= s
    ensures '\0' !in s ==> r == s
    ensures '\0' !in r
  {
    if s == [] || s[0] == '\0' then [] else [s[0]] + CString(s[1..])
  }
}
