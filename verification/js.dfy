/**
 The JavaScript values and string primitives the registration code relies on:
 the shape of one field of a parsed JSON request body, `String.prototype.includes`,
 and the `\d` and `\s` character classes of a non-Unicode regular expression.
 */
module Js {

  datatype Option<+T> = None | Some(value: T)

  /** One property of a JSON object as a schema sees it. `Absent` is a missing key
      (`undefined`); `Other` is any value that is neither a string nor a boolean
      (a number, `null`, an array or an object). */
  datatype Value = Absent | Str(s: string) | Bool(b: bool) | Other

  /** `part` occurs in `s` starting at offset `i`. */
  predicate OccursAt(s: string, part: string, i: int) {
    0 <= i <= |s| - |part| && s[i..i + |part|] == part
  }

  /** `s.includes(part)`: `part` occurs in `s` at some offset. */
  predicate Includes(s: string, part: string) {
    exists i | 0 <= i <= |s| - |part| :: OccursAt(s, part, i)
  }

  /** `\d` without the `u` flag: the ASCII digits only. */
  predicate IsDigit(c: char) {
    '0' <= c <= '9'
  }

  /** `\s`: the ECMAScript WhiteSpace and LineTerminator code points
      (tab, line tabulation, form feed, no-break space U+FEFF, the Unicode
      space separators, line feed, carriage return, U+2028 and U+2029). */
  predicate IsSpace(c: char) {
    || c == '\t' || c == '\n' || c == '\U{000B}' || c == '\U{000C}' || c == '\r'
    || c == ' ' || c == '\U{00A0}' || c == '\U{1680}'
    || ('\U{2000}' <= c <= '\U{200A}')
    || c == '\U{2028}' || c == '\U{2029}' || c == '\U{202F}' || c == '\U{205F}'
    || c == '\U{3000}' || c == '\U{FEFF}'
  }

  lemma {:induction false} IncludesItself(s: string)
    ensures Includes(s, s)
  {
    assert OccursAt(s, s, 0);
  }

  lemma {:induction false} IncludesPrefix(s: string, part: string)
    requires |part| <= |s| && s[..|part|] == part
    ensures Includes(s, part)
  {
    assert OccursAt(s, part, 0);
  }
}
