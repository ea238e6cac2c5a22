/** Character classes used by the fixed patterns of both checkers. */
module Chars {

  predicate IsDigit(c: char) { '0' <= c <= '9' }

  /** `\w`: ASCII letters, digits and underscore. */
  predicate IsWordChar(c: char) {
    'a' <= c <= 'z' || 'A' <= c <= 'Z' || IsDigit(c) || c == '_'
  }

  /** `isspace` in the "C" locale, which is also what `\s` means to `std::regex`. */
  predicate IsCSpace(c: char) {
    c == ' ' || c == '\t' || c == '\n' || c == '\U{B}' || c == '\U{C}' || c == '\r'
  }

  /** Python's `str.isspace`, which `str.strip()` and `\s` in a `str` pattern both use. */
  predicate IsPySpace(c: char) {
    IsCSpace(c) || '\U{1C}' <= c <= '\U{1F}' || c == '\U{85}' || c == '\U{A0}' || c == '\U{1680}'
    || '\U{2000}' <= c <= '\U{200A}' || c == '\U{2028}' || c == '\U{2029}' || c == '\U{202F}'
    || c == '\U{205F}' || c == '\U{3000}'
  }

  /** Characters that `.` in a `std::regex` (ECMAScript grammar) does not match. */
  predicate IsCLineBreak(c: char) { c == '\n' || c == '\r' }

  /** Characters that `.` in a `std::regex` matches. */
  predicate IsCDot(c: char) { !IsCLineBreak(c) }

  /** Characters that `.` in a Python pattern matches (no DOTALL flag). */
  predicate IsPyDot(c: char) { c != '\n' }

  /** The character classes the scanners are given, named so that a scanner
      takes a class as a value rather than a predicate. */
  datatype CharClass = CSpace | PySpace | Digit | WordChar | CDot | PyDot

  /** Whether `c` belongs to class `k`. */
  predicate In(c: char, k: CharClass) {
    match k
    case CSpace => IsCSpace(c)
    case PySpace => IsPySpace(c)
    case Digit => IsDigit(c)
    case WordChar => IsWordChar(c)
    case CDot => IsCDot(c)
    case PyDot => IsPyDot(c)
  }
}
