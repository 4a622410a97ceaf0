/** Character classes used by both lexers (src/js/compiler/lexer/predicates.js). */
module Predicates {

  /** Space, tab, carriage return and line feed; nothing else. */
  predicate IsWhitespace(c: char) {
    c == ' ' || c == '\t' || c == '\r' || c == '\n'
  }

  /** ASCII letters only. */
  predicate IsLetter(c: char) {
    'a' <= c <= 'z' || 'A' <= c <= 'Z'
  }

  /** ASCII decimal digits only. */
  predicate IsDigit(c: char) {
    '0' <= c <= '9'
  }

  /** A character that may continue an identifier. */
  predicate IsWordChar(c: char) {
    IsLetter(c) || IsDigit(c)
  }

  /** No character belongs to two of the three classes. */
  lemma ClassesDisjoint(c: char)
    ensures !(IsWhitespace(c) && IsLetter(c))
    ensures !(IsWhitespace(c) && IsDigit(c))
    ensures !(IsLetter(c) && IsDigit(c))
  {
  }
}
