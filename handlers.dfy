/**
 * The functions a symbol can hold in its `nud`, `led` and `std` slots
 * (src/js/compiler/parser/not-implemented.js and the closures the symbol
 * factories install). Closures become data; what each one does when the
 * parser calls it is defined in module Parser (`ApplyNud`, `ApplyLed`).
 */
module Handlers {
  import opened Tokens

  datatype Handler =
      /** The shared `notImplemented` sentinel; calling it throws 'Not Implemented'. */
    | NotImplemented
      /** `({type, value}) => ({type, value})`: copies the token's type and value. */
    | CopyToken
      /** A prefix operator of the given kind: parses its operand at the owning
         symbol's `rbp`; when `guarded`, first fails at end of file. */
    | Prefix(kind: TokenKind, guarded: bool)
      /** An infix operator of the given kind: parses its right operand at the
         owning symbol's `rbp`; when `guarded`, first fails at end of file. */
    | Infix(kind: TokenKind, guarded: bool)
      /** The `LeftParen` nud, which calls a `next` method the parser lacks. */
    | CallsMissingNext

  /** `isImplemented`: anything but the sentinel itself, so every handler a
      symbol factory installs counts as implemented. */
  predicate IsImplemented(h: Handler): (r: bool)
    ensures r <==> h.CopyToken? || h.Prefix? || h.Infix? || h.CallsMissingNext?
  {
    h != NotImplemented
  }

  /** `isNotImplemented`, defined in the source as the negation of
      `isImplemented`: it holds of the sentinel and of nothing else. */
  predicate IsNotImplemented(h: Handler): (r: bool)
    ensures r <==> h == NotImplemented
  {
    !IsImplemented(h)
  }
}
