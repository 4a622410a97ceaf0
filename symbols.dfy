/**
 * The symbol factories of src/js/compiler/parser/symbols.js. They build the
 * same symbols as the parser's own factories, except that the prefix and
 * infix handlers first check the consumer's `hasTopToken(EOF)` and throw
 * 'Unexpected end of file' when the operand would be the end marker. The
 * consumer is modelled as the token list and the position of `Parser`.
 *
 * The second half proves what the check changes: on a token list whose only
 * `EOF` is the appended one, the guarded handlers succeed exactly when the
 * unguarded ones do, with the same trees; only the error can differ.
 */
module ParserSymbols {
  import opened Wrappers
  import opened Tokens
  import opened Handlers
  import opened ParserSymbol
  import opened Ast
  import opened Parser
  import ParserProperties

  /** `createSymbol(type)`: a bare symbol. */
  method CreateSymbol(kind: TokenKind) returns (s: Symbol)
    ensures fresh(s) && s.Record() == SymbolRecord(kind, NoHandler, NoHandler, NoHandler, 0, 0)
  {
    s := new Symbol(kind);
  }

  /** `literalSymbol(type)`: its nud copies the token's type and value. */
  method LiteralSymbol(kind: TokenKind) returns (s: Symbol)
    ensures fresh(s) && s.Record() == LiteralRecord(kind)
  {
    s := CreateSymbol(kind);
    s := s.WithNud(CopyToken);
  }

  /** `prefixSymbol(type)`: a nud that checks for the end, then parses its
      operand at the symbol's `rbp`. */
  method PrefixSymbol(kind: TokenKind) returns (s: Symbol)
    ensures fresh(s)
    ensures s.Record() == SymbolRecord(kind, Slot(Prefix(kind, true), 0), NoHandler, NoHandler, 0, 0)
  {
    s := CreateSymbol(kind);
    s := s.WithNud(Prefix(kind, true));
  }

  /** `infixSymbol(type)`: a led that checks for the end, then parses its
      right operand at the symbol's `rbp`. */
  method InfixSymbol(kind: TokenKind) returns (s: Symbol)
    ensures fresh(s)
    ensures s.Record() == SymbolRecord(kind, NoHandler, Slot(Infix(kind, true), 0), NoHandler, 0, 0)
  {
    s := CreateSymbol(kind);
    s := s.WithLed(Infix(kind, true));
  }

  /** `statementSymbol(type)`: a bare symbol (no statements are parsed yet). */
  method StatementSymbol(kind: TokenKind) returns (s: Symbol)
    ensures fresh(s) && s.Record() == SymbolRecord(kind, NoHandler, NoHandler, NoHandler, 0, 0)
  {
    s := CreateSymbol(kind);
  }

  /** `EOFSymbol()`: a bare symbol for `EOF`. */
  method EOFSymbol() returns (s: Symbol)
    ensures fresh(s) && s.Record() == SymbolRecord(EOF, NoHandler, NoHandler, NoHandler, 0, 0)
  {
    s := CreateSymbol(EOF);
  }

  /** The handler this file's factories install where the parser's own
      factories install `h`. */
  function GuardHandler(h: Handler): (g: Handler)
    ensures IsImplemented(g) <==> IsImplemented(h)
    ensures g.Prefix? <==> h.Prefix?
    ensures g.Infix? <==> h.Infix?
    ensures (g.Prefix? || g.Infix?) ==> g.kind == h.kind && g.guarded
    ensures !(h.Prefix? || h.Infix?) ==> g == h
  {
    match h
    case Prefix(k, _) => Prefix(k, true)
    case Infix(k, _) => Infix(k, true)
    case _ => h
  }

  function GuardSlot(s: Slot): Slot {
    Slot(GuardHandler(s.handler), s.rbp)
  }

  function GuardRecord(r: SymbolRecord): (g: SymbolRecord)
    ensures g.kind == r.kind && g.lbp == r.lbp && g.rbp == r.rbp
  {
    r.(nud := GuardSlot(r.nud), led := GuardSlot(r.led), std := GuardSlot(r.std))
  }

  /** A registry with every prefix and infix handler guarded. */
  function Guard(reg: Registry): (g: Registry)
    ensures g.Keys == reg.Keys
    ensures forall k :: k in reg ==> g[k] == GuardRecord(reg[k])
  {
    map k | k in reg :: GuardRecord(reg[k])
  }

  /** The symbols.js factories give the guarded form of the parser's own. */
  lemma FactoriesGuarded(kind: TokenKind)
    ensures GuardRecord(SymbolRecord(kind, Slot(Prefix(kind, false), 0), NoHandler, NoHandler, 0, 0))
         == SymbolRecord(kind, Slot(Prefix(kind, true), 0), NoHandler, NoHandler, 0, 0)
    ensures GuardRecord(SymbolRecord(kind, NoHandler, Slot(Infix(kind, false), 0), NoHandler, 0, 0))
         == SymbolRecord(kind, NoHandler, Slot(Infix(kind, true), 0), NoHandler, 0, 0)
    ensures GuardRecord(LiteralRecord(kind)) == LiteralRecord(kind)
  {
  }

  /** A guarded prefix `nud` or infix `led` that finds `EOF` next throws
      'Unexpected end of file' before it consumes anything. */
  lemma GuardedAtEnd(reg: Registry, toks: seq<Token>, q: nat, next: Peeked, left: Node)
    requires 0 < q < |toks| && toks[q].kind == EOF
    ensures next.symbol.nud.handler.Prefix? && next.symbol.nud.handler.guarded ==>
      ApplyNud(reg, toks, q, next) == Err(UnexpectedEndOfFile)
    ensures next.symbol.led.handler.Infix? && next.symbol.led.handler.guarded ==>
      ApplyLed(reg, toks, q, next, left) == Err(UnexpectedEndOfFile)
  {
  }

  /** Otherwise the guarded prefix `nud` builds `{type, right}` and the guarded
      infix `led` builds `{type, left, right}`, with `left` unchanged and
      `right` parsed at the `rbp` of the symbol the handler was built on. */
  lemma GuardedBeforeEnd(reg: Registry, toks: seq<Token>, q: nat, next: Peeked, left: Node)
    requires 0 < q <= |toks| && !HasTopToken(toks, q, EOF)
    ensures next.symbol.nud.handler.Prefix? ==>
      var right := ParseExpr(reg, toks, q, next.symbol.nud.rbp);
      ApplyNud(reg, toks, q, next)
        == if right.Ok? then Ok(Parsed(Unary(next.symbol.nud.handler.kind, right.value.node), right.value.pos))
           else Err(right.error)
    ensures next.symbol.led.handler.Infix? ==>
      var right := ParseExpr(reg, toks, q, next.symbol.led.rbp);
      ApplyLed(reg, toks, q, next, left)
        == if right.Ok? then Ok(Parsed(Binary(next.symbol.led.handler.kind, left, right.value.node), right.value.pos))
           else Err(right.error)
  {
  }

  /** The token list holds `EOF` only as its last token (as `parse` builds it
      from tokens that contain none). */
  ghost predicate EOFOnlyLast(toks: seq<Token>) {
    forall i :: 0 <= i < |toks| - 1 ==> toks[i].kind != EOF
  }

  /** Both succeed with the same result, or both fail. */
  predicate Agree<T(==)>(g: Result<T, ParseError>, u: Result<T, ParseError>) {
    (g.Ok? <==> u.Ok?) && (g.Ok? ==> g == u)
  }

  /** A `nud` or `led` that finds the last token next cannot parse an operand. */
  lemma NoOperandAtEnd(reg: Registry, toks: seq<Token>, q: nat, rbp: int)
    requires EOFOnlyLast(toks) && q < |toks| && HasTopToken(toks, q, EOF)
    ensures q == |toks| - 1 && ParseExpr(reg, toks, q, rbp).Err?
  {
  }

  lemma {:induction false} ExprAgrees(reg: Registry, toks: seq<Token>, pos: nat, rbp: int)
    requires EOFOnlyLast(toks) && pos <= |toks|
    ensures Agree(ParseExpr(Guard(reg), toks, pos, rbp), ParseExpr(reg, toks, pos, rbp))
    decreases |toks| - pos, 1
  {
    var g := Guard(reg);
    if pos < |toks| && toks[pos].kind in reg {
      var next := Peeked(toks[pos], reg[toks[pos].kind]);
      NudAgrees(reg, toks, pos + 1, next);
      var u := ApplyNud(reg, toks, pos + 1, next);
      if u.Ok? {
        LedAgrees(reg, toks, u.value.pos, rbp, u.value.node);
      }
    }
  }

  lemma {:induction false} LedAgrees(reg: Registry, toks: seq<Token>, p: nat, rbp: int, left: Node)
    requires EOFOnlyLast(toks) && p <= |toks|
    ensures Agree(LedLoop(Guard(reg), toks, p, rbp, left), LedLoop(reg, toks, p, rbp, left))
    decreases |toks| - p, 0
  {
    if p < |toks| && toks[p].kind in reg && rbp < reg[toks[p].kind].lbp {
      var next := Peeked(toks[p], reg[toks[p].kind]);
      LedStepAgrees(reg, toks, p + 1, next, left);
      var u := ApplyLed(reg, toks, p + 1, next, left);
      if u.Ok? {
        LedAgrees(reg, toks, u.value.pos, rbp, u.value.node);
      }
    }
  }

  lemma {:induction false} NudAgrees(reg: Registry, toks: seq<Token>, q: nat, next: Peeked)
    requires EOFOnlyLast(toks) && 0 < q <= |toks|
    ensures Agree(ApplyNud(Guard(reg), toks, q, Peeked(next.token, GuardRecord(next.symbol))),
                  ApplyNud(reg, toks, q, next))
    decreases |toks| - q, 2
  {
    var slot := next.symbol.nud;
    if slot.handler.Prefix? || slot.handler.Infix? {
      if HasTopToken(toks, q, EOF) {
        NoOperandAtEnd(reg, toks, q, slot.rbp);
      } else {
        ExprAgrees(reg, toks, q, slot.rbp);
      }
    }
  }

  lemma {:induction false} LedStepAgrees(reg: Registry, toks: seq<Token>, q: nat, next: Peeked, left: Node)
    requires EOFOnlyLast(toks) && 0 < q <= |toks|
    ensures Agree(ApplyLed(Guard(reg), toks, q, Peeked(next.token, GuardRecord(next.symbol)), left),
                  ApplyLed(reg, toks, q, next, left))
    decreases |toks| - q, 2
  {
    var slot := next.symbol.led;
    if slot.handler.Prefix? || slot.handler.Infix? {
      if HasTopToken(toks, q, EOF) {
        NoOperandAtEnd(reg, toks, q, slot.rbp);
      } else {
        ExprAgrees(reg, toks, q, slot.rbp);
      }
    }
  }

  lemma {:induction false} ParseAllAgrees(reg: Registry, toks: seq<Token>, pos: nat)
    requires EOFOnlyLast(toks) && pos <= |toks|
    ensures Agree(ParseAll(Guard(reg), toks, pos), ParseAll(reg, toks, pos))
    decreases |toks| - pos
  {
    if pos < |toks| && toks[pos].kind in reg && toks[pos].kind != EOF {
      ExprAgrees(reg, toks, pos, 0);
      var e := ParseExpr(reg, toks, pos, 0);
      if e.Ok? {
        ParseAllAgrees(reg, toks, e.value.pos);
      }
    }
  }

  /** Guarding the prefix and infix handlers never changes a successful
      parse, and never makes a failing one succeed: on tokens without `EOF`,
      only the error of a failing parse can differ. */
  lemma GuardKeepsParses(reg: Registry, input: seq<Token>)
    requires forall i :: 0 <= i < |input| ==> input[i].kind != EOF
    ensures Agree(Parse(Guard(reg), Some(input)), Parse(reg, Some(input)))
  {
    var toks := WithEOF(Some(input));
    assert EOFOnlyLast(toks) by {
      forall i | 0 <= i < |toks| - 1 ensures toks[i].kind != EOF {
        assert toks[i] == input[i];
      }
    }
    ParseAllAgrees(reg, toks, 0);
  }

  /** With the guard, a prefix `-` followed by the end of the input reports
      'Unexpected end of file', whatever else the registry holds. */
  lemma LonePrefixAtEnd(reg: Registry)
    requires Minus in reg && reg[Minus].nud.handler == Prefix(Minus, false)
    ensures Parse(Guard(reg), Some([Token(Minus, "-", None)])) == Err(UnexpectedEndOfFile)
  {
    var g := Guard(reg);
    var toks := WithEOF(Some([Token(Minus, "-", None)]));
    assert toks == [Token(Minus, "-", None), EOFToken];
    assert g[Minus].nud.handler == Prefix(Minus, true);
    assert ApplyNud(g, toks, 1, Peeked(toks[0], g[Minus])) == Err(UnexpectedEndOfFile);
  }

  /** Where the errors differ: a lone `-` is 'Unexpected end of file' with
      the guard and a read past the end without it. */
  lemma GuardedLonePrefix()
    ensures Parse(Guard(DefaultRegistry), Some([Token(Minus, "-", None)])) == Err(UnexpectedEndOfFile)
    ensures Parse(DefaultRegistry, Some([Token(Minus, "-", None)])) == Err(ReadPastEnd)
  {
    LonePrefixAtEnd(DefaultRegistry);
    ParserProperties.LonePrefixReadsPastEnd();
  }
}
