/**
 * The Pratt parser (src/js/compiler/parser/index.js).
 *
 * The first half states what the parser computes as functions of the symbol
 * registry, the token list (with the `EOF` token appended) and a position.
 * Each `nud`/`led` handler is applied by `ApplyNud`/`ApplyLed`; a JavaScript
 * exception becomes an `Err`. The `Parser` class is the source's object, whose
 * methods are proved to follow those functions, and `CreateParser` is its
 * registration table.
 */
module Parser {
  import opened Wrappers
  import opened Tokens
  import opened Handlers
  import opened ParserSymbol
  import opened Ast

  /** Why parsing stops without a tree. */
  datatype ParseError =
      /** `Object.create(undefined)` in `symbolFor`: no symbol for this type. */
    | Unregistered(kind: TokenKind)
      /** Reading `type` of the token after the appended `EOF`. */
    | ReadPastEnd
      /** A `notImplemented` handler was called: 'Not Implemented'. */
    | NotImplementedCalled
      /** A guarded prefix or infix handler found `EOF` next: 'Unexpected end of file'. */
    | UnexpectedEndOfFile
      /** The `LeftParen` nud calls `symbolConsumer.next`, which does not exist. */
    | MissingNext

  type Registry = map<TokenKind, SymbolRecord>

  /** The token `parse` appends: `{ type: EOF, value: 'EOF' }`. */
  const EOFToken: Token := Token(EOF, "EOF", None)

  /** `[...tokens, EOFToken]`, where an absent token list is empty. */
  function WithEOF(input: Option<seq<Token>>): (toks: seq<Token>)
    ensures |toks| > 0 && toks[|toks| - 1] == EOFToken
  {
    (if input.Some? then input.value else []) + [EOFToken]
  }

  /** A token together with the symbol registered for its type: what
      `symbolFor` builds with `Object.create`. */
  datatype Peeked = Peeked(token: Token, symbol: SymbolRecord)

  /** `symbolFor(token)` against the registry `reg`. */
  function SymbolOf(reg: Registry, t: Token): (r: Result<Peeked, ParseError>)
    ensures r.Ok? <==> t.kind in reg
    ensures r.Ok? ==> r.value == Peeked(t, reg[t.kind])
    ensures r.Err? ==> r.error == Unregistered(t.kind)
  {
    if t.kind in reg then Ok(Peeked(t, reg[t.kind])) else Err(Unregistered(t.kind))
  }

  /** `peekSymbol()` at position `p`. */
  function PeekAt(reg: Registry, toks: seq<Token>, p: nat): Result<Peeked, ParseError> {
    if p < |toks| then SymbolOf(reg, toks[p]) else Err(ReadPastEnd)
  }

  /** The consumer's `hasTopToken(kind)`: the next unread token has that type. */
  predicate HasTopToken(toks: seq<Token>, p: nat, kind: TokenKind) {
    p < |toks| && toks[p].kind == kind
  }

  /** Every token from `from` to `to` (inclusive) has a registered symbol. */
  ghost predicate RegisteredFrom(reg: Registry, toks: seq<Token>, from: nat, to: nat)
    requires to < |toks|
  {
    forall i :: from <= i <= to ==> toks[i].kind in reg
  }

  /** A subtree and the position after it. */
  datatype Parsed = Parsed(node: Node, pos: nat)

  /** `expression(rbp)` from position `pos`: one `nud`, then `led`s while the
      next symbol's `lbp` exceeds `rbp`. On success the position has moved on,
      stays on a real token, and every token read has a registered symbol. */
  function ParseExpr(reg: Registry, toks: seq<Token>, pos: nat, rbp: int): (r: Result<Parsed, ParseError>)
    requires pos <= |toks|
    ensures r.Ok? ==> pos < r.value.pos < |toks| && RegisteredFrom(reg, toks, pos, r.value.pos)
    decreases |toks| - pos, 1
  {
    var next :- PeekAt(reg, toks, pos);
    var left :- ApplyNud(reg, toks, pos + 1, next);
    LedLoop(reg, toks, left.pos, rbp, left.node)
  }

  /** The `while (rbp < peekSymbol().lbp)` loop of `expression`, from position
      `p` with the tree built so far. It stops, successfully, exactly at a
      registered token whose `lbp` is at most `rbp`. */
  function LedLoop(reg: Registry, toks: seq<Token>, p: nat, rbp: int, left: Node)
    : (r: Result<Parsed, ParseError>)
    requires p <= |toks|
    ensures r.Ok? ==>
      && p <= r.value.pos < |toks| && RegisteredFrom(reg, toks, p, r.value.pos)
      && reg[toks[r.value.pos].kind].lbp <= rbp
    decreases |toks| - p, 0
  {
    var next :- PeekAt(reg, toks, p);
    if !(rbp < next.symbol.lbp) then Ok(Parsed(left, p))
    else
      var step :- ApplyLed(reg, toks, p + 1, next, left);
      LedLoop(reg, toks, step.pos, rbp, step.node)
  }

  /** Calls `next.symbol.nud(next, parser)` with the parser at `q`, just after
      the token `next.token`. */
  function ApplyNud(reg: Registry, toks: seq<Token>, q: nat, next: Peeked): (r: Result<Parsed, ParseError>)
    requires 0 < q <= |toks|
    ensures r.Ok? ==> q <= r.value.pos <= |toks|
    ensures r.Ok? && q < r.value.pos ==> r.value.pos < |toks| && RegisteredFrom(reg, toks, q, r.value.pos)
    decreases |toks| - q, 2
  {
    var t := next.token;
    match next.symbol.nud.handler
    case NotImplemented => Err(NotImplementedCalled)
    case CopyToken => Ok(Parsed(Leaf(t.kind, t.value), q))
    case CallsMissingNext => Err(MissingNext)
    case Prefix(kind, guarded) =>
      if guarded && HasTopToken(toks, q, EOF) then Err(UnexpectedEndOfFile)
      else
        var right :- ParseExpr(reg, toks, q, next.symbol.nud.rbp);
        Ok(Parsed(Unary(kind, right.node), right.pos))
    case Infix(kind, guarded) =>
      // a led installed as a nud receives the token's symbol as its `left`
      if guarded && HasTopToken(toks, q, EOF) then Err(UnexpectedEndOfFile)
      else
        var right :- ParseExpr(reg, toks, q, next.symbol.nud.rbp);
        Ok(Parsed(Binary(kind, Leaf(t.kind, t.value), right.node), right.pos))
  }

  /** Calls `next.symbol.led(left, parser)` with the parser at `q`, just after
      the operator token. */
  function ApplyLed(reg: Registry, toks: seq<Token>, q: nat, next: Peeked, left: Node)
    : (r: Result<Parsed, ParseError>)
    requires 0 < q <= |toks|
    ensures r.Ok? ==> q <= r.value.pos <= |toks|
    ensures r.Ok? && q < r.value.pos ==> r.value.pos < |toks| && RegisteredFrom(reg, toks, q, r.value.pos)
    decreases |toks| - q, 2
  {
    match next.symbol.led.handler
    case NotImplemented => Err(NotImplementedCalled)
    case CopyToken =>
      // a nud installed as a led copies `type` and `value` of the tree so far
      Ok(Parsed(Node(left.kind, left.value, None, None), q))
    case CallsMissingNext => Err(MissingNext)
    case Prefix(kind, guarded) =>
      if guarded && HasTopToken(toks, q, EOF) then Err(UnexpectedEndOfFile)
      else
        var right :- ParseExpr(reg, toks, q, next.symbol.led.rbp);
        Ok(Parsed(Unary(kind, right.node), right.pos))
    case Infix(kind, guarded) =>
      if guarded && HasTopToken(toks, q, EOF) then Err(UnexpectedEndOfFile)
      else
        var right :- ParseExpr(reg, toks, q, next.symbol.led.rbp);
        Ok(Parsed(Binary(kind, left, right.node), right.pos))
  }

  /** The loop of `parse` from position `pos`: expressions one after another
      until the next token has type `EOF`. */
  function ParseAll(reg: Registry, toks: seq<Token>, pos: nat): (r: Result<seq<Node>, ParseError>)
    requires pos <= |toks|
    ensures r.Ok? ==> EOF in reg && pos < |toks| && |r.value| <= |toks| - 1 - pos
    ensures HasTopToken(toks, pos, EOF) ==> r == (if EOF in reg then Ok([]) else Err(Unregistered(EOF)))
    decreases |toks| - pos
  {
    var next :- PeekAt(reg, toks, pos);
    if next.token.kind == EOF then Ok([])
    else
      var e :- ParseExpr(reg, toks, pos, 0);
      var rest :- ParseAll(reg, toks, e.pos);
      Ok([e.node] + rest)
  }

  /** `parse(tokens)` with the symbols `reg`. A success needs a symbol for
      `EOF` and yields at most one tree per input token; an absent or empty
      token list yields no trees, or fails when `EOF` has no symbol. */
  function Parse(reg: Registry, input: Option<seq<Token>>): (r: Result<seq<Node>, ParseError>)
    ensures r.Ok? ==> EOF in reg && |r.value| <= |WithEOF(input)| - 1
    ensures (input.None? || input == Some([])) ==>
      r == (if EOF in reg then Ok([]) else Err(Unregistered(EOF)))
  {
    ParseAll(reg, WithEOF(input), 0)
  }

  /** The inline `mergeWith` of this file: like symbol.js's but without a `std`
      slot, so the result's `std` is simply `other`'s. */
  function InlineMerge(receiver: SymbolRecord, other: Option<SymbolRecord>): (r: SymbolRecord)
    ensures other.None? ==> r == Merge(receiver, other)
    ensures other.Some? ==> r == Merge(receiver, other).(std := other.value.std)
  {
    match other
    case None => receiver
    case Some(o) =>
      o.(nud := if Implemented(o.nud) then o.nud else receiver.nud,
         led := if Implemented(o.led) then o.led else receiver.led)
  }

  /** `registerSymbol(s)`: the new symbol merged with the earlier one of its type. */
  function Register(reg: Registry, s: SymbolRecord): Registry {
    reg[s.kind := InlineMerge(s, if s.kind in reg then Some(reg[s.kind]) else None)]
  }

  /** `registerSymbol` applied to each of `ss` in turn. */
  function RegisterAll(reg: Registry, ss: seq<SymbolRecord>): Registry
    decreases |ss|
  {
    if ss == [] then reg else Register(RegisterAll(reg, ss[..|ss| - 1]), ss[|ss| - 1])
  }

  /** What one registration does: only the entry for `s.kind` changes; a
      first registration is stored as it is, and on a later one the earlier
      symbol's binding powers stay and its handlers stay wherever they are
      implemented. */
  lemma RegisterEffect(reg: Registry, s: SymbolRecord)
    ensures var r := Register(reg, s);
      && r.Keys == reg.Keys + {s.kind}
      && (forall k :: k in reg && k != s.kind ==> r[k] == reg[k])
      && (s.kind !in reg ==> r[s.kind] == s)
      && (s.kind in reg ==>
        && r[s.kind].lbp == reg[s.kind].lbp && r[s.kind].rbp == reg[s.kind].rbp
        && r[s.kind].nud == (if Implemented(reg[s.kind].nud) then reg[s.kind].nud else s.nud)
        && r[s.kind].led == (if Implemented(reg[s.kind].led) then reg[s.kind].led else s.led))
  {
  }

  /** After a run of registrations every registered type has an entry, and a
      type registered before keeps its binding powers. */
  lemma {:induction false} RegisterAllEffect(reg: Registry, ss: seq<SymbolRecord>)
    ensures var r := RegisterAll(reg, ss);
      && r.Keys == reg.Keys + (set x | x in ss :: x.kind)
      && (forall k :: k in reg ==> r[k].lbp == reg[k].lbp && r[k].rbp == reg[k].rbp)
    decreases |ss|
  {
    if ss != [] {
      var init := ss[..|ss| - 1];
      var last := ss[|ss| - 1];
      RegisterAllEffect(reg, init);
      RegisterEffect(RegisterAll(reg, init), last);
      assert ss == init + [last];
      assert (set x | x in ss :: x.kind) == (set x | x in init :: x.kind) + {last.kind};
    }
  }

  const NoHandler: Slot := Slot(NotImplemented, 0)

  /** `LiteralSymbol.create(type)`, `ConstantSymbol.create(type)` and
      `EOFSymbol.create()` as registered: a token-copying nud, nothing else. */
  function LiteralRecord(kind: TokenKind): SymbolRecord {
    SymbolRecord(kind, Slot(CopyToken, 0), NoHandler, NoHandler, 0, 0)
  }

  /** `PrefixSymbol.create(type).withLbp(bp).withRbp(bp)` as registered. */
  function PrefixRecord(kind: TokenKind, bp: int): SymbolRecord {
    SymbolRecord(kind, Slot(Prefix(kind, false), bp), Slot(NotImplemented, bp), Slot(NotImplemented, bp), bp, bp)
  }

  /** `InfixSymbol.create(type).withLbp(bp).withRbp(bp)` as registered. */
  function InfixRecord(kind: TokenKind, bp: int): SymbolRecord {
    SymbolRecord(kind, Slot(NotImplemented, bp), Slot(Infix(kind, false), bp), Slot(NotImplemented, bp), bp, bp)
  }

  /** The symbols `createParser` registers, in order. */
  const DefaultRegistrations: seq<SymbolRecord> := [
    InfixRecord(Minus, 13), InfixRecord(Plus, 13),
    PrefixRecord(Minus, 15), PrefixRecord(Plus, 15),
    LiteralRecord(String), LiteralRecord(Number),
    SymbolRecord(LeftParen, Slot(CallsMissingNext, 0), NoHandler, NoHandler, 0, 0),
    LiteralRecord(RightParen),
    LiteralRecord(EOF)
  ]

  /** The operator symbol `createParser` ends up with for `Minus` or `Plus`:
      binding powers 13 from the infix registration, which came first, and the
      prefix nud, which still parses its operand at its own `rbp` of 15. */
  function OperatorRecord(kind: TokenKind): SymbolRecord {
    SymbolRecord(kind, Slot(Prefix(kind, false), 15), Slot(Infix(kind, false), 13), Slot(NotImplemented, 13), 13, 13)
  }

  /** The registry `createParser` builds. */
  const DefaultRegistry: Registry := map[
    Minus := OperatorRecord(Minus), Plus := OperatorRecord(Plus),
    String := LiteralRecord(String), Number := LiteralRecord(Number),
    LeftParen := SymbolRecord(LeftParen, Slot(CallsMissingNext, 0), NoHandler, NoHandler, 0, 0),
    RightParen := LiteralRecord(RightParen),
    EOF := LiteralRecord(EOF)
  ]

  /** `RegisterAll` one registration at a time. */
  lemma RegisterAllSnoc(reg: Registry, ss: seq<SymbolRecord>, k: nat)
    requires k < |ss|
    ensures RegisterAll(reg, ss[..k + 1]) == Register(RegisterAll(reg, ss[..k]), ss[k])
  {
    assert ss[..k + 1][..k] == ss[..k];
  }

  lemma {:induction false} RegisterAllAppend(reg: Registry, a: seq<SymbolRecord>, b: seq<SymbolRecord>)
    ensures RegisterAll(reg, a + b) == RegisterAll(RegisterAll(reg, a), b)
    decreases |b|
  {
    if b == [] {
      assert a + b == a;
    } else {
      var b' := b[..|b| - 1];
      assert (a + b)[..|a + b| - 1] == a + b';
      RegisterAllAppend(reg, a, b');
    }
  }

  /** A prefix registration over the infix one of the same type keeps the
      infix binding powers and adds the prefix nud. */
  lemma PrefixOverInfix(kind: TokenKind)
    ensures InlineMerge(PrefixRecord(kind, 15), Some(InfixRecord(kind, 13))) == OperatorRecord(kind)
  {
  }

  /** The operator registrations: infix first, so binding powers 13 stay. */
  lemma OperatorsRegistered()
    ensures RegisterAll(map[], DefaultRegistrations[..4])
         == map[Minus := OperatorRecord(Minus), Plus := OperatorRecord(Plus)]
  {
    var r := DefaultRegistrations[..4];
    assert r == [InfixRecord(Minus, 13), InfixRecord(Plus, 13), PrefixRecord(Minus, 15), PrefixRecord(Plus, 15)];
    var m0: Registry := map[];
    var m1 := m0[Minus := InfixRecord(Minus, 13)];
    var m2 := m1[Plus := InfixRecord(Plus, 13)];
    var m3 := m2[Minus := OperatorRecord(Minus)];
    PrefixOverInfix(Minus);
    PrefixOverInfix(Plus);
    RegisterAllSnoc(m0, r, 0);
    assert r[..0] == [];
    assert RegisterAll(m0, r[..1]) == m1;
    RegisterAllSnoc(m0, r, 1);
    assert RegisterAll(m0, r[..2]) == m2;
    RegisterAllSnoc(m0, r, 2);
    assert RegisterAll(m0, r[..3]) == m3;
    RegisterAllSnoc(m0, r, 3);
    assert r[..4] == r;
  }

  /** A symbol of a type not registered yet is stored as it is. */
  lemma RegisterNew(reg: Registry, s: SymbolRecord)
    requires s.kind !in reg
    ensures Register(reg, s) == reg[s.kind := s]
  {
  }

  /** The remaining registrations are of types not seen before. */
  lemma LiteralsRegistered()
    ensures RegisterAll(map[Minus := OperatorRecord(Minus), Plus := OperatorRecord(Plus)],
                        DefaultRegistrations[4..])
         == DefaultRegistry
  {
    var r := DefaultRegistrations[4..];
    var m0: Registry := map[Minus := OperatorRecord(Minus), Plus := OperatorRecord(Plus)];
    var m1 := m0[String := r[0]];
    var m2 := m1[Number := r[1]];
    var m3 := m2[LeftParen := r[2]];
    var m4 := m3[RightParen := r[3]];
    assert r[..0] == [];
    RegisterAllSnoc(m0, r, 0);
    RegisterNew(m0, r[0]);
    RegisterAllSnoc(m0, r, 1);
    RegisterNew(m1, r[1]);
    RegisterAllSnoc(m0, r, 2);
    RegisterNew(m2, r[2]);
    RegisterAllSnoc(m0, r, 3);
    RegisterNew(m3, r[3]);
    RegisterAllSnoc(m0, r, 4);
    RegisterNew(m4, r[4]);
    assert r[..5] == r;
  }

  /** The registration table and the merge rule give exactly `DefaultRegistry`. */
  lemma DefaultRegistryRegistered()
    ensures RegisterAll(map[], DefaultRegistrations) == DefaultRegistry
  {
    var r := DefaultRegistrations;
    assert r == r[..4] + r[4..];
    RegisterAllAppend(map[], r[..4], r[4..]);
    OperatorsRegistered();
    LiteralsRegistered();
  }

  class Parser {
    var symbols: Registry
    var tokens: seq<Token>
    var position: nat

    constructor ()
      ensures symbols == map[] && tokens == [] && position == 0
    {
      symbols := map[];
      tokens := [];
      position := 0;
    }

    method RegisterSymbol(s: Symbol) returns (self: Parser)
      modifies this
      ensures self == this
      ensures symbols == Register(old(symbols), s.Record())
      ensures tokens == old(tokens) && position == old(position)
    {
      var old_ := if s.kind in symbols then Some(symbols[s.kind]) else None;
      symbols := symbols[s.kind := InlineMerge(s.Record(), old_)];
      self := this;
    }

    /** `symbolFor(token)`: the token paired with its type's symbol, or the
        failure of `Object.create(undefined)` for an unregistered type. */
    function SymbolFor(t: Token): (r: Result<Peeked, ParseError>)
      reads this
      ensures r.Ok? <==> t.kind in symbols
      ensures r.Ok? ==> r.value.token == t && r.value.symbol == symbols[t.kind]
      ensures r.Err? ==> r.error == Unregistered(t.kind)
    {
      SymbolOf(symbols, t)
    }

    /** `peekSymbol()`: the symbol of the token at `position`; reading past
        the appended `EOF` fails. */
    function PeekSymbol(): (r: Result<Peeked, ParseError>)
      reads this
      ensures r == PeekAt(symbols, tokens, position)
      ensures position >= |tokens| ==> r == Err(ReadPastEnd)
      ensures r.Ok? ==> position < |tokens| && r.value.token == tokens[position]
    {
      if position < |tokens| then SymbolFor(tokens[position]) else Err(ReadPastEnd)
    }

    method Advance()
      modifies this
      ensures position == old(position) + 1
      ensures symbols == old(symbols) && tokens == old(tokens)
    {
      position := position + 1;
    }

    method Expression(rbp: int) returns (r: Result<Node, ParseError>)
      requires position <= |tokens|
      modifies this
      ensures symbols == old(symbols) && tokens == old(tokens)
      ensures var spec := ParseExpr(symbols, tokens, old(position), rbp);
        && (r.Ok? <==> spec.Ok?)
        && (r.Ok? ==> r.value == spec.value.node && position == spec.value.pos)
        && (r.Err? ==> r.error == spec.error)
      decreases |tokens| - position, 1
    {
      var peeked := PeekSymbol();
      if peeked.Err? {
        return Err(peeked.error);
      }
      var next := peeked.value;
      Advance();
      var nud := CallNud(next);
      if nud.Err? {
        return Err(nud.error);
      }
      r := Leds(rbp, nud.value);
    }

    /** The `while (rbp < peekSymbol().lbp)` loop of `expression`, with the
        tree `left` that the `nud` built. */
    method Leds(rbp: int, left: Node) returns (r: Result<Node, ParseError>)
      requires position <= |tokens|
      modifies this
      ensures symbols == old(symbols) && tokens == old(tokens)
      ensures var spec := LedLoop(symbols, tokens, old(position), rbp, left);
        && (r.Ok? <==> spec.Ok?)
        && (r.Ok? ==> r.value == spec.value.node && position == spec.value.pos)
        && (r.Err? ==> r.error == spec.error)
      decreases |tokens| - position, 0
    {
      var tree := left;
      while true
        invariant symbols == old(symbols) && tokens == old(tokens)
        invariant old(position) <= position <= |tokens|
        invariant LedLoop(symbols, tokens, position, rbp, tree) == LedLoop(symbols, tokens, old(position), rbp, left)
        decreases |tokens| - position
      {
        var peeked := PeekSymbol();
        if peeked.Err? {
          return Err(peeked.error);
        }
        var next := peeked.value;
        if !(rbp < next.symbol.lbp) {
          break;
        }
        Advance();
        var led := CallLed(next, tree);
        if led.Err? {
          return Err(led.error);
        }
        tree := led.value;
      }
      r := Ok(tree);
    }

    /** Runs `next.symbol.nud` with the parser just after `next.token`. */
    method CallNud(next: Peeked) returns (r: Result<Node, ParseError>)
      requires 0 < position <= |tokens|
      modifies this
      ensures symbols == old(symbols) && tokens == old(tokens)
      ensures var spec := ApplyNud(symbols, tokens, old(position), next);
        && (r.Ok? <==> spec.Ok?)
        && (r.Ok? ==> r.value == spec.value.node && position == spec.value.pos)
        && (r.Err? ==> r.error == spec.error)
      decreases |tokens| - position, 2
    {
      var t := next.token;
      match next.symbol.nud.handler
      case NotImplemented =>
        r := Err(NotImplementedCalled);
      case CopyToken =>
        r := Ok(Leaf(t.kind, t.value));
      case CallsMissingNext =>
        r := Err(MissingNext);
      case Prefix(kind, guarded) =>
        if guarded && HasTopToken(tokens, position, EOF) {
          return Err(UnexpectedEndOfFile);
        }
        var right := Expression(next.symbol.nud.rbp);
        if right.Err? {
          return Err(right.error);
        }
        r := Ok(Unary(kind, right.value));
      case Infix(kind, guarded) =>
        if guarded && HasTopToken(tokens, position, EOF) {
          return Err(UnexpectedEndOfFile);
        }
        var right := Expression(next.symbol.nud.rbp);
        if right.Err? {
          return Err(right.error);
        }
        r := Ok(Binary(kind, Leaf(t.kind, t.value), right.value));
    }

    /** Runs `next.symbol.led` on the tree `left`, with the parser just after
        the operator token. */
    method CallLed(next: Peeked, left: Node) returns (r: Result<Node, ParseError>)
      requires 0 < position <= |tokens|
      modifies this
      ensures symbols == old(symbols) && tokens == old(tokens)
      ensures var spec := ApplyLed(symbols, tokens, old(position), next, left);
        && (r.Ok? <==> spec.Ok?)
        && (r.Ok? ==> r.value == spec.value.node && position == spec.value.pos)
        && (r.Err? ==> r.error == spec.error)
      decreases |tokens| - position, 2
    {
      match next.symbol.led.handler
      case NotImplemented =>
        r := Err(NotImplementedCalled);
      case CopyToken =>
        r := Ok(Node(left.kind, left.value, None, None));
      case CallsMissingNext =>
        r := Err(MissingNext);
      case Prefix(kind, guarded) =>
        if guarded && HasTopToken(tokens, position, EOF) {
          return Err(UnexpectedEndOfFile);
        }
        var right := Expression(next.symbol.led.rbp);
        if right.Err? {
          return Err(right.error);
        }
        r := Ok(Unary(kind, right.value));
      case Infix(kind, guarded) =>
        if guarded && HasTopToken(tokens, position, EOF) {
          return Err(UnexpectedEndOfFile);
        }
        var right := Expression(next.symbol.led.rbp);
        if right.Err? {
          return Err(right.error);
        }
        r := Ok(Binary(kind, left, right.value));
    }

    method Parse(input: Option<seq<Token>>) returns (r: Result<seq<Node>, ParseError>)
      modifies this
      ensures symbols == old(symbols) && tokens == WithEOF(input)
      ensures r == ParseAll(symbols, tokens, 0)
    {
      tokens := WithEOF(input);
      position := 0;
      var tree: seq<Node> := [];
      assert Prepend(tree, ParseAll(symbols, tokens, 0)) == ParseAll(symbols, tokens, 0) by {
        var all := ParseAll(symbols, tokens, 0);
        if all.Ok? {
          assert tree + all.value == all.value;
        }
      }
      while true
        invariant symbols == old(symbols) && tokens == WithEOF(input)
        invariant position <= |tokens|
        invariant ParseAll(symbols, tokens, 0) == Prepend(tree, ParseAll(symbols, tokens, position))
        decreases |tokens| - position
      {
        var peeked := PeekSymbol();
        if peeked.Err? {
          return Err(peeked.error);
        }
        if peeked.value.token.kind == EOF {
          assert ParseAll(symbols, tokens, position) == Ok([]);
          assert tree + [] == tree;
          break;
        }
        ghost var before := position;
        var e := Expression(0);
        if e.Err? {
          return Err(e.error);
        }
        assert ParseAll(symbols, tokens, before)
            == Prepend([e.value], ParseAll(symbols, tokens, position));
        PrependTwice(tree, e.value, ParseAll(symbols, tokens, position));
        tree := tree + [e.value];
      }
      r := Ok(tree);
    }
  }

  /** `tree` followed by the trees of a later successful parse. */
  function Prepend(tree: seq<Node>, r: Result<seq<Node>, ParseError>): Result<seq<Node>, ParseError> {
    if r.Ok? then Ok(tree + r.value) else r
  }

  lemma PrependTwice(tree: seq<Node>, n: Node, r: Result<seq<Node>, ParseError>)
    ensures Prepend(tree, Prepend([n], r)) == Prepend(tree + [n], r)
  {
    if r.Ok? {
      assert tree + ([n] + r.value) == (tree + [n]) + r.value;
    }
  }

  /** `LiteralSymbol.create(type)` (also `ConstantSymbol.create(type)`). */
  method CreateLiteral(kind: TokenKind) returns (s: Symbol)
    ensures fresh(s) && s.Record() == LiteralRecord(kind)
  {
    s := new Symbol(kind);
    s := s.WithNud(CopyToken);
  }

  /** `PrefixSymbol.create(type).withLbp(bp).withRbp(bp)`. */
  method CreatePrefix(kind: TokenKind, bp: int) returns (s: Symbol)
    ensures fresh(s) && s.Record() == PrefixRecord(kind, bp)
  {
    s := new Symbol(kind);
    s := s.WithNud(Prefix(kind, false));
    s := s.WithLbp(bp);
    s := s.WithRbp(bp);
  }

  /** `InfixSymbol.create(type).withLbp(bp).withRbp(bp)`. */
  method CreateInfix(kind: TokenKind, bp: int) returns (s: Symbol)
    ensures fresh(s) && s.Record() == InfixRecord(kind, bp)
  {
    s := new Symbol(kind);
    s := s.WithLed(Infix(kind, false));
    s := s.WithLbp(bp);
    s := s.WithRbp(bp);
  }

  /** `_.each(symbols, (symbol) => parser.registerSymbol(symbol))`. */
  method RegisterEach(p: Parser, table: seq<Symbol>, ghost records: seq<SymbolRecord>)
    requires |table| == |records|
    requires forall i :: 0 <= i < |table| ==> table[i].Record() == records[i]
    modifies p
    ensures p.symbols == RegisterAll(old(p.symbols), records)
  {
    var i := 0;
    while i < |table|
      invariant 0 <= i <= |table|
      invariant p.symbols == RegisterAll(old(p.symbols), records[..i])
    {
      RegisterAllSnoc(old(p.symbols), records, i);
      var _ := p.RegisterSymbol(table[i]);
      i := i + 1;
    }
    assert records[..i] == records;
  }

  /** The `infixSymbols` and `prefixSymbols` of `createParser`, in order. */
  method OperatorSymbols() returns (table: seq<Symbol>)
    ensures |table| == 4
    ensures forall i :: 0 <= i < 4 ==> fresh(table[i]) && table[i].Record() == DefaultRegistrations[i]
  {
    var infixMinus := CreateInfix(Minus, 13);
    var infixPlus := CreateInfix(Plus, 13);
    var prefixMinus := CreatePrefix(Minus, 15);
    var prefixPlus := CreatePrefix(Plus, 15);
    table := [infixMinus, infixPlus, prefixMinus, prefixPlus];
  }

  /** The `literalSymbols` of `createParser` and the EOF symbol, in order. */
  method LiteralSymbols() returns (table: seq<Symbol>)
    ensures |table| == 5
    ensures forall i :: 0 <= i < 5 ==> fresh(table[i]) && table[i].Record() == DefaultRegistrations[i + 4]
  {
    var stringSymbol := CreateLiteral(String);
    var numberSymbol := CreateLiteral(Number);
    var leftParen := CreateLiteral(LeftParen);
    leftParen := leftParen.WithNud(CallsMissingNext);
    var rightParen := CreateLiteral(RightParen);
    var eof := CreateLiteral(EOF);
    table := [stringSymbol, numberSymbol, leftParen, rightParen, eof];
  }

  /** `createParser()`: the symbols registered in the order of the table; the
      two constant symbols for `True` and `False` are built but never
      registered. */
  method CreateParser() returns (p: Parser)
    ensures fresh(p) && p.symbols == DefaultRegistry
  {
    p := new Parser();
    var trueSymbol := CreateLiteral(True);
    var falseSymbol := CreateLiteral(False);
    var operators := OperatorSymbols();
    var literals := LiteralSymbols();
    var table := operators + literals;
    assert forall i :: 0 <= i < |table| ==> table[i].Record() == DefaultRegistrations[i];
    RegisterEach(p, table, DefaultRegistrations);
    DefaultRegistryRegistered();
  }

  /** The default export: `createParser().parse(tokens)`. */
  method ParseTokens(input: Option<seq<Token>>) returns (r: Result<seq<Node>, ParseError>)
    ensures r == Parse(DefaultRegistry, input)
  {
    var p := CreateParser();
    r := p.Parse(input);
  }
}
