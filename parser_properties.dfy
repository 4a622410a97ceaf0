/**
 * What the parser built by `createParser` does with its inputs: empty input,
 * literals, chains of prefix operators, left-associative chains of infix
 * operators whose operands bind more tightly, and the inputs it rejects.
 *
 * The chain lemmas hold for any registry that agrees with the default one on
 * `Minus`, `Plus`, `Number` and `String` and has no `lbp` above 13; the
 * default registry is one of them.
 */
module ParserProperties {
  import opened Wrappers
  import opened Tokens
  import opened Handlers
  import opened ParserSymbol
  import opened Ast
  import opened Parser

  /** The symbols an arithmetic expression needs, as `createParser` registers
      them, and no symbol binding more tightly than an infix operator. */
  ghost predicate Arithmetic(reg: Registry) {
    && Minus in reg && reg[Minus] == OperatorRecord(Minus)
    && Plus in reg && reg[Plus] == OperatorRecord(Plus)
    && Number in reg && reg[Number] == LiteralRecord(Number)
    && String in reg && reg[String] == LiteralRecord(String)
    && (forall k :: k in reg ==> reg[k].lbp <= 13)
  }

  /** The default registry is arithmetic, and `EOF` stops every `led` loop. */
  lemma DefaultArithmetic()
    ensures Arithmetic(DefaultRegistry)
    ensures EOF in DefaultRegistry && DefaultRegistry[EOF].lbp == 0
    ensures forall k :: k in DefaultRegistry && k != Minus && k != Plus ==> DefaultRegistry[k].lbp == 0
  {
    forall k | k in DefaultRegistry
      ensures DefaultRegistry[k].lbp == if k == Minus || k == Plus then 13 else 0
    {
    }
  }

  /** Without a symbol for `EOF` even the empty input fails; with one, an
      absent or empty token list parses to no trees. */
  lemma EmptyInputs(reg: Registry)
    ensures EOF in reg ==> Parse(reg, None) == Ok([]) && Parse(reg, Some([])) == Ok([])
    ensures EOF !in reg ==> Parse(reg, None) == Err(Unregistered(EOF))
  {
    assert WithEOF(None) == [EOFToken];
    assert WithEOF(Some([])) == [EOFToken];
  }

  predicate IsOperator(t: Token) {
    t.kind == Minus || t.kind == Plus
  }

  predicate IsLiteral(t: Token) {
    t.kind == Number || t.kind == String
  }

  /** An operand: prefix operators applied to a literal, such as `- - 123`. */
  datatype Term = Term(prefixes: seq<Token>, literal: Token)

  ghost predicate ValidTerm(t: Term) {
    (forall i :: 0 <= i < |t.prefixes| ==> IsOperator(t.prefixes[i])) && IsLiteral(t.literal)
  }

  function TermTokens(t: Term): (r: seq<Token>)
    ensures |r| == |t.prefixes| + 1
    decreases |t.prefixes|
  {
    if t.prefixes == [] then [t.literal]
    else [t.prefixes[0]] + TermTokens(Term(t.prefixes[1..], t.literal))
  }

  /** The tree an operand is expected to give: prefixes nest, outermost first. */
  function TermTree(t: Term): Node
    decreases |t.prefixes|
  {
    if t.prefixes == [] then Leaf(t.literal.kind, t.literal.value)
    else Unary(t.prefixes[0].kind, TermTree(Term(t.prefixes[1..], t.literal)))
  }

  /** An infix operator followed by its right operand. */
  datatype Link = Link(op: Token, operand: Term)

  ghost predicate ValidLinks(links: seq<Link>)
    decreases |links|
  {
    links == [] || (IsOperator(links[0].op) && ValidTerm(links[0].operand) && ValidLinks(links[1..]))
  }

  function LinkTokens(links: seq<Link>): seq<Token>
    decreases |links|
  {
    if links == [] then [] else [links[0].op] + TermTokens(links[0].operand) + LinkTokens(links[1..])
  }

  /** The expected tree of `acc op1 t1 op2 t2 ...`: grouped to the left. */
  function FoldLeft(acc: Node, links: seq<Link>): Node
    decreases |links|
  {
    if links == [] then acc
    else FoldLeft(Binary(links[0].op.kind, acc, TermTree(links[0].operand)), links[1..])
  }

  /** The tokens from position `p` on begin with `xs`. */
  ghost predicate Reads(toks: seq<Token>, p: nat, xs: seq<Token>)
    decreases |xs|
  {
    if xs == [] then p <= |toks|
    else p < |toks| && toks[p] == xs[0] && Reads(toks, p + 1, xs[1..])
  }

  lemma {:induction false} ReadsAppend(toks: seq<Token>, p: nat, a: seq<Token>, b: seq<Token>)
    ensures Reads(toks, p, a + b) <==> Reads(toks, p, a) && Reads(toks, p + |a|, b)
    decreases |a|
  {
    if a == [] {
      assert a + b == b;
      if Reads(toks, p, b) {
        ReadsWithin(toks, p, b);
      }
    } else {
      assert (a + b)[1..] == a[1..] + b;
      ReadsAppend(toks, p + 1, a[1..], b);
    }
  }

  lemma {:induction false} ReadsWithin(toks: seq<Token>, p: nat, xs: seq<Token>)
    requires Reads(toks, p, xs)
    ensures p + |xs| <= |toks|
    decreases |xs|
  {
    if xs != [] {
      ReadsWithin(toks, p + 1, xs[1..]);
    }
  }

  lemma {:induction false} ReadsSuffix(toks: seq<Token>, p: nat)
    requires p <= |toks|
    ensures Reads(toks, p, toks[p..])
    decreases |toks| - p
  {
    if p < |toks| {
      assert toks[p..][1..] == toks[p + 1..];
      ReadsSuffix(toks, p + 1);
    }
  }

  lemma ValidTermTail(t: Term)
    requires ValidTerm(t) && t.prefixes != []
    ensures IsOperator(t.prefixes[0]) && ValidTerm(Term(t.prefixes[1..], t.literal))
  {
    var inner := Term(t.prefixes[1..], t.literal);
    forall i | 0 <= i < |inner.prefixes| ensures IsOperator(inner.prefixes[i]) {
      assert inner.prefixes[i] == t.prefixes[i + 1];
    }
  }

  /** The first token of an operand is a prefix operator or its literal. */
  lemma TermTokensHead(t: Term)
    requires ValidTerm(t)
    ensures IsOperator(TermTokens(t)[0]) || IsLiteral(TermTokens(t)[0])
  {
    if t.prefixes != [] {
      ValidTermTail(t);
    }
  }

  lemma LinkTokensHead(links: seq<Link>)
    requires links != []
    ensures LinkTokens(links) != [] && LinkTokens(links)[0] == links[0].op
    ensures LinkTokens(links) == [links[0].op] + TermTokens(links[0].operand) + LinkTokens(links[1..])
  {
  }

  /** A literal's nud copies the token. */
  lemma LiteralNud(reg: Registry, toks: seq<Token>, p: nat, rbp: int)
    requires Arithmetic(reg) && p < |toks| && IsLiteral(toks[p])
    ensures ParseExpr(reg, toks, p, rbp)
         == LedLoop(reg, toks, p + 1, rbp, Leaf(toks[p].kind, toks[p].value))
  {
  }

  /** A prefix operator's nud parses its operand at binding power 15. */
  lemma PrefixNud(reg: Registry, toks: seq<Token>, p: nat, rbp: int, operand: Node, q: nat)
    requires Arithmetic(reg) && p < |toks| && IsOperator(toks[p])
    requires ParseExpr(reg, toks, p + 1, 15) == Ok(Parsed(operand, q))
    ensures ParseExpr(reg, toks, p, rbp)
         == LedLoop(reg, toks, q, rbp, Unary(toks[p].kind, operand))
  {
  }

  /** The `led` loop stops at a token that binds no more tightly than `rbp`. */
  lemma LedStops(reg: Registry, toks: seq<Token>, p: nat, rbp: int, left: Node)
    requires p < |toks| && toks[p].kind in reg && reg[toks[p].kind].lbp <= rbp
    ensures LedLoop(reg, toks, p, rbp, left) == Ok(Parsed(left, p))
  {
  }

  /** Below binding power 13 an infix operator takes the tree so far as its
      left operand and parses its right operand at 13. */
  lemma InfixLed(reg: Registry, toks: seq<Token>, p: nat, rbp: int, left: Node, right: Node, q: nat)
    requires Arithmetic(reg) && p < |toks| && IsOperator(toks[p]) && rbp < 13
    requires ParseExpr(reg, toks, p + 1, 13) == Ok(Parsed(right, q))
    ensures LedLoop(reg, toks, p, rbp, left)
         == LedLoop(reg, toks, q, rbp, Binary(toks[p].kind, left, right))
  {
  }

  /** Whether position `q` holds a token with a symbol in `reg`. */
  ghost predicate Registered(reg: Registry, toks: seq<Token>, q: nat) {
    q < |toks| && toks[q].kind in reg
  }

  /** Reading an operand with at least one prefix: the prefix, then the
      operand it applies to. */
  lemma TermSplit(toks: seq<Token>, p: nat, t: Term, q: nat)
    requires t.prefixes != [] && Reads(toks, p, TermTokens(t)) && q == p + |TermTokens(t)|
    ensures var inner := Term(t.prefixes[1..], t.literal);
      && p < |toks| && toks[p] == t.prefixes[0]
      && Reads(toks, p + 1, TermTokens(inner)) && q == p + 1 + |TermTokens(inner)|
  {
    var inner := Term(t.prefixes[1..], t.literal);
    assert TermTokens(t) == [t.prefixes[0]] + TermTokens(inner);
    ReadsAppend(toks, p, [t.prefixes[0]], TermTokens(inner));
  }

  /** The nud of an operand's first token parses the whole operand, which
      ends at `q`; the `led` loop that follows starts there. */
  lemma {:induction false} TermNud(reg: Registry, toks: seq<Token>, p: nat, t: Term, rbp: int, q: nat)
    requires Arithmetic(reg) && ValidTerm(t)
    requires Reads(toks, p, TermTokens(t)) && q == p + |TermTokens(t)| && Registered(reg, toks, q)
    ensures ParseExpr(reg, toks, p, rbp) == LedLoop(reg, toks, q, rbp, TermTree(t))
    decreases |t.prefixes|
  {
    if t.prefixes == [] {
      LiteralNud(reg, toks, p, rbp);
    } else {
      var inner := Term(t.prefixes[1..], t.literal);
      ValidTermTail(t);
      TermSplit(toks, p, t, q);
      TermNud(reg, toks, p + 1, inner, 15, q);
      PrefixTerm(reg, toks, p, t, rbp, q);
    }
  }

  /** A prefix parses the operand after it up to `q`, where its led loop at
      binding power 15 stops at once. */
  lemma PrefixTerm(reg: Registry, toks: seq<Token>, p: nat, t: Term, rbp: int, q: nat)
    requires Arithmetic(reg) && t.prefixes != [] && IsOperator(t.prefixes[0])
    requires p < |toks| && toks[p] == t.prefixes[0] && Registered(reg, toks, q)
    requires var inner := Term(t.prefixes[1..], t.literal);
      ParseExpr(reg, toks, p + 1, 15) == LedLoop(reg, toks, q, 15, TermTree(inner))
    ensures ParseExpr(reg, toks, p, rbp) == LedLoop(reg, toks, q, rbp, TermTree(t))
  {
    var inner := TermTree(Term(t.prefixes[1..], t.literal));
    LedStops(reg, toks, q, 15, inner);
    PrefixNud(reg, toks, p, rbp, inner, q);
  }

  /** An operand as the right side of an infix operator: parsed at binding
      power 13, it ends where the next operator or the end begins. */
  lemma TermOperand(reg: Registry, toks: seq<Token>, p: nat, t: Term, q: nat)
    requires Arithmetic(reg) && ValidTerm(t)
    requires Reads(toks, p, TermTokens(t)) && q == p + |TermTokens(t)| && Registered(reg, toks, q)
    ensures ParseExpr(reg, toks, p, 13) == Ok(Parsed(TermTree(t), q))
  {
    TermNud(reg, toks, p, t, 13, q);
    LedStops(reg, toks, q, 13, TermTree(t));
  }

  /** Reading a non-empty chain of infix operators and their operands: the
      first operator, its operand, then the rest of the chain. */
  lemma LinkSplit(toks: seq<Token>, p: nat, links: seq<Link>, after: nat, q: nat)
    requires links != [] && Reads(toks, p, LinkTokens(links))
    requires after == p + 1 + |TermTokens(links[0].operand)| && q == p + |LinkTokens(links)|
    ensures var rest := links[1..];
      && p < |toks| && toks[p] == links[0].op
      && Reads(toks, p + 1, TermTokens(links[0].operand))
      && Reads(toks, after, LinkTokens(rest)) && q == after + |LinkTokens(rest)|
      && (rest == [] ==> after == q)
      && (rest != [] ==> after < |toks| && toks[after] == rest[0].op)
  {
    var op := links[0].op;
    var t := links[0].operand;
    LinkTokensHead(links);
    ReadsAppend(toks, p, [op] + TermTokens(t), LinkTokens(links[1..]));
    ReadsAppend(toks, p, [op], TermTokens(t));
    if links[1..] != [] {
      LinkTokensHead(links[1..]);
    }
  }

  /** After an operator and its operand comes the next operator or the end
      of the chain, and either has a symbol. */
  lemma NextRegistered(reg: Registry, toks: seq<Token>, links: seq<Link>, after: nat, q: nat)
    requires Arithmetic(reg) && ValidLinks(links) && links != [] && Registered(reg, toks, q)
    requires links[1..] == [] ==> after == q
    requires links[1..] != [] ==> after < |toks| && toks[after] == links[1..][0].op
    ensures Registered(reg, toks, after)
  {
    if links[1..] != [] {
      assert IsOperator(links[1..][0].op);
    }
  }

  /** One turn of the `led` loop over a chain: the operator `op` and its
      operand `t` are folded into the tree so far. */
  lemma ChainStep(reg: Registry, toks: seq<Token>, p: nat, acc: Node, op: Token, t: Term, after: nat)
    requires Arithmetic(reg) && IsOperator(op) && ValidTerm(t)
    requires p < |toks| && toks[p] == op && Reads(toks, p + 1, TermTokens(t))
    requires after == p + 1 + |TermTokens(t)| && Registered(reg, toks, after)
    ensures LedLoop(reg, toks, p, 0, acc) == LedLoop(reg, toks, after, 0, Binary(op.kind, acc, TermTree(t)))
  {
    TermOperand(reg, toks, p + 1, t, after);
    InfixLed(reg, toks, p, 0, acc, TermTree(t), after);
  }

  /** The `led` loop at binding power 0 over `op1 t1 op2 t2 ...` folds to the
      left: each operator takes the tree so far as its left operand, and the
      loop stops at the first token after the chain. */
  lemma {:induction false} ChainLeds(reg: Registry, toks: seq<Token>, p: nat, acc: Node, links: seq<Link>, q: nat)
    requires Arithmetic(reg) && ValidLinks(links) && Reads(toks, p, LinkTokens(links))
    requires q == p + |LinkTokens(links)| && Registered(reg, toks, q) && reg[toks[q].kind].lbp <= 0
    ensures LedLoop(reg, toks, p, 0, acc) == Ok(Parsed(FoldLeft(acc, links), q))
    decreases |links|
  {
    if links == [] {
      LedStops(reg, toks, p, 0, acc);
    } else {
      var op := links[0].op;
      var t := links[0].operand;
      var after := p + 1 + |TermTokens(t)|;
      var next := Binary(op.kind, acc, TermTree(t));
      LinkSplit(toks, p, links, after, q);
      NextRegistered(reg, toks, links, after, q);
      ChainStep(reg, toks, p, acc, op, t, after);
      ChainLeds(reg, toks, after, next, links[1..], q);
      assert FoldLeft(acc, links) == FoldLeft(next, links[1..]);
    }
  }

  /** One turn of `parse`'s loop: an expression, then the rest. */
  lemma ParseAllStep(reg: Registry, toks: seq<Token>, p: nat, tree: Node, n: nat)
    requires Registered(reg, toks, p) && toks[p].kind != EOF
    requires ParseExpr(reg, toks, p, 0) == Ok(Parsed(tree, n))
    ensures n <= |toks|
    ensures ParseAll(reg, toks, n).Ok? ==> ParseAll(reg, toks, p) == Ok([tree] + ParseAll(reg, toks, n).value)
    ensures ParseAll(reg, toks, n).Err? ==> ParseAll(reg, toks, p) == ParseAll(reg, toks, n)
  {
  }

  /** `parse`'s loop ends at a registered `EOF` token. */
  lemma ParseAllEnd(reg: Registry, toks: seq<Token>, p: nat)
    requires Registered(reg, toks, p) && toks[p].kind == EOF
    ensures ParseAll(reg, toks, p) == Ok([])
  {
  }

  /** Token lists holding one expression and then `EOF` parse to one tree. */
  lemma SingleExpression(reg: Registry, toks: seq<Token>, tree: Node, n: nat)
    requires Registered(reg, toks, 0) && toks[0].kind != EOF
    requires ParseExpr(reg, toks, 0, 0) == Ok(Parsed(tree, n))
    requires Registered(reg, toks, n) && toks[n].kind == EOF
    ensures ParseAll(reg, toks, 0) == Ok([tree])
  {
    ParseAllEnd(reg, toks, n);
    ParseAllStep(reg, toks, 0, tree, n);
    assert [tree] + [] == [tree];
  }

  /** The tokens `parse` reads for a chain: the first operand, the links,
      then the `EOF` token. */
  lemma ChainTokens(first: Term, links: seq<Link>)
    ensures var input := TermTokens(first) + LinkTokens(links);
      var toks := WithEOF(Some(input));
      && Reads(toks, 0, TermTokens(first))
      && Reads(toks, |TermTokens(first)|, LinkTokens(links))
      && |input| < |toks| && toks[|input|] == EOFToken
      && toks[0] == TermTokens(first)[0]
      && (links != [] ==> toks[|TermTokens(first)|] == links[0].op)
  {
    var input := TermTokens(first) + LinkTokens(links);
    var toks := WithEOF(Some(input));
    assert Reads(toks, 0, input) by {
      ReadsSuffix(toks, 0);
      assert toks[0..] == input + [EOFToken];
      ReadsAppend(toks, 0, input, [EOFToken]);
    }
    ReadsAppend(toks, 0, TermTokens(first), LinkTokens(links));
    if links != [] {
      LinkTokensHead(links);
    }
  }

  /** Reading a whole chain followed by the `EOF` token: every token where
      an expression or the loop of `parse` looks for a symbol has one. */
  lemma ChainSplit(reg: Registry, first: Term, links: seq<Link>)
    requires Arithmetic(reg) && EOF in reg
    requires ValidTerm(first) && ValidLinks(links)
    ensures var input := TermTokens(first) + LinkTokens(links);
      var toks := WithEOF(Some(input));
      && Reads(toks, 0, TermTokens(first))
      && Reads(toks, |TermTokens(first)|, LinkTokens(links))
      && |input| < |toks| && toks[|input|] == EOFToken
      && Registered(reg, toks, |TermTokens(first)|)
      && Registered(reg, toks, 0) && toks[0].kind != EOF
      && Registered(reg, toks, |input|) && toks[|input|].kind == EOF
  {
    ChainTokens(first, links);
    TermTokensHead(first);
  }

  /** An expression `t0 op1 t1 ... opn tn` at binding power 0 is parsed as
      the left fold of the chain, up to the token that follows it. */
  lemma ChainExpr(reg: Registry, toks: seq<Token>, first: Term, links: seq<Link>, q: nat)
    requires Arithmetic(reg) && ValidTerm(first) && ValidLinks(links)
    requires Reads(toks, 0, TermTokens(first)) && Registered(reg, toks, |TermTokens(first)|)
    requires Reads(toks, |TermTokens(first)|, LinkTokens(links))
    requires q == |TermTokens(first)| + |LinkTokens(links)| && Registered(reg, toks, q)
    requires reg[toks[q].kind].lbp <= 0
    ensures ParseExpr(reg, toks, 0, 0) == Ok(Parsed(FoldLeft(TermTree(first), links), q))
  {
    var n := |TermTokens(first)|;
    TermNud(reg, toks, 0, first, 0, n);
    ChainLeds(reg, toks, n, TermTree(first), links, q);
  }

  /** Operator precedence and associativity: an expression
      `t0 op1 t1 ... opn tn`, each operand a literal under any number of
      prefix `-`/`+`, parses to one tree in which the prefixes bind to their
      operands and the infix operators group to the left. */
  lemma OperatorChainIn(reg: Registry, first: Term, links: seq<Link>)
    requires Arithmetic(reg) && EOF in reg && reg[EOF].lbp <= 0
    requires ValidTerm(first) && ValidLinks(links)
    ensures Parse(reg, Some(TermTokens(first) + LinkTokens(links)))
         == Ok([FoldLeft(TermTree(first), links)])
  {
    var input := TermTokens(first) + LinkTokens(links);
    var toks := WithEOF(Some(input));
    var tree := FoldLeft(TermTree(first), links);
    ChainSplit(reg, first, links);
    ChainExpr(reg, toks, first, links, |input|);
    SingleExpression(reg, toks, tree, |input|);
  }

  lemma OperatorChain(first: Term, links: seq<Link>)
    requires ValidTerm(first) && ValidLinks(links)
    ensures Parse(DefaultRegistry, Some(TermTokens(first) + LinkTokens(links)))
         == Ok([FoldLeft(TermTree(first), links)])
  {
    DefaultArithmetic();
    OperatorChainIn(DefaultRegistry, first, links);
  }

  /** `123` and `'abc'` parse to themselves: `{type, value}`. */
  lemma LiteralParses(t: Token)
    requires IsLiteral(t)
    ensures Parse(DefaultRegistry, Some([t])) == Ok([Leaf(t.kind, t.value)])
  {
    OperatorChain(Term([], t), []);
    assert TermTokens(Term([], t)) + LinkTokens([]) == [t];
  }

  /** `- - 123` nests: Minus(Minus(123)). */
  lemma NestedPrefix()
    ensures Parse(DefaultRegistry, Some([Token(Minus, "-", None), Token(Minus, "-", None), Token(Number, "123", None)]))
         == Ok([Unary(Minus, Unary(Minus, Leaf(Number, "123")))])
  {
    var t := Term([Token(Minus, "-", None), Token(Minus, "-", None)], Token(Number, "123", None));
    OperatorChain(t, []);
    assert t.prefixes[1..][1..] == [];
    assert TermTokens(t) + LinkTokens([])
        == [Token(Minus, "-", None), Token(Minus, "-", None), Token(Number, "123", None)];
  }

  /** `- 1 + 2` is Plus(Minus(1), 2): the prefix binds more tightly. */
  lemma PrefixBindsTighter()
    ensures Parse(DefaultRegistry, Some([Token(Minus, "-", None), Token(Number, "1", None),
                                         Token(Plus, "+", None), Token(Number, "2", None)]))
         == Ok([Binary(Plus, Unary(Minus, Leaf(Number, "1")), Leaf(Number, "2"))])
  {
    var first := Term([Token(Minus, "-", None)], Token(Number, "1", None));
    var links := [Link(Token(Plus, "+", None), Term([], Token(Number, "2", None)))];
    OperatorChain(first, links);
    assert first.prefixes[1..] == [];
    assert LinkTokens(links[1..]) == [];
    assert TermTokens(first) + LinkTokens(links)
        == [Token(Minus, "-", None), Token(Number, "1", None), Token(Plus, "+", None), Token(Number, "2", None)];
  }

  /** `1 - 2 + 3` is Plus(Minus(1, 2), 3): infix operators group to the left. */
  lemma InfixGroupsLeft()
    ensures Parse(DefaultRegistry, Some([Token(Number, "1", None), Token(Minus, "-", None), Token(Number, "2", None),
                                         Token(Plus, "+", None), Token(Number, "3", None)]))
         == Ok([Binary(Plus, Binary(Minus, Leaf(Number, "1"), Leaf(Number, "2")), Leaf(Number, "3"))])
  {
    var first := Term([], Token(Number, "1", None));
    var links := [Link(Token(Minus, "-", None), Term([], Token(Number, "2", None))),
                  Link(Token(Plus, "+", None), Term([], Token(Number, "3", None)))];
    OperatorChain(first, links);
    assert links[1..][1..] == [];
    assert TermTokens(first) + LinkTokens(links)
        == [Token(Number, "1", None), Token(Minus, "-", None), Token(Number, "2", None),
            Token(Plus, "+", None), Token(Number, "3", None)];
  }

  /** A successful parse read every token up to the `EOF` that ended it. */
  lemma {:induction false} ParseAllReadsAll(reg: Registry, toks: seq<Token>, pos: nat)
    requires pos < |toks| && toks[|toks| - 1].kind == EOF
    requires forall i :: pos <= i < |toks| - 1 ==> toks[i].kind != EOF
    requires ParseAll(reg, toks, pos).Ok?
    ensures forall i :: pos <= i < |toks| ==> toks[i].kind in reg
    decreases |toks| - pos
  {
    assert toks[pos].kind in reg;
    if toks[pos].kind != EOF {
      var e := ParseExpr(reg, toks, pos, 0);
      ParseAllReadsAll(reg, toks, e.value.pos);
    }
  }

  /** An input with a token of unregistered type fails (unless an `EOF`
      token in the input ends parsing first). */
  lemma UnregisteredTokenFails(reg: Registry, input: seq<Token>, i: nat)
    requires i < |input| && input[i].kind !in reg
    requires forall j :: 0 <= j < |input| ==> input[j].kind != EOF
    ensures Parse(reg, Some(input)).Err?
  {
    var toks := WithEOF(Some(input));
    assert toks[i] == input[i];
    if Parse(reg, Some(input)).Ok? {
      ParseAllReadsAll(reg, toks, 0);
    }
  }

  /** The default parser has no symbol for identifiers, `*`, or the
      `True`/`False` constants it builds but does not register. */
  lemma DefaultRejects()
    ensures Identifier !in DefaultRegistry && Multiply !in DefaultRegistry
    ensures True !in DefaultRegistry && False !in DefaultRegistry
  {
  }

  /** A lone `-`: its nud reads the `EOF` token as its operand and then
      peeks past the end. */
  lemma LonePrefixReadsPastEnd()
    ensures Parse(DefaultRegistry, Some([Token(Minus, "-", None)])) == Err(ReadPastEnd)
  {
    var d := DefaultRegistry;
    var toks := WithEOF(Some([Token(Minus, "-", None)]));
    assert ParseExpr(d, toks, 1, 15) == Err(ReadPastEnd);
  }

  /** Calling an unimplemented slot throws 'Not Implemented', whatever the
      input: a token with no `nud` cannot start an expression. */
  lemma NotImplementedThrows(reg: Registry, toks: seq<Token>, q: nat, next: Peeked, left: Node)
    requires 0 < q <= |toks|
    ensures next.symbol.nud.handler == NotImplemented ==>
      ApplyNud(reg, toks, q, next) == Err(NotImplementedCalled)
    ensures next.symbol.led.handler == NotImplemented ==>
      ApplyLed(reg, toks, q, next, left) == Err(NotImplementedCalled)
  {
  }

  /** `(` fails: its nud calls a method the parser does not have. */
  lemma LeftParenFails()
    ensures Parse(DefaultRegistry, Some([Token(LeftParen, "(", None)])) == Err(MissingNext)
  {
    var d := DefaultRegistry;
    var toks := WithEOF(Some([Token(LeftParen, "(", None)]));
    assert toks[0] == Token(LeftParen, "(", None);
    assert d[LeftParen].nud.handler == CallsMissingNext;
    assert ParseExpr(d, toks, 0, 0) == Err(MissingNext);
  }

  /** A literal followed by a token that binds no more tightly than 0 is a
      whole expression by itself. */
  lemma LiteralExpr(reg: Registry, toks: seq<Token>, p: nat)
    requires Arithmetic(reg) && p + 1 < |toks| && IsLiteral(toks[p])
    requires Registered(reg, toks, p + 1) && reg[toks[p + 1].kind].lbp <= 0
    ensures ParseExpr(reg, toks, p, 0) == Ok(Parsed(Leaf(toks[p].kind, toks[p].value), p + 1))
  {
    LiteralNud(reg, toks, p, 0);
    LedStops(reg, toks, p + 1, 0, Leaf(toks[p].kind, toks[p].value));
  }

  /** Two literals in a row are two trees, in input order. */
  lemma TwoExpressions(a: Token, b: Token)
    requires IsLiteral(a) && IsLiteral(b)
    ensures Parse(DefaultRegistry, Some([a, b]))
         == Ok([Leaf(a.kind, a.value), Leaf(b.kind, b.value)])
  {
    var d := DefaultRegistry;
    DefaultArithmetic();
    var toks := WithEOF(Some([a, b]));
    assert toks == [a, b, EOFToken];
    LiteralExpr(d, toks, 0);
    LiteralExpr(d, toks, 1);
    ParseAllEnd(d, toks, 2);
    ParseAllStep(d, toks, 1, Leaf(b.kind, b.value), 2);
    ParseAllStep(d, toks, 0, Leaf(a.kind, a.value), 1);
    assert [Leaf(a.kind, a.value)] + ([Leaf(b.kind, b.value)] + []) == [Leaf(a.kind, a.value), Leaf(b.kind, b.value)];
  }
}
