/**
 * What the interpreter promises, proved of module Interpreter: the visitor
 * dispatch agrees with a direct case analysis of the node, which error a
 * tree raises, how `parseFloat` reads the numbers the lexer produces, and
 * what the trees the parser builds for `+`/`-` chains evaluate to.
 */
module InterpreterProperties {
  import opened Wrappers
  import opened Tokens
  import opened Predicates
  import opened Ast
  import opened Lexer
  import opened LexerProperties
  import opened Parser
  import opened ParserProperties
  import opened Interpreter

  /** The cases the reference evaluator tells apart: the four arithmetic
      types, `Number`, `String`, and every other type. */
  datatype Case = Arithmetic(op: Operator) | NumberCase | StringCase | OtherCase

  /** The case of a node type, read off the token kind where the type is one
      and off the type's name otherwise. */
  function CaseOf(t: NodeType): Case {
    match t
    case TokenType(Plus) => Arithmetic(Add)
    case TokenType(Minus) => Arithmetic(Subtract)
    case TokenType(Multiply) => Arithmetic(Times)
    case TokenType(Divide) => Arithmetic(Quotient)
    case TokenType(Number) => NumberCase
    case TokenType(String) => StringCase
    case TokenType(_) => OtherCase
    case OtherType(s) =>
      if s in Operators then Arithmetic(Operators[s])
      else if s == "Number" then NumberCase
      else if s == "String" then StringCase
      else OtherCase
  }

  /** A type's case is the one its name selects in the visitors: an entry of
      `operators`, `Number`, `String`, or none of them. */
  lemma CaseAgrees(t: NodeType)
    ensures CaseOf(t).Arithmetic? <==> TypeName(t) in Operators
    ensures CaseOf(t).Arithmetic? ==> Operators[TypeName(t)] == CaseOf(t).op
    ensures CaseOf(t) == NumberCase <==> TypeName(t) == "Number"
    ensures CaseOf(t) == StringCase <==> TypeName(t) == "String"
  {
  }

  /** Reference evaluator: the same semantics as a direct case analysis of the
      node, without the visitor list. */
  function Evaluate(n: Node): Result<Value, EvalError>
    decreases n
  {
    match CaseOf(n.kind)
    case Arithmetic(op) =>
      (match (n.left, n.right)
       case (Some(l), Some(r)) =>
         var a :- Evaluate(l);
         var b :- Evaluate(r);
         Apply(op, a, Some(b))
       case (Some(l), None) =>
         var a :- Evaluate(l);
         Err(HostTypeError)
       case (None, Some(r)) =>
         var a :- Evaluate(r);
         Apply(op, a, None)
       case (None, None) => Err(HostTypeError))
    case NumberCase =>
      var x :- ParseFloat(n.value);
      Ok(Num(x))
    case StringCase =>
      if n.value.Some? then Ok(Str(n.value.value)) else Err(UnexpectedNodeType(TypeName(n.kind)))
    case OtherCase => Err(UnexpectedNodeType(TypeName(n.kind)))
  }

  /** A missing operand is a host TypeError, whichever visitor meets it. */
  lemma VisitMissing()
    ensures VisitNode(None) == Err(HostTypeError)
  {
  }

  /** Trying the operator visitor, then the literal visitor, then the error
      visitor computes exactly the reference evaluator. */
  lemma {:induction false} VisitNodeIsEvaluate(n: Node)
    ensures VisitNode(Some(n)) == Evaluate(n)
    decreases n
  {
    VisitMissing();
    if n.left.Some? {
      VisitNodeIsEvaluate(n.left.value);
    }
    if n.right.Some? {
      VisitNodeIsEvaluate(n.right.value);
    }
    CaseAgrees(n.kind);
    var node := Some(n);
    assert VisitNode(node) == FirstMatchingResult(Visitors, node);
    assert Visitors[0] == OperatorVisitor && Visitors[1..] == [LiteralVisitor, ErrorVisitor];
    assert Visit(Visitors[0], node) == VisitOperator(node);
    var name := TypeName(n.kind);
    if name in Operators {
      assert VisitOperator(node) == match Evaluate(n) case Ok(v) => Ok(Some(v)) case Err(e) => Err(e);
      assert FirstMatchingResult(Visitors, node) == Evaluate(n);
    } else {
      assert VisitOperator(node) == Ok(None);
      assert [LiteralVisitor, ErrorVisitor][1..] == [ErrorVisitor];
      assert FirstMatchingResult([ErrorVisitor], node) == Err(UnexpectedNodeType(name));
      assert FirstMatchingResult([LiteralVisitor, ErrorVisitor], node) == Evaluate(n);
      assert FirstMatchingResult(Visitors, node) == FirstMatchingResult([LiteralVisitor, ErrorVisitor], node);
    }
  }

  /** `walk` evaluates the first node and ignores the rest. */
  lemma WalkEvaluatesFirst(tree: seq<Node>)
    ensures tree == [] ==> Walk(tree) == Ok(None)
    ensures tree != [] ==>
      Walk(tree) == match Evaluate(tree[0]) case Ok(v) => Ok(Some(v)) case Err(e) => Err(e)
    ensures forall rest: seq<Node> :: tree != [] ==> Walk([tree[0]] + rest) == Walk(tree)
  {
    if tree != [] {
      VisitNodeIsEvaluate(tree[0]);
    }
  }

  /** The types the visitors before the error visitor answer for. */
  predicate Handled(n: Node) {
    var name := TypeName(n.kind);
    name in Operators || name == "Number" || (name == "String" && n.value.Some?)
  }

  /** Every unexpected-type error names a type outside the operator table and
      other than `Number`. */
  lemma {:induction false} UnexpectedNamesUnhandled(n: Node, t: string)
    requires Evaluate(n) == Err(UnexpectedNodeType(t))
    ensures t !in Operators && t != "Number"
    decreases n
  {
    CaseAgrees(n.kind);
    if CaseOf(n.kind).Arithmetic? {
      if n.left.Some? && Evaluate(n.left.value).Err? {
        UnexpectedNamesUnhandled(n.left.value, t);
      } else if n.right.Some? && Evaluate(n.right.value).Err? {
        UnexpectedNamesUnhandled(n.right.value, t);
      }
    }
  }

  /** A node raises the error naming its own type exactly when neither the
      operator visitor nor the literal visitor handles its type. */
  lemma UnexpectedTypeIffUnhandled(n: Node)
    ensures VisitNode(Some(n)) == Err(UnexpectedNodeType(TypeName(n.kind))) <==> !Handled(n)
  {
    VisitNodeIsEvaluate(n);
    if Evaluate(n) == Err(UnexpectedNodeType(TypeName(n.kind))) {
      UnexpectedNamesUnhandled(n, TypeName(n.kind));
    }
  }

  /** The value of a decimal numeral `digits[.digits]`, read off its digits. */
  ghost function DecimalValue(w: string): real
    requires IsDecimal(w)
  {
    if AllDigits(w) then DigitsValue(w) as real
    else
      var d :| 0 < d < |w| - 1 && w[d] == '.' && AllDigits(w[..d]) && AllDigits(w[d + 1..]);
      Decimal(DigitsValue(w[..d]), DigitsValue(w[d + 1..]), |w| - d - 1)
  }

  /** The dot of a decimal numeral ends its leading digits. */
  lemma DotEndsDigits(w: string, d: nat)
    requires d < |w| && w[d] == '.' && AllDigits(w[..d])
    ensures LeadingDigits(w) == d
  {
    forall k | 0 <= k < d ensures IsDigit(w[k]) {
      assert w[..d][k] == w[k];
    }
  }

  lemma AllDigitsLead(w: string)
    requires AllDigits(w)
    ensures LeadingDigits(w) == |w|
  {
  }

  lemma IntegerMagnitude(w: string)
    requires |w| > 0 && AllDigits(w)
    ensures Magnitude(w) == Ok(DigitsValue(w) as real)
  {
    AllDigitsLead(w);
    assert w[..|w|] == w;
    assert DigitsValue("") == 0 && Pow10(0) == 1;
  }

  lemma DottedMagnitude(w: string, d: nat)
    requires 0 < d < |w| - 1 && w[d] == '.' && AllDigits(w[..d]) && AllDigits(w[d + 1..])
    ensures Magnitude(w)
         == Ok(Decimal(DigitsValue(w[..d]), DigitsValue(w[d + 1..]), |w| - d - 1))
  {
    DotEndsDigits(w, d);
    AllDigitsLead(w[d + 1..]);
    var f := |w| - d - 1;
    assert LeadingDigits(w) == d && w[d] == '.' && LeadingDigits(w[d + 1..]) == f;
    assert w[d + 1..d + 1 + f] == w[d + 1..];
  }

  /** The numeral `w` is read in full and to its exact value. */
  lemma DecimalMagnitude(w: string)
    requires IsDecimal(w)
    ensures Magnitude(w) == Ok(DecimalValue(w))
    ensures IsDigit(w[0])
  {
    if AllDigits(w) {
      IntegerMagnitude(w);
    } else {
      forall d | 0 < d < |w| - 1 && w[d] == '.' && AllDigits(w[..d]) && AllDigits(w[d + 1..])
        ensures Magnitude(w) == Ok(Decimal(DigitsValue(w[..d]), DigitsValue(w[d + 1..]), |w| - d - 1))
      {
        DottedMagnitude(w, d);
      }
      var d :| 0 < d < |w| - 1 && w[d] == '.' && AllDigits(w[..d]) && AllDigits(w[d + 1..]);
      assert IsDigit(w[..d][0]);
    }
  }

  /** `parseFloat` reads a string of digits as the integer it denotes. */
  lemma IntegerParses(w: string)
    requires |w| > 0 && AllDigits(w)
    ensures ParseFloat(Some(w)) == Ok(DigitsValue(w) as real)
  {
    IntegerMagnitude(w);
    assert IsDigit(w[0]);
  }

  /** `parseFloat` reads a decimal numeral, with or without a minus sign, in
      full and to its exact value. */
  lemma DecimalParses(w: string)
    requires IsDecimal(w)
    ensures ParseFloat(Some(w)) == Ok(DecimalValue(w))
    ensures ParseFloat(Some("-" + w)) == Ok(-DecimalValue(w))
  {
    DecimalMagnitude(w);
    assert ("-" + w)[1..] == w;
  }

  /** Every `Number` token the lexer emits is a numeral the interpreter reads
      in full: the literal node the parser makes of it evaluates to the
      numeral's exact value. */
  lemma LexedNumbersEvaluate(source: Option<string>, k: nat)
    requires k < |TokensOf(source)| && TokensOf(source)[k].kind == Number
    ensures var w := TokensOf(source)[k].value;
      IsDecimal(w) && VisitNode(Some(Leaf(Number, w))) == Ok(Num(DecimalValue(w)))
  {
    var w := TokensOf(source)[k].value;
    assert IsDecimal(w) by {
      TokensDescribeSource(source);
      var s := if source.Some? then source.value else "";
      assert Describes(s, TokensOf(source)[k]);
    }
    NumberEvaluates(w);
    VisitNodeIsEvaluate(Leaf(Number, w));
  }

  /** A `Number` leaf holding a decimal numeral evaluates to its value. */
  lemma NumberEvaluates(w: string)
    requires IsDecimal(w)
    ensures Evaluate(Leaf(Number, w)) == Ok(Num(DecimalValue(w)))
  {
    DecimalParses(w);
  }

  /** An operand made of prefix signs and a decimal number. */
  ghost predicate NumericTerm(t: Term) {
    ValidTerm(t) && t.literal.kind == Number && IsDecimal(t.literal.value)
  }

  ghost predicate NumericLinks(links: seq<Link>)
    decreases |links|
  {
    links == [] || (IsOperator(links[0].op) && NumericTerm(links[0].operand) && NumericLinks(links[1..]))
  }

  lemma {:induction false} NumericLinksValid(links: seq<Link>)
    requires NumericLinks(links)
    ensures ValidLinks(links)
    decreases |links|
  {
    if links != [] {
      NumericLinksValid(links[1..]);
    }
  }

  /** Whether an odd number of the prefixes are `-`. */
  function Negated(prefixes: seq<Token>): bool
    decreases |prefixes|
  {
    if prefixes == [] then false
    else (prefixes[0].kind == Minus) != Negated(prefixes[1..])
  }

  /** The numeral, negated when an odd number of `-` precede it. */
  ghost function TermValue(t: Term): real
    requires NumericTerm(t)
  {
    var d := DecimalValue(t.literal.value);
    if Negated(t.prefixes) then -d else d
  }

  /** The values of a chain's operands, in order. */
  ghost function TermValues(links: seq<Link>): (vs: seq<real>)
    requires NumericLinks(links)
    ensures |vs| == |links|
    decreases |links|
  {
    if links == [] then [] else [TermValue(links[0].operand)] + TermValues(links[1..])
  }

  /** `acc op1 v1 op2 v2 ...` computed from left to right. */
  function Fold(acc: real, links: seq<Link>, vs: seq<real>): real
    requires |vs| == |links|
    decreases |links|
  {
    if links == [] then acc
    else Fold(if links[0].op.kind == Minus then acc - vs[0] else acc + vs[0], links[1..], vs[1..])
  }

  /** `acc op1 t1 op2 t2 ...` computed from left to right. */
  ghost function ChainValue(acc: real, links: seq<Link>): real
    requires NumericLinks(links)
  {
    Fold(acc, links, TermValues(links))
  }

  /** The operand trees of a chain evaluate, in order, to the numbers `vs`. */
  ghost predicate OperandsEvaluate(links: seq<Link>, vs: seq<real>)
    decreases |links|
  {
    |vs| == |links|
    && (links == []
        || (IsOperator(links[0].op)
            && Evaluate(TermTree(links[0].operand)) == Ok(Num(vs[0]))
            && OperandsEvaluate(links[1..], vs[1..])))
  }

  /** A prefix `-` negates a number and a prefix `+` keeps it. */
  lemma UnaryStep(k: TokenKind, x: Node, v: real)
    requires k == Minus || k == Plus
    requires Evaluate(x) == Ok(Num(v))
    ensures Evaluate(Unary(k, x)) == Ok(Num(if k == Minus then -v else v))
  {
  }

  /** An infix `-` subtracts and an infix `+` adds two numbers. */
  lemma BinaryStep(k: TokenKind, x: Node, y: Node, a: real, b: real)
    requires k == Minus || k == Plus
    requires Evaluate(x) == Ok(Num(a)) && Evaluate(y) == Ok(Num(b))
    ensures Evaluate(Binary(k, x, y)) == Ok(Num(if k == Minus then a - b else a + b))
  {
    var n := Binary(k, x, y);
    if k == Minus {
      assert CaseOf(n.kind) == Arithmetic(Subtract);
      assert Evaluate(n) == Apply(Subtract, Num(a), Some(Num(b)));
    } else {
      assert CaseOf(n.kind) == Arithmetic(Add);
      assert Evaluate(n) == Apply(Add, Num(a), Some(Num(b)));
    }
  }

  /** `x` under the prefix operators `ps`, outermost first. */
  function Prefixed(ps: seq<Token>, x: Node): Node
    decreases |ps|
  {
    if ps == [] then x else Unary(ps[0].kind, Prefixed(ps[1..], x))
  }

  lemma {:induction false} TermTreePrefixed(t: Term)
    ensures TermTree(t) == Prefixed(t.prefixes, Leaf(t.literal.kind, t.literal.value))
    decreases |t.prefixes|
  {
    if t.prefixes != [] {
      TermTreePrefixed(Term(t.prefixes[1..], t.literal));
    }
  }

  /** Prefix signs applied to a number negate it when an odd number of them
      are `-`. */
  lemma {:induction false} PrefixesEvaluate(ps: seq<Token>, x: Node, d: real)
    requires forall i :: 0 <= i < |ps| ==> IsOperator(ps[i])
    requires Evaluate(x) == Ok(Num(d))
    ensures Evaluate(Prefixed(ps, x)) == Ok(Num(if Negated(ps) then -d else d))
    decreases |ps|
  {
    if ps != [] {
      assert IsOperator(ps[0]);
      assert forall i :: 0 <= i < |ps[1..]| ==> IsOperator(ps[1..][i]) by {
        forall i | 0 <= i < |ps[1..]| ensures IsOperator(ps[1..][i]) {
          assert ps[1..][i] == ps[i + 1];
        }
      }
      PrefixesEvaluate(ps[1..], x, d);
      var inner := Prefixed(ps[1..], x);
      var v := if Negated(ps[1..]) then -d else d;
      assert Prefixed(ps, x) == Unary(ps[0].kind, inner);
      UnaryStep(ps[0].kind, inner, v);
      assert (if ps[0].kind == Minus then -v else v) == (if Negated(ps) then -d else d);
    }
  }

  /** A signed operand evaluates to its sign times its numeral. */
  lemma TermEvaluates(t: Term)
    requires NumericTerm(t)
    ensures Evaluate(TermTree(t)) == Ok(Num(TermValue(t)))
  {
    var d := DecimalValue(t.literal.value);
    var leaf := Leaf(t.literal.kind, t.literal.value);
    assert leaf == Leaf(Number, t.literal.value);
    NumberEvaluates(t.literal.value);
    TermTreePrefixed(t);
    PrefixesEvaluate(t.prefixes, leaf, d);
    assert TermValue(t) == if Negated(t.prefixes) then -d else d;
  }

  /** Each operand of a numeric chain evaluates to its value. */
  lemma {:induction false} OperandsValues(links: seq<Link>)
    requires NumericLinks(links)
    ensures OperandsEvaluate(links, TermValues(links))
    decreases |links|
  {
    if links != [] {
      var vs := TermValues(links);
      assert vs[0] == TermValue(links[0].operand) && vs[1..] == TermValues(links[1..]);
      TermEvaluates(links[0].operand);
      OperandsValues(links[1..]);
    }
  }

  /** The left-grouped tree of a chain whose operands evaluate to `vs`
      evaluates to the chain of `vs` computed from left to right. */
  lemma {:induction false} FoldEvaluates(acc: Node, a: real, links: seq<Link>, vs: seq<real>)
    requires Evaluate(acc) == Ok(Num(a)) && OperandsEvaluate(links, vs)
    ensures Evaluate(FoldLeft(acc, links)) == Ok(Num(Fold(a, links, vs)))
    decreases |links|
  {
    if links != [] {
      var k := links[0].op.kind;
      var next := Binary(k, acc, TermTree(links[0].operand));
      var b := if k == Minus then a - vs[0] else a + vs[0];
      assert IsOperator(links[0].op) && Evaluate(TermTree(links[0].operand)) == Ok(Num(vs[0]));
      BinaryStep(k, acc, TermTree(links[0].operand), a, vs[0]);
      FoldEvaluates(next, b, links[1..], vs[1..]);
      assert FoldLeft(acc, links) == FoldLeft(next, links[1..]);
      assert Fold(a, links, vs) == Fold(b, links[1..], vs[1..]);
    }
  }

  /** The left-grouped tree of a chain evaluates to the chain computed from
      left to right. */
  lemma ChainEvaluates(acc: Node, a: real, links: seq<Link>)
    requires Evaluate(acc) == Ok(Num(a)) && NumericLinks(links)
    ensures Evaluate(FoldLeft(acc, links)) == Ok(Num(ChainValue(a, links)))
  {
    OperandsValues(links);
    FoldEvaluates(acc, a, links, TermValues(links));
  }

  /** Parsing `t0 op1 t1 op2 t2 ...` with the default symbols and walking the
      tree computes the chain from left to right, each operand with its
      prefix signs applied first. */
  lemma ChainRuns(first: Term, links: seq<Link>)
    requires NumericTerm(first) && NumericLinks(links)
    ensures var parsed := Parse(DefaultRegistry, Some(TermTokens(first) + LinkTokens(links)));
      parsed.Ok? && Walk(parsed.value) == Ok(Some(Num(ChainValue(TermValue(first), links))))
  {
    NumericLinksValid(links);
    OperatorChain(first, links);
    TermEvaluates(first);
    ChainEvaluates(TermTree(first), TermValue(first), links);
    WalkEvaluatesFirst([FoldLeft(TermTree(first), links)]);
  }

  /** Two prefix minus signs cancel on any number. */
  lemma DoubleNegation(n: Node, v: real)
    requires VisitNode(Some(n)) == Ok(Num(v))
    ensures VisitNode(Some(Unary(Minus, Unary(Minus, n)))) == Ok(Num(v))
  {
    VisitNodeIsEvaluate(n);
    VisitNodeIsEvaluate(Unary(Minus, Unary(Minus, n)));
  }

  /** A prefix plus keeps a number and appends "0" to a string (it adds the
      default second argument 0). */
  lemma UnaryPlus(n: Node)
    ensures VisitNode(Some(n)).Ok? && VisitNode(Some(n)).value.Num? ==>
      VisitNode(Some(Unary(Plus, n))) == VisitNode(Some(n))
    ensures VisitNode(Some(n)).Ok? && VisitNode(Some(n)).value.Str? ==>
      VisitNode(Some(Unary(Plus, n))) == Ok(Str(VisitNode(Some(n)).value.s + "0"))
  {
    VisitNodeIsEvaluate(n);
    VisitNodeIsEvaluate(Unary(Plus, n));
  }

  /** An operator node without a right operand is a host TypeError once its
      left operand (if any) has been evaluated. */
  lemma MissingRightOperand(kind: TokenKind, left: Option<Node>)
    requires kind == Plus || kind == Minus || kind == Multiply || kind == Divide
    requires left.Some? ==> VisitNode(left).Ok?
    ensures VisitNode(Some(Node(TokenType(kind), None, left, None))) == Err(HostTypeError)
  {
    if left.Some? {
      VisitNodeIsEvaluate(left.value);
    }
    VisitNodeIsEvaluate(Node(TokenType(kind), None, left, None));
  }
}
