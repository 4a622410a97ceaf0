/**
 * The tree-walking evaluator of src/js/compiler/interpreter/index.js. `walk`
 * evaluates the first node of a parse tree; `visitNode` asks the operator
 * visitor, then the literal visitor, then the error visitor, and the first
 * one that does not answer `undefined` decides the result.
 *
 * Numbers are exact reals. Where JavaScript would produce a value outside
 * them (`NaN`, an infinity, a string coerced to a number or a number to a
 * string), the model stops with `Unmodelled` instead.
 */
module Interpreter {
  import opened Wrappers
  import opened Predicates
  import opened Ast

  datatype Value = Num(n: real) | Str(s: string)

  datatype EvalError =
    /** The error visitor's `Error`, naming the node's type. */
    | UnexpectedNodeType(typeName: string)
    /** The host's TypeError: a visitor read `type` of a missing operand. */
    | HostTypeError
    /** JavaScript goes on with a value this model does not represent. */
    | Unmodelled

  /** The text of the error visitor's `Error`. */
  function UnexpectedNodeTypeMessage(typeName: string): (m: string)
    ensures |m| == |typeName| + 23 && m[22..|m| - 1] == typeName
  {
    "Unexpected node type '" + typeName + "'"
  }

  /** Distinct node types are reported with distinct messages. */
  lemma MessageNamesType(a: string, b: string)
    requires UnexpectedNodeTypeMessage(a) == UnexpectedNodeTypeMessage(b)
    ensures a == b
  {
    var m := UnexpectedNodeTypeMessage(a);
    assert a == m[22..|m| - 1];
  }

  /** The four entries of the `operators` table. */
  datatype Operator = Add | Subtract | Times | Quotient

  /** `operators`, keyed by the names of the token types `Plus`, `Minus`,
      `Multiply` and `Divide`; no other key is present. */
  const Operators: map<string, Operator> :=
    map["Plus" := Add, "Minus" := Subtract, "Multiply" := Times, "Divide" := Quotient]

  /** Calls the table's function for `op` with `a` and, when the node has a
      left operand, `b`. `Plus` defaults its second argument to 0 and `Minus`
      negates when it has none; `Multiply` and `Divide` with one argument give
      `NaN`. Only number-with-number arithmetic (and `+` on two strings, or a
      string and the default 0) stays inside the model; division by zero gives
      an infinity or `NaN`. */
  function Apply(op: Operator, a: Value, b: Option<Value>): Result<Value, EvalError>
  {
    match (op, a, b)
    case (Add, Num(x), None) => Ok(Num(x + 0.0))
    case (Add, Str(s), None) => Ok(Str(s + "0"))
    case (Add, Num(x), Some(Num(y))) => Ok(Num(x + y))
    case (Add, Str(s), Some(Str(t))) => Ok(Str(s + t))
    case (Subtract, Num(x), None) => Ok(Num(-x))
    case (Subtract, Num(x), Some(Num(y))) => Ok(Num(x - y))
    case (Times, Num(x), Some(Num(y))) => Ok(Num(x * y))
    case (Quotient, Num(x), Some(Num(y))) => if y == 0.0 then Err(Unmodelled) else Ok(Num(x / y))
    case _ => Err(Unmodelled)
  }

  /** What stays inside the model: a number comes only from numbers, a
      string only from `+` on a string; two numbers always give a number
      except when dividing by zero; `*` and `/` need two operands; and `+`
      with one string operand appends the default `0`. */
  lemma ApplyResults(op: Operator, a: Value, b: Option<Value>)
    ensures var r := Apply(op, a, b);
      && (r.Ok? && r.value.Num? ==> a.Num? && (b.None? || b.value.Num?))
      && (r.Ok? && r.value.Str? ==> op == Add && a.Str? && (b.None? || b.value.Str?))
      && (a.Num? && b.Some? && b.value.Num? ==> (r.Ok? <==> !(op == Quotient && b.value.n == 0.0)))
      && ((op == Times || op == Quotient) && b.None? ==> r == Err(Unmodelled))
      && (op == Add && a.Str? && b.None? ==> r == Ok(Str(a.s + "0")))
  {
  }

  /** The length of the run of digits `s` starts with. */
  function LeadingDigits(s: string): (n: nat)
    ensures n <= |s|
    ensures forall k :: 0 <= k < n ==> IsDigit(s[k])
    ensures n == |s| || !IsDigit(s[n])
  {
    if s == [] || !IsDigit(s[0]) then 0 else 1 + LeadingDigits(s[1..])
  }

  /** The number a string of decimal digits denotes. */
  function DigitsValue(s: string): nat
    requires forall k :: 0 <= k < |s| ==> IsDigit(s[k])
  {
    if s == [] then 0
    else
      assert IsDigit(s[|s| - 1]);
      10 * DigitsValue(s[..|s| - 1]) + (s[|s| - 1] as int - '0' as int)
  }

  function Pow10(n: nat): (r: nat)
    ensures r > 0
  {
    if n == 0 then 1 else 10 * Pow10(n - 1)
  }

  /** `parseFloat(value)` on its decimal forms: an optional sign, then a
      numeral. An absent value is `NaN`. */
  function ParseFloat(value: Option<string>): (r: Result<real, EvalError>)
    ensures value.None? ==> r == Err(Unmodelled)
    ensures r.Ok? ==> value.Some? && |value.value| > 0
    ensures r.Ok? && value.value[0] == '-' ==> r.value <= 0.0
    ensures r.Ok? && value.value[0] != '-' ==> 0.0 <= r.value
    ensures value.Some? && |value.value| > 0 && value.value[0] == '-' ==>
      (r.Ok? <==> Magnitude(value.value[1..]).Ok?) && (r.Ok? ==> r.value == -Magnitude(value.value[1..]).value)
  {
    match value
    case None => Err(Unmodelled)
    case Some(s) =>
      if |s| > 0 && s[0] == '-' then
        var m :- Magnitude(s[1..]);
        Ok(-m)
      else if |s| > 0 && s[0] == '+' then Magnitude(s[1..])
      else Magnitude(s)
  }

  /** The numeral `body` starts with: digits, and a `.` with digits, at least
      one digit in all; whatever follows is ignored. Without such a numeral
      the result is `NaN`; leading whitespace, `Infinity` and an exponent
      after the digits are not modelled. */
  function Magnitude(body: string): (r: Result<real, EvalError>)
    ensures r.Ok? ==> 0.0 <= r.value
    ensures r.Ok? ==> |body| > 0 && (IsDigit(body[0]) || (|body| > 1 && body[0] == '.' && IsDigit(body[1])))
  {
    var i := LeadingDigits(body);
    var dotted := i < |body| && body[i] == '.';
    var f := if dotted then LeadingDigits(body[i + 1..]) else 0;
    var end := if dotted then i + 1 + f else i;
    var fraction := if dotted then body[i + 1..end] else "";
    if i == 0 && f == 0 then Err(Unmodelled)
    else if end < |body| && (body[end] == 'e' || body[end] == 'E') then Err(Unmodelled)
    else
      assert forall k :: 0 <= k < |fraction| ==> fraction[k] == body[i + 1..][k];
      Ok(Decimal(DigitsValue(body[..i]), DigitsValue(fraction), f))
  }

  /** The number `whole.fraction`, the fraction written with `places` digits. */
  function Decimal(whole: nat, fraction: nat, places: nat): real {
    whole as real + fraction as real / Pow10(places) as real
  }

  /** The three visitors `visitNode` tries, in order. */
  datatype Visitor = OperatorVisitor | LiteralVisitor | ErrorVisitor

  const Visitors: seq<Visitor> := [OperatorVisitor, LiteralVisitor, ErrorVisitor]

  /** `visitNode(node)`; `None` is a missing operand (`undefined`). */
  function VisitNode(node: Option<Node>): (r: Result<Value, EvalError>)
    ensures node.None? ==> r == Err(HostTypeError)
    ensures node.Some? && r.Ok? ==>
      var name := TypeName(node.value.kind);
      name in Operators || name == "Number" || (name == "String" && node.value.value.Some?)
    decreases node, 3
  {
    FirstMatchingResultAnswers(Visitors, node);
    FirstMatchingResult(Visitors, node)
  }

  /** `firstMatchingResult`: the first visitor's answer unless it is
      `undefined`, else the rest's. Past the last visitor there is no
      function to call. */
  function FirstMatchingResult(visitors: seq<Visitor>, node: Option<Node>): Result<Value, EvalError>
    decreases node, 2, |visitors|, 0
  {
    if visitors == [] then Err(HostTypeError)
    else
      match Visit(visitors[0], node)
      case Err(e) => Err(e)
      case Ok(Some(v)) => Ok(v)
      case Ok(None) => FirstMatchingResult(visitors[1..], node)
  }

  /** What `firstMatchingResult` promises: when every visitor answers
      `undefined` the call past the last one is a host TypeError; a value is
      some visitor's answer, and so is any other error. */
  lemma {:induction false} FirstMatchingResultAnswers(visitors: seq<Visitor>, node: Option<Node>)
    ensures var r := FirstMatchingResult(visitors, node);
      && ((forall v :: v in visitors ==> Visit(v, node) == Ok(None)) ==> r == Err(HostTypeError))
      && (r.Ok? ==> exists v :: v in visitors && Visit(v, node) == Ok(Some(r.value)))
      && (r.Err? && r.error != HostTypeError ==> exists v :: v in visitors && Visit(v, node) == Err(r.error))
    decreases node, 2, |visitors|, 1
  {
    if visitors != [] {
      FirstMatchingResultAnswers(visitors[1..], node);
      assert forall v :: v in visitors[1..] ==> v in visitors;
    }
  }

  /** One visitor's answer; `Ok(None)` is `undefined`. */
  function Visit(visitor: Visitor, node: Option<Node>): Result<Option<Value>, EvalError>
    decreases node, 1
  {
    match visitor
    case OperatorVisitor => VisitOperator(node)
    case LiteralVisitor => VisitLiteral(node)
    case ErrorVisitor => ErrorVisit(node)
  }

  /** `visitOperator`: nothing for a type outside the table; otherwise the
      left operand, when there is one, then the right, then the operator. */
  function VisitOperator(node: Option<Node>): (r: Result<Option<Value>, EvalError>)
    ensures node.None? ==> r == Err(HostTypeError)
    ensures node.Some? ==> (r == Ok(None) <==> TypeName(node.value.kind) !in Operators)
    decreases node, 0
  {
    match node
    case None => Err(HostTypeError)
    case Some(n) =>
      var name := TypeName(n.kind);
      if name !in Operators then Ok(None)
      else if n.left.Some? then
        var a :- VisitNode(n.left);
        var b :- VisitNode(n.right);
        var r :- Apply(Operators[name], a, Some(b));
        Ok(Some(r))
      else
        var a :- VisitNode(n.right);
        var r :- Apply(Operators[name], a, None);
        Ok(Some(r))
  }

  /** `visitLiteral`: a `Number` node's parsed value, a `String` node's value
      (which may itself be `undefined`), nothing for any other type. */
  function VisitLiteral(node: Option<Node>): (r: Result<Option<Value>, EvalError>)
    ensures node.None? ==> r == Err(HostTypeError)
    ensures node.Some? ==> (r == Ok(None) <==>
      TypeName(node.value.kind) != "Number" && (TypeName(node.value.kind) != "String" || node.value.value.None?))
    ensures r.Ok? && r.value.Some? ==> (r.value.value.Num? <==> TypeName(node.value.kind) == "Number")
  {
    match node
    case None => Err(HostTypeError)
    case Some(n) =>
      if TypeName(n.kind) == "Number" then
        var x :- ParseFloat(n.value);
        Ok(Some(Num(x)))
      else if TypeName(n.kind) == "String" then
        Ok(if n.value.Some? then Some(Str(n.value.value)) else None)
      else Ok(None)
  }

  /** `error`: always throws, naming the node's type. */
  function ErrorVisit(node: Option<Node>): (r: Result<Option<Value>, EvalError>)
    ensures r.Err?
    ensures node.Some? ==> r.error == UnexpectedNodeType(TypeName(node.value.kind))
  {
    match node
    case None => Err(HostTypeError)
    case Some(n) => Err(UnexpectedNodeType(TypeName(n.kind)))
  }

  /** `walk(tree)` (and the default export): the first node's value, or
      `undefined` for an empty tree. */
  function Walk(tree: seq<Node>): (r: Result<Option<Value>, EvalError>)
    ensures r == Ok(None) <==> tree == []
    ensures tree != [] ==> r.Ok? == VisitNode(Some(tree[0])).Ok?
    ensures r.Ok? && tree != [] ==> r.value == Some(VisitNode(Some(tree[0])).value)
  {
    if tree == [] then Ok(None)
    else
      var v :- VisitNode(Some(tree[0]));
      Ok(Some(v))
  }
}
