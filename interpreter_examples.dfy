/**
 * The trees of test/compiler/interpreter.spec.js that the interpreter
 * handles, written as the plain objects the tests build: each `type` is the
 * string the test gives.
 */
module InterpreterExamples {
  import opened Wrappers
  import opened Ast
  import opened Interpreter
  import opened InterpreterProperties

  function Literal(typeName: string, value: string): Node {
    Node(OtherType(typeName), Some(value), None, None)
  }

  function Operation(typeName: string, left: Node, right: Node): Node {
    Node(OtherType(typeName), None, Some(left), Some(right))
  }

  /** `parseFloat` of the one-digit numerals the tests use. */
  lemma Digits()
    ensures ParseFloat(Some("0")) == Ok(0.0) && ParseFloat(Some("1")) == Ok(1.0)
    ensures ParseFloat(Some("2")) == Ok(2.0) && ParseFloat(Some("3")) == Ok(3.0)
  {
    IntegerParses("0");
    IntegerParses("1");
    IntegerParses("2");
    IntegerParses("3");
  }

  lemma FortyTwo()
    ensures ParseFloat(Some("42")) == Ok(42.0)
  {
    IntegerParses("42");
    assert "42"[..1] == "4";
  }

  lemma Hundred()
    ensures ParseFloat(Some("100")) == Ok(100.0)
  {
    IntegerParses("100");
    assert "100"[..2] == "10" && "10"[..1] == "1";
  }

  lemma EmptyTree()
    ensures Walk([]) == Ok(None)
  {
  }

  lemma UnexpectedNode()
    ensures Walk([Node(OtherType("Unexpected"), None, None, None)]) == Err(UnexpectedNodeType("Unexpected"))
    ensures UnexpectedNodeTypeMessage("Unexpected") == "Unexpected node type 'Unexpected'"
  {
    WalkEvaluatesFirst([Node(OtherType("Unexpected"), None, None, None)]);
  }

  lemma NumberLiterals()
    ensures Walk([Literal("Number", "42")]) == Ok(Some(Num(42.0)))
    ensures Walk([Literal("Number", "0")]) == Ok(Some(Num(0.0)))
  {
    FortyTwo();
    Digits();
    WalkEvaluatesFirst([Literal("Number", "42")]);
    WalkEvaluatesFirst([Literal("Number", "0")]);
  }

  lemma StringLiteral()
    ensures Walk([Literal("String", "hello world")]) == Ok(Some(Str("hello world")))
  {
    WalkEvaluatesFirst([Literal("String", "hello world")]);
  }

  lemma Addition()
    ensures Walk([Operation("Plus", Literal("Number", "1"), Literal("Number", "1"))]) == Ok(Some(Num(2.0)))
    ensures Walk([Operation("Plus", Literal("Number", "0"), Literal("Number", "0"))]) == Ok(Some(Num(0.0)))
  {
    Digits();
    WalkEvaluatesFirst([Operation("Plus", Literal("Number", "1"), Literal("Number", "1"))]);
    WalkEvaluatesFirst([Operation("Plus", Literal("Number", "0"), Literal("Number", "0"))]);
  }

  lemma Multiplication()
    ensures Walk([Operation("Multiply", Literal("Number", "2"), Literal("Number", "3"))]) == Ok(Some(Num(6.0)))
  {
    Digits();
    WalkEvaluatesFirst([Operation("Multiply", Literal("Number", "2"), Literal("Number", "3"))]);
  }

  lemma Subtraction()
    ensures Walk([Operation("Minus", Literal("Number", "2"), Literal("Number", "3"))]) == Ok(Some(Num(-1.0)))
  {
    Digits();
    WalkEvaluatesFirst([Operation("Minus", Literal("Number", "2"), Literal("Number", "3"))]);
  }

  /** `100 + 100 / 2` as the test nests it: the division is the right operand. */
  lemma DivisionNested()
    ensures Walk([Operation("Plus", Literal("Number", "100"),
                    Operation("Divide", Literal("Number", "100"), Literal("Number", "2")))])
         == Ok(Some(Num(150.0)))
  {
    Digits();
    Hundred();
    var quotient := Operation("Divide", Literal("Number", "100"), Literal("Number", "2"));
    assert Evaluate(quotient) == Ok(Num(50.0));
    WalkEvaluatesFirst([Operation("Plus", Literal("Number", "100"), quotient)]);
  }

  /** A prefix plus appends "0" to a string, as `+` with the default 0 does. */
  lemma UnaryPlusOnString()
    ensures VisitNode(Some(Node(OtherType("Plus"), None, None, Some(Literal("String", "x")))))
         == Ok(Str("x0"))
  {
    VisitNodeIsEvaluate(Node(OtherType("Plus"), None, None, Some(Literal("String", "x"))));
    assert "x" + "0" == "x0";
  }
}
