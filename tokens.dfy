/**
 * The closed enumeration of token kinds (src/js/compiler/tokens.js) and the
 * token record the lexers produce and the parser consumes.
 */
module Tokens {
  import opened Wrappers

  datatype TokenKind =
    // reserved words
    | Var | If | Else | True | False | While | Function
    // punctuation
    | Semicolon | Not | Comma | Dot | Plus | Minus | Divide | Multiply | Colon
    | QuestionMark | LeftParen | RightParen | LeftBrace | RightBrace | LeftSquare
    | RightSquare | Equals | NotEquals | EqualsEquals | Pipe | Or | And | AndAnd
    | GreaterThan | GreaterThanEquals | LessThan | LessThanEquals
    // dynamic
    | Identifier | Number | String
    // sentinels
    | EOF | ERROR

  /** The string a kind stands for in the source table (its value there). */
  function Name(k: TokenKind): string {
    match k
    case Var => "Var"
    case If => "If"
    case Else => "Else"
    case True => "True"
    case False => "False"
    case While => "While"
    case Function => "Function"
    case Semicolon => "Semicolon"
    case Not => "Not"
    case Comma => "Comma"
    case Dot => "Dot"
    case Plus => "Plus"
    case Minus => "Minus"
    case Divide => "Divide"
    case Multiply => "Multiply"
    case Colon => "Colon"
    case QuestionMark => "QuestionMark"
    case LeftParen => "LeftParen"
    case RightParen => "RightParen"
    case LeftBrace => "LeftBrace"
    case RightBrace => "RightBrace"
    case LeftSquare => "LeftSquare"
    case RightSquare => "RightSquare"
    case Equals => "Equals"
    case NotEquals => "NotEquals"
    case EqualsEquals => "EqualsEquals"
    case Pipe => "Pipe"
    case Or => "Or"
    case And => "And"
    case AndAnd => "AndAnd"
    case GreaterThan => "GreaterThan"
    case GreaterThanEquals => "GreaterThanEquals"
    case LessThan => "LessThan"
    case LessThanEquals => "LessThanEquals"
    case Identifier => "Identifier"
    case Number => "Number"
    case String => "String"
    case EOF => "EOF"
    case ERROR => "ERROR"
  }

  /** The source table read backwards: the kind whose value is `s`, if any. */
  function KindNamed(s: string): Option<TokenKind> {
    match s
    case "Var" => Some(Var)
    case "If" => Some(If)
    case "Else" => Some(Else)
    case "True" => Some(True)
    case "False" => Some(False)
    case "While" => Some(While)
    case "Function" => Some(Function)
    case "Semicolon" => Some(Semicolon)
    case "Not" => Some(Not)
    case "Comma" => Some(Comma)
    case "Dot" => Some(Dot)
    case "Plus" => Some(Plus)
    case "Minus" => Some(Minus)
    case "Divide" => Some(Divide)
    case "Multiply" => Some(Multiply)
    case "Colon" => Some(Colon)
    case "QuestionMark" => Some(QuestionMark)
    case "LeftParen" => Some(LeftParen)
    case "RightParen" => Some(RightParen)
    case "LeftBrace" => Some(LeftBrace)
    case "RightBrace" => Some(RightBrace)
    case "LeftSquare" => Some(LeftSquare)
    case "RightSquare" => Some(RightSquare)
    case "Equals" => Some(Equals)
    case "NotEquals" => Some(NotEquals)
    case "EqualsEquals" => Some(EqualsEquals)
    case "Pipe" => Some(Pipe)
    case "Or" => Some(Or)
    case "And" => Some(And)
    case "AndAnd" => Some(AndAnd)
    case "GreaterThan" => Some(GreaterThan)
    case "GreaterThanEquals" => Some(GreaterThanEquals)
    case "LessThan" => Some(LessThan)
    case "LessThanEquals" => Some(LessThanEquals)
    case "Identifier" => Some(Identifier)
    case "Number" => Some(Number)
    case "String" => Some(String)
    case "EOF" => Some(EOF)
    case "ERROR" => Some(ERROR)
    case _ => None
  }

  /** Every kind's value is its own name, so distinct kinds have distinct
      values: a `type` string identifies its kind. */
  lemma NamesDistinct(a: TokenKind, b: TokenKind)
    ensures Name(a) == Name(b) <==> a == b
  {
    NameRead(a);
    NameRead(b);
  }

  /** Reading a kind's value back through the table gives the kind. */
  lemma NameRead(k: TokenKind)
    ensures KindNamed(Name(k)) == Some(k)
  {
    match GroupOf(k)
    case ReservedWordGroup => ReservedNameRead(k);
    case PunctuationGroup => PunctuationNameRead(k);
    case DynamicGroup =>
    case SentinelGroup =>
  }

  /** `NameRead` for the reserved words. */
  lemma ReservedNameRead(k: TokenKind)
    requires GroupOf(k) == ReservedWordGroup
    ensures KindNamed(Name(k)) == Some(k)
  {
  }

  /** `NameRead` for the punctuation. */
  lemma PunctuationNameRead(k: TokenKind)
    requires GroupOf(k) == PunctuationGroup
    ensures KindNamed(Name(k)) == Some(k)
  {
  }

  /** The four groups the source table is laid out in. */
  datatype Group = ReservedWordGroup | PunctuationGroup | DynamicGroup | SentinelGroup

  function GroupOf(k: TokenKind): Group {
    match k
    case Var | If | Else | True | False | While | Function => ReservedWordGroup
    case Identifier | Number | String => DynamicGroup
    case EOF | ERROR => SentinelGroup
    case _ => PunctuationGroup
  }

  const ReservedWords: seq<TokenKind> := [Var, If, Else, True, False, While, Function]

  const PunctuationKinds: seq<TokenKind> :=
    [ Semicolon, Not, Comma, Dot, Plus, Minus, Divide, Multiply, Colon, QuestionMark,
      LeftParen, RightParen, LeftBrace, RightBrace, LeftSquare, RightSquare, Equals,
      NotEquals, EqualsEquals, Pipe, Or, And, AndAnd, GreaterThan, GreaterThanEquals,
      LessThan, LessThanEquals ]

  const DynamicKinds: seq<TokenKind> := [Identifier, Number, String]

  const Sentinels: seq<TokenKind> := [EOF, ERROR]

  /** The punctuation group lists exactly the 27 kinds of that group. */
  lemma PunctuationListed(k: TokenKind)
    ensures GroupOf(k) == PunctuationGroup ==> k in PunctuationKinds
  {
    match k
    case Semicolon => assert PunctuationKinds[0] == Semicolon;
    case Not => assert PunctuationKinds[1] == Not;
    case Comma => assert PunctuationKinds[2] == Comma;
    case Dot => assert PunctuationKinds[3] == Dot;
    case Plus => assert PunctuationKinds[4] == Plus;
    case Minus => assert PunctuationKinds[5] == Minus;
    case Divide => assert PunctuationKinds[6] == Divide;
    case Multiply => assert PunctuationKinds[7] == Multiply;
    case Colon => assert PunctuationKinds[8] == Colon;
    case QuestionMark => assert PunctuationKinds[9] == QuestionMark;
    case LeftParen => assert PunctuationKinds[10] == LeftParen;
    case RightParen => assert PunctuationKinds[11] == RightParen;
    case LeftBrace => assert PunctuationKinds[12] == LeftBrace;
    case RightBrace => assert PunctuationKinds[13] == RightBrace;
    case LeftSquare => assert PunctuationKinds[14] == LeftSquare;
    case RightSquare => assert PunctuationKinds[15] == RightSquare;
    case Equals => assert PunctuationKinds[16] == Equals;
    case NotEquals => assert PunctuationKinds[17] == NotEquals;
    case EqualsEquals => assert PunctuationKinds[18] == EqualsEquals;
    case Pipe => assert PunctuationKinds[19] == Pipe;
    case Or => assert PunctuationKinds[20] == Or;
    case And => assert PunctuationKinds[21] == And;
    case AndAnd => assert PunctuationKinds[22] == AndAnd;
    case GreaterThan => assert PunctuationKinds[23] == GreaterThan;
    case GreaterThanEquals => assert PunctuationKinds[24] == GreaterThanEquals;
    case LessThan => assert PunctuationKinds[25] == LessThan;
    case LessThanEquals => assert PunctuationKinds[26] == LessThanEquals;
    case _ =>
  }

  lemma PunctuationOnlyListed()
    ensures |PunctuationKinds| == 27
    ensures forall i :: 0 <= i < |PunctuationKinds| ==> GroupOf(PunctuationKinds[i]) == PunctuationGroup
  {
  }

  lemma ReservedWordsListed(k: TokenKind)
    ensures GroupOf(k) == ReservedWordGroup <==> k in ReservedWords
  {
  }

  lemma DynamicAndSentinelsListed(k: TokenKind)
    ensures GroupOf(k) == DynamicGroup <==> k in DynamicKinds
    ensures GroupOf(k) == SentinelGroup <==> k in Sentinels
  {
  }

  /** A span of source offsets: start inclusive, end exclusive. */
  datatype Span = Span(from: nat, to: nat)

  /** A token: its kind, its text and, for the full lexer, where it came from. */
  datatype Token = Token(kind: TokenKind, value: string, span: Option<Span>)
}
