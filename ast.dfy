/**
 * The tree nodes the parser builds and the interpreter walks: plain objects
 * with a `type` and, depending on the node, a `value`, a `left` and a `right`.
 */
module Ast {
  import opened Wrappers
  import opened Tokens

  /** A node's `type`. The parser always writes the name of a token type; a
      tree handed to the interpreter may hold any other string. */
  datatype NodeType = TokenType(token: TokenKind) | OtherType(name: string)

  /** The string the `type` field holds. */
  function TypeName(t: NodeType): string {
    match t
    case TokenType(k) => Name(k)
    case OtherType(s) => s
  }

  datatype Node = Node(kind: NodeType, value: Option<string>, left: Option<Node>, right: Option<Node>)

  /** `{type, value}`: a literal. */
  function Leaf(kind: TokenKind, value: string): Node {
    Node(TokenType(kind), Some(value), None, None)
  }

  /** `{type, right}`: a prefix operator applied to its operand. */
  function Unary(kind: TokenKind, right: Node): Node {
    Node(TokenType(kind), None, None, Some(right))
  }

  /** `{type, left, right}`: an infix operator applied to two operands. */
  function Binary(kind: TokenKind, left: Node, right: Node): Node {
    Node(TokenType(kind), None, Some(left), Some(right))
  }
}
