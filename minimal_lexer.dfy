/**
 * The first, minimal lexer (src/js/compiler/lexer.js): it knows the keyword
 * `var`, identifiers, `;` and `=`, skips whitespace, and turns everything
 * from the first character it does not recognise onwards into one ERROR
 * token. Its tokens carry no offsets (`span` is always `None`).
 *
 * Its character classes are the same as those of the full lexer and are
 * taken from module Predicates; `takeWhile` is specified by `Lexer.SpanEnd`.
 */
module MinimalLexer {
  import opened Wrappers
  import opened Tokens
  import opened Predicates
  import FullLexer = Lexer

  /** The only reserved word. */
  const Keywords: map<string, TokenKind> := map["var" := Var]

  /** The only punctuation, all single characters. */
  const Punctuation: map<string, TokenKind> := map[";" := Semicolon, "=" := Equals]

  /** The token kinds this lexer can produce. */
  const Kinds: set<TokenKind> := {Var, Equals, Semicolon, Identifier, ERROR}

  function WordKind(w: string): TokenKind {
    if w in Keywords then Keywords[w] else Identifier
  }

  /** A word is `Var` when it is `var` and nothing else, otherwise `Identifier`. */
  lemma WordKindIsVarOnlyForVar(w: string)
    ensures WordKind(w) == Var <==> w == "var"
    ensures WordKind(w) == Identifier <==> w != "var"
  {
  }

  /** A token and the cursor position after it. */
  datatype Step = Step(token: Token, end: nat)

  /** One token scanned at a non-whitespace offset `i`, in the source's order:
      identifier, punctuation, otherwise an ERROR holding the rest. */
  function ScanAt(s: string, i: nat): (r: Step)
    requires i < |s|
    ensures i < r.end <= |s|
  {
    if IsLetter(s[i]) then
      var j := FullLexer.SpanEnd(s, i, IsWordChar);
      Step(Token(WordKind(s[i..j]), s[i..j], None), j)
    else if [s[i]] in Punctuation then
      Step(Token(Punctuation[[s[i]]], [s[i]], None), i + 1)
    else
      Step(Token(ERROR, s[i..], None), |s|)
  }

  /** `consumeNextToken` from offset `i`, with the cursor afterwards. */
  function NextToken(s: string, i: nat): (r: (Option<Token>, nat))
    requires i < |s|
    ensures i < r.1 <= |s|
  {
    var j := FullLexer.SpanEnd(s, i, IsWhitespace);
    if j == |s| then (None, j)
    else
      var step := ScanAt(s, j);
      (Some(step.token), step.end)
  }

  /** The tokens `tokenize` collects from offset `i` on. */
  function TokensFrom(s: string, i: nat): seq<Token>
    requires i <= |s|
    decreases |s| - i
  {
    if i == |s| then []
    else
      var (t, j) := NextToken(s, i);
      (if t.Some? then [t.value] else []) + TokensFrom(s, j)
  }

  /** The default export; an absent source is the empty string. */
  function TokensOf(source: Option<string>): seq<Token> {
    TokensFrom(if source.Some? then source.value else "", 0)
  }

  class Lexer {
    const source: string
    var position: nat

    ghost predicate Valid()
      reads this
    {
      position <= |source|
    }

    constructor (s: Option<string>)
      ensures Valid()
      ensures source == (if s.Some? then s.value else "") && position == 0
    {
      source := if s.Some? then s.value else "";
      position := 0;
    }

    function Peek(): (c: Option<char>)
      reads this
      ensures c.Some? <==> position < |source|
      ensures c.Some? ==> c.value == source[position]
    {
      if position < |source| then Some(source[position]) else None
    }

    method Pop() returns (next: char)
      requires Valid() && position < |source|
      modifies this
      ensures Valid()
      ensures next == source[old(position)] && position == old(position) + 1
    {
      next := source[position];
      position := position + 1;
    }

    method TakeWhile(p: char -> bool) returns (buffer: string)
      requires Valid()
      modifies this
      ensures Valid()
      ensures position == FullLexer.SpanEnd(source, old(position), p)
      ensures buffer == source[old(position)..position]
    {
      buffer := "";
      while Peek().Some? && p(Peek().value)
        invariant Valid() && old(position) <= position
        invariant buffer == source[old(position)..position]
        invariant FullLexer.SpanEnd(source, position, p) == FullLexer.SpanEnd(source, old(position), p)
        decreases |source| - position
      {
        var c := Pop();
        buffer := buffer + [c];
      }
    }

    method SkipWhitespace()
      requires Valid()
      modifies this
      ensures Valid()
      ensures position == FullLexer.SpanEnd(source, old(position), IsWhitespace)
    {
      var _ := TakeWhile(IsWhitespace);
    }

    method ScanIdentifier() returns (r: Option<Token>)
      requires Valid() && position < |source|
      modifies this
      ensures Valid()
      ensures IsLetter(source[old(position)]) ==>
        r == Some(ScanAt(source, old(position)).token) && position == ScanAt(source, old(position)).end
      ensures !IsLetter(source[old(position)]) ==> r.None? && position == old(position)
    {
      if !IsLetter(Peek().value) {
        return None;
      }
      var buffer := TakeWhile(IsWordChar);
      r := Some(Token(WordKind(buffer), buffer, None));
    }

    method ScanPunctuation() returns (r: Option<Token>)
      requires Valid() && position < |source|
      modifies this
      ensures Valid()
      ensures [source[old(position)]] in Punctuation ==>
        r == Some(Token(Punctuation[[source[old(position)]]], [source[old(position)]], None))
        && position == old(position) + 1
      ensures [source[old(position)]] !in Punctuation ==> r.None? && position == old(position)
    {
      if [Peek().value] !in Punctuation {
        return None;
      }
      var kind := Punctuation[[Peek().value]];
      var value := Pop();
      r := Some(Token(kind, [value], None));
    }

    method Error() returns (t: Token)
      requires Valid()
      modifies this
      ensures Valid()
      ensures t == Token(ERROR, source[old(position)..], None) && position == |source|
    {
      var rest := TakeWhile(FullLexer.Always);
      t := Token(ERROR, rest, None);
    }

    method ConsumeNextToken() returns (t: Option<Token>)
      requires Valid() && position < |source|
      modifies this
      ensures Valid()
      ensures (t, position) == NextToken(source, old(position))
    {
      SkipWhitespace();
      if Peek().None? {
        return None;
      }
      t := ScanIdentifier();
      if t.None? {
        t := ScanPunctuation();
      }
      if t.None? {
        var e := Error();
        t := Some(e);
      }
    }

    method Tokenize() returns (tokens: seq<Token>)
      requires Valid()
      modifies this
      ensures Valid()
      ensures tokens == TokensFrom(source, old(position))
    {
      tokens := [];
      while position < |source|
        invariant Valid() && old(position) <= position
        invariant tokens + TokensFrom(source, position) == TokensFrom(source, old(position))
        decreases |source| - position
      {
        ghost var before := position;
        var token := ConsumeNextToken();
        if token.Some? {
          tokens := tokens + [token.value];
        }
        assert TokensFrom(source, before)
            == (if token.Some? then [token.value] else []) + TokensFrom(source, position);
      }
    }
  }

  /** The default export: `new Lexer(string).tokenize()`. */
  method Lex(source: Option<string>) returns (tokens: seq<Token>)
    ensures tokens == TokensOf(source)
  {
    var lexer := new Lexer(source);
    tokens := lexer.Tokenize();
  }
}
