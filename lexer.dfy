/**
 * The full lexer (src/js/compiler/lexer/index.js).
 *
 * The first half states what the lexer computes as functions of the source
 * text and a cursor offset; the `Lexer` class is the source's cursor object,
 * whose methods are proved to follow those functions.
 */
module Lexer {
  import opened Wrappers
  import opened Tokens
  import opened Predicates

  /** Reserved words; a word not listed here is an `Identifier`. */
  const Keywords: map<string, TokenKind> :=
    map[ "var" := Var, "if" := If, "else" := Else, "true" := True, "false" := False,
         "function" := Function ]

  /** One- and two-character punctuation. */
  const Punctuation: map<string, TokenKind> :=
    map[ ";" := Semicolon, "!" := Not, "," := Comma, "." := Dot, "+" := Plus, "-" := Minus,
         "/" := Divide, "*" := Multiply, ":" := Colon, "?" := QuestionMark,
         "(" := LeftParen, ")" := RightParen, "{" := LeftBrace, "}" := RightBrace,
         "[" := LeftSquare, "]" := RightSquare, "=" := Equals, "!=" := NotEquals,
         "==" := EqualsEquals, "|" := Pipe, "||" := Or, "&" := And, "&&" := AndAnd,
         ">" := GreaterThan, ">=" := GreaterThanEquals, "<" := LessThan,
         "<=" := LessThanEquals ]

  /** What a scanner hands back before offsets are attached: `{type, value}`. */
  datatype Lexeme = Lexeme(kind: TokenKind, value: string)

  /** A lexeme together with the cursor position after it. */
  datatype Scanned = Scanned(lexeme: Lexeme, end: nat)

  function Always(c: char): bool { true }

  function NotQuote(q: char): char -> bool { c => c != q }

  /** The kind of a letter-initial word: its keyword kind, or `Identifier`.
      Only the six table entries are reserved words; `while`, although a
      reserved-word token type, is not among them. */
  function WordKind(w: string): (r: TokenKind)
    ensures r == Identifier <==> w !in Keywords
    ensures r == Identifier || GroupOf(r) == ReservedWordGroup
    ensures r != While
  {
    if w in Keywords then Keywords[w] else Identifier
  }

  /** Where `takeWhile(p)` started at offset `i` stops: the end of the longest
      run of characters satisfying `p`. */
  function SpanEnd(s: string, i: nat, p: char -> bool): (j: nat)
    requires i <= |s|
    ensures i <= j <= |s|
    ensures forall k :: i <= k < j ==> p(s[k])
    ensures j == |s| || !p(s[j])
    decreases |s| - i
  {
    if i < |s| && p(s[i]) then SpanEnd(s, i + 1, p) else i
  }

  /** Any offset `j` that ends a run of `p` characters and is followed by a
      non-`p` character (or the end) is where `takeWhile(p)` stops. */
  lemma {:induction false} SpanEndIs(s: string, i: nat, j: nat, p: char -> bool)
    requires i <= j <= |s|
    requires forall k :: i <= k < j ==> p(s[k])
    requires j == |s| || !p(s[j])
    ensures SpanEnd(s, i, p) == j
    decreases j - i
  {
    if i < j {
      SpanEndIs(s, i + 1, j, p);
    }
  }

  /** `error(buffer)`: an ERROR lexeme holding `buffer` and the rest of the
      input; the cursor ends at the end of the input. */
  function ErrorAt(s: string, i: nat, buffer: string): (r: Scanned)
    requires i <= |s|
    ensures r.lexeme.kind == ERROR && r.end == |s|
    ensures |r.lexeme.value| == |buffer| + (|s| - i)
    ensures r.lexeme.value[..|buffer|] == buffer && r.lexeme.value[|buffer|..] == s[i..]
  {
    Scanned(Lexeme(ERROR, buffer + s[i..]), |s|)
  }

  function WordAt(s: string, i: nat): (r: Option<Scanned>)
    requires i < |s|
    ensures r.Some? ==> i < r.value.end <= |s|
  {
    if !IsLetter(s[i]) then None
    else
      var j := SpanEnd(s, i, IsWordChar);
      Some(Scanned(Lexeme(WordKind(s[i..j]), s[i..j]), j))
  }

  function PunctuationAt(s: string, i: nat): (r: Option<Scanned>)
    requires i < |s|
    ensures r.Some? ==> i < r.value.end <= |s|
  {
    if [s[i]] !in Punctuation then None
    else if i + 1 < |s| && [s[i], s[i + 1]] in Punctuation then
      Some(Scanned(Lexeme(Punctuation[[s[i], s[i + 1]]], [s[i], s[i + 1]]), i + 2))
    else
      Some(Scanned(Lexeme(Punctuation[[s[i]]], [s[i]]), i + 1))
  }

  function NumberAt(s: string, i: nat): (r: Option<Scanned>)
    requires i < |s|
    ensures r.Some? ==> i < r.value.end <= |s|
  {
    if !IsDigit(s[i]) then None
    else
      var j := SpanEnd(s, i, IsDigit);
      if j < |s| && s[j] == '.' then
        if j + 1 < |s| && IsDigit(s[j + 1]) then
          var k := SpanEnd(s, j + 1, IsDigit);
          Some(Scanned(Lexeme(Number, s[i..k]), k))
        else
          Some(ErrorAt(s, j + 1, s[i..j + 1]))
      else
        Some(Scanned(Lexeme(Number, s[i..j]), j))
  }

  function QuotedAt(s: string, i: nat, q: char): (r: Option<Scanned>)
    requires i < |s|
    ensures r.Some? ==> i < r.value.end <= |s|
  {
    if s[i] != q then None
    else
      var j := SpanEnd(s, i + 1, NotQuote(q));
      if j == |s| then Some(ErrorAt(s, j, [q] + s[i + 1..j]))
      else Some(Scanned(Lexeme(String, s[i + 1..j]), j + 1))
  }

  function StringAt(s: string, i: nat): (r: Option<Scanned>)
    requires i < |s|
    ensures r.Some? ==> i < r.value.end <= |s|
  {
    var r := QuotedAt(s, i, '\'');
    if r.Some? then r else QuotedAt(s, i, '"')
  }

  /** The scanners in the source's order; the first that applies wins. */
  function ScanAt(s: string, i: nat): (r: Scanned)
    requires i < |s|
    ensures i < r.end <= |s|
  {
    var w := WordAt(s, i);
    if w.Some? then w.value else
    var p := PunctuationAt(s, i);
    if p.Some? then p.value else
    var n := NumberAt(s, i);
    if n.Some? then n.value else
    var q := StringAt(s, i);
    if q.Some? then q.value else
    ErrorAt(s, i, "")
  }

  /** `consumeNextToken` from offset `i`: skip whitespace, then scan one token
      (none if only whitespace was left); also the cursor afterwards. */
  function NextToken(s: string, i: nat): (r: (Option<Token>, nat))
    requires i < |s|
    ensures i < r.1 <= |s|
  {
    var j := SpanEnd(s, i, IsWhitespace);
    if j == |s| then (None, j)
    else
      var sc := ScanAt(s, j);
      (Some(Token(sc.lexeme.kind, sc.lexeme.value, Some(Span(j, sc.end)))), sc.end)
  }

  /** The tokens `tokenize` collects from offset `i` on. */
  function TokensFrom(s: string, i: nat): seq<Token>
    requires i <= |s|
    decreases |s| - i
  {
    if i == |s| then []
    else
      var (t, j) := NextToken(s, i);
      (if t.Some? then [t.value] else []) + TokensFrom(s, j)
  }

  /** The default export: an absent source is the empty string. */
  function TokensOf(source: Option<string>): seq<Token> {
    var s := if source.Some? then source.value else "";
    TokensFrom(s, 0)
  }

  /** `r` and the new cursor `pos` are what `spec` says a scanner produces from
      `pos0`; when the scanner does not apply, nothing is consumed. */
  ghost predicate Follows(r: Option<Lexeme>, pos: nat, pos0: nat, spec: Option<Scanned>) {
    if spec.None? then r.None? && pos == pos0
    else r == Some(spec.value.lexeme) && pos == spec.value.end
  }

  class Lexer {
    const source: string
    var position: nat

    ghost predicate Valid()
      reads this
    {
      position <= |source|
    }

    constructor (s: Option<string>)
      ensures Valid()
      ensures source == (if s.Some? then s.value else "") && position == 0
    {
      source := if s.Some? then s.value else "";
      position := 0;
    }

    /** The character under the cursor, if any. */
    function Peek(): (c: Option<char>)
      reads this
      ensures c.Some? <==> position < |source|
      ensures c.Some? ==> c.value == source[position]
    {
      if position < |source| then Some(source[position]) else None
    }

    method Pop() returns (next: char)
      requires Valid() && position < |source|
      modifies this
      ensures Valid()
      ensures next == source[old(position)] && position == old(position) + 1
    {
      next := source[position];
      position := position + 1;
    }

    method TakeWhile(p: char -> bool) returns (buffer: string)
      requires Valid()
      modifies this
      ensures Valid()
      ensures position == SpanEnd(source, old(position), p)
      ensures buffer == source[old(position)..position]
    {
      buffer := "";
      while Peek().Some? && p(Peek().value)
        invariant Valid() && old(position) <= position
        invariant buffer == source[old(position)..position]
        invariant SpanEnd(source, position, p) == SpanEnd(source, old(position), p)
        decreases |source| - position
      {
        var c := Pop();
        buffer := buffer + [c];
      }
    }

    method SkipWhitespace()
      requires Valid()
      modifies this
      ensures Valid()
      ensures position == SpanEnd(source, old(position), IsWhitespace)
    {
      var _ := TakeWhile(IsWhitespace);
    }

    method Error(currentBuffer: string) returns (r: Lexeme)
      requires Valid()
      modifies this
      ensures Valid()
      ensures Scanned(r, position) == ErrorAt(source, old(position), currentBuffer)
    {
      var rest := TakeWhile(Always);
      r := Lexeme(ERROR, currentBuffer + rest);
    }

    method ScanIdentifier() returns (r: Option<Lexeme>)
      requires Valid() && position < |source|
      modifies this
      ensures Valid()
      ensures Follows(r, position, old(position), WordAt(source, old(position)))
    {
      if !IsLetter(Peek().value) {
        return None;
      }
      var value := TakeWhile(IsWordChar);
      r := Some(Lexeme(WordKind(value), value));
    }

    method ScanPunctuation() returns (r: Option<Lexeme>)
      requires Valid() && position < |source|
      modifies this
      ensures Valid()
      ensures Follows(r, position, old(position), PunctuationAt(source, old(position)))
    {
      if [Peek().value] !in Punctuation {
        return None;
      }
      var next := Pop();
      var value: string;
      if Peek().Some? && [next, Peek().value] in Punctuation {
        var second := Pop();
        value := [next, second];
      } else {
        value := [next];
      }
      r := Some(Lexeme(Punctuation[value], value));
    }

    method ScanNumber() returns (r: Option<Lexeme>)
      requires Valid() && position < |source|
      modifies this
      ensures Valid()
      ensures Follows(r, position, old(position), NumberAt(source, old(position)))
    {
      ghost var start := position;
      if !IsDigit(Peek().value) {
        return None;
      }
      var value := TakeWhile(IsDigit);
      ghost var j := position;
      if Peek() == Some('.') {
        var dot := Pop();
        value := value + [dot];
        assert value == source[start..position];
        if !(Peek().Some? && IsDigit(Peek().value)) {
          assert NumberAt(source, start) == Some(ErrorAt(source, j + 1, value));
          var e := Error(value);
          return Some(e);
        }
        var fraction := TakeWhile(IsDigit);
        assert source[start..position] == source[start..j + 1] + source[j + 1..position];
        value := value + fraction;
        assert NumberAt(source, start) == Some(Scanned(Lexeme(Number, value), position));
      } else {
        assert NumberAt(source, start) == Some(Scanned(Lexeme(Number, value), position));
      }
      r := Some(Lexeme(Number, value));
    }

    method ScanStringWithOpening(opening: char) returns (r: Option<Lexeme>)
      requires Valid() && position < |source|
      modifies this
      ensures Valid()
      ensures Follows(r, position, old(position), QuotedAt(source, old(position), opening))
    {
      if Peek() != Some(opening) {
        return None;
      }
      var _ := Pop();
      var value := TakeWhile(NotQuote(opening));
      if Peek() != Some(opening) {
        var e := Error([opening] + value);
        return Some(e);
      }
      var _ := Pop();
      r := Some(Lexeme(String, value));
    }

    method ScanString() returns (r: Option<Lexeme>)
      requires Valid() && position < |source|
      modifies this
      ensures Valid()
      ensures Follows(r, position, old(position), StringAt(source, old(position)))
    {
      r := ScanStringWithOpening('\'');
      if r.None? {
        r := ScanStringWithOpening('"');
      }
    }

    method ConsumeNextToken() returns (t: Option<Token>)
      requires Valid() && position < |source|
      modifies this
      ensures Valid()
      ensures (t, position) == NextToken(source, old(position))
    {
      SkipWhitespace();
      if Peek().None? {
        return None;
      }
      var from := position;
      var r := ScanIdentifier();
      if r.None? {
        r := ScanPunctuation();
      }
      if r.None? {
        r := ScanNumber();
      }
      if r.None? {
        r := ScanString();
      }
      var lexeme: Lexeme;
      if r.Some? {
        lexeme := r.value;
      } else {
        lexeme := Error("");
      }
      t := Some(Token(lexeme.kind, lexeme.value, Some(Span(from, position))));
    }

    method Tokenize() returns (tokens: seq<Token>)
      requires Valid()
      modifies this
      ensures Valid()
      ensures tokens == TokensFrom(source, old(position))
    {
      tokens := [];
      while position < |source|
        invariant Valid() && old(position) <= position
        invariant tokens + TokensFrom(source, position) == TokensFrom(source, old(position))
        decreases |source| - position
      {
        ghost var before := position;
        var token := ConsumeNextToken();
        if token.Some? {
          tokens := tokens + [token.value];
        }
        assert TokensFrom(source, before)
            == (if token.Some? then [token.value] else []) + TokensFrom(source, position);
      }
    }
  }

  /** The default export: `new Lexer(source).tokenize()`. */
  method Lex(source: Option<string>) returns (tokens: seq<Token>)
    ensures tokens == TokensOf(source)
  {
    var lexer := new Lexer(source);
    tokens := lexer.Tokenize();
  }
}
