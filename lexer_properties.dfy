/**
 * What the full lexer promises about its output, proved of the functions in
 * module Lexer (and therefore of `Lexer.Lex`, which returns exactly them).
 */
module LexerProperties {
  import opened Wrappers
  import opened Tokens
  import opened Predicates
  import opened Lexer

  ghost predicate AllWhitespace(s: string, i: nat, j: nat)
    requires i <= j <= |s|
  {
    forall k :: i <= k < j ==> IsWhitespace(s[k])
  }

  ghost predicate AllDigits(w: string) {
    forall k :: 0 <= k < |w| ==> IsDigit(w[k])
  }

  /** A letter followed by letters and digits. */
  ghost predicate IsWord(w: string) {
    |w| > 0 && IsLetter(w[0]) && forall k :: 0 <= k < |w| ==> IsWordChar(w[k])
  }

  /** One or more digits, optionally followed by `.` and one or more digits. */
  ghost predicate IsDecimal(w: string) {
    (|w| > 0 && AllDigits(w))
    || exists d :: 0 < d < |w| - 1 && w[d] == '.' && AllDigits(w[..d]) && AllDigits(w[d + 1..])
  }

  predicate IsQuote(c: char) {
    c == '\'' || c == '"'
  }

  /** A maximal word; its kind comes from the keyword table. */
  ghost predicate WordToken(s: string, from: nat, to: nat, t: Token)
    requires from < to <= |s|
  {
    && t.value == s[from..to] && IsWord(t.value) && t.kind == WordKind(t.value)
    && (to == |s| || !IsWordChar(s[to]))
  }

  /** A maximal decimal; an integer part is never followed by a dot. */
  ghost predicate NumberToken(s: string, from: nat, to: nat, t: Token)
    requires from < to <= |s|
  {
    && t.value == s[from..to] && IsDecimal(t.value)
    && (to == |s| || !IsDigit(s[to]))
    && ('.' !in t.value ==> to == |s| || s[to] != '.')
  }

  /** The text between a quote and the next occurrence of the same quote. */
  ghost predicate StringToken(s: string, from: nat, to: nat, t: Token)
    requires from < to <= |s|
  {
    && to - from >= 2 && IsQuote(s[from]) && s[to - 1] == s[from]
    && t.value == s[from + 1..to - 1] && s[from] !in t.value
  }

  /** Digits from `from` up to a dot at `j` that no digit follows. */
  ghost predicate DanglingDot(s: string, from: nat, j: nat) {
    && from < j < |s| && s[j] == '.' && AllDigits(s[from..j])
    && !(j + 1 < |s| && IsDigit(s[j + 1]))
  }

  /** Everything from the offending character to the end of the input: a
      character no scanner accepts, an unterminated quote, or digits ending
      in a dot without fraction digits. */
  ghost predicate ErrorToken(s: string, from: nat, to: nat, t: Token)
    requires from < to <= |s|
  {
    && to == |s| && t.value == s[from..]
    && !IsLetter(s[from]) && [s[from]] !in Punctuation
    && (IsQuote(s[from]) ==> s[from] !in s[from + 1..])
    && (IsDigit(s[from]) ==> exists j: nat :: DanglingDot(s, from, j))
  }

  /** Greedy punctuation: a single character only when no pair applies. */
  ghost predicate PunctuationToken(s: string, from: nat, to: nat, t: Token)
    requires from < to <= |s|
  {
    && t.value == s[from..to] && t.value in Punctuation && Punctuation[t.value] == t.kind
    && |t.value| <= 2
    && (|t.value| == 1 ==> !(to < |s| && [s[from], s[to]] in Punctuation))
  }

  /** The token `t` is what the lexer makes of the text `s[from..to]` it spans. */
  ghost predicate Describes(s: string, t: Token) {
    && t.span.Some?
    && var from, to := t.span.value.from, t.span.value.to;
    && from < to <= |s|
    && match t.kind
       case Var | If | Else | True | False | Function | Identifier => WordToken(s, from, to, t)
       case Number => NumberToken(s, from, to, t)
       case String => StringToken(s, from, to, t)
       case ERROR => ErrorToken(s, from, to, t)
       case While | EOF => false
       case _ => PunctuationToken(s, from, to, t)
  }

  /** `ts` cover `s[i..]`: each token preceded by a maximal (possibly empty)
      run of whitespace, and only whitespace after the last one. */
  ghost predicate Tiles(s: string, i: nat, ts: seq<Token>)
    requires i <= |s|
    decreases |ts|
  {
    if ts == [] then AllWhitespace(s, i, |s|)
    else
      && Describes(s, ts[0])
      && var from, to := ts[0].span.value.from, ts[0].span.value.to;
      && i <= from && AllWhitespace(s, i, from) && !IsWhitespace(s[from])
      && Tiles(s, to, ts[1..])
  }

  lemma PunctuationValues(key: string)
    requires key in Punctuation
    ensures GroupOf(Punctuation[key]) == PunctuationGroup && 1 <= |key| <= 2
  {
  }

  /** The token a scanner result becomes once `consumeNextToken` attaches offsets. */
  function Located(sc: Scanned, from: nat): Token {
    Token(sc.lexeme.kind, sc.lexeme.value, Some(Span(from, sc.end)))
  }

  lemma WordDescribed(s: string, i: nat)
    requires i < |s| && IsLetter(s[i])
    ensures WordAt(s, i).Some? && Describes(s, Located(WordAt(s, i).value, i))
  {
    var j := SpanEnd(s, i, IsWordChar);
    var w := s[i..j];
    assert w[0] == s[i];
    assert forall k :: 0 <= k < |w| ==> w[k] == s[i + k];
  }

  /** A token of a punctuation kind is described by the punctuation rule. */
  lemma PunctuationRule(s: string, t: Token, from: nat, to: nat)
    requires GroupOf(t.kind) == PunctuationGroup && t.span == Some(Span(from, to))
    requires from < to <= |s| && PunctuationToken(s, from, to, t)
    ensures Describes(s, t)
  {
  }

  lemma PunctuationDescribed(s: string, i: nat)
    requires i < |s| && [s[i]] in Punctuation
    ensures PunctuationAt(s, i).Some? && Describes(s, Located(PunctuationAt(s, i).value, i))
  {
    var t := Located(PunctuationAt(s, i).value, i);
    if i + 1 < |s| && [s[i], s[i + 1]] in Punctuation {
      assert s[i..i + 2] == [s[i], s[i + 1]];
      PunctuationValues([s[i], s[i + 1]]);
      PunctuationRule(s, t, i, i + 2);
    } else {
      assert s[i..i + 1] == [s[i]];
      PunctuationValues([s[i]]);
      PunctuationRule(s, t, i, i + 1);
    }
  }

  lemma DigitIsNoPunctuation(c: char)
    requires IsDigit(c)
    ensures [c] !in Punctuation && !IsLetter(c) && !IsQuote(c) && c != '.'
  {
  }

  lemma DigitsSlice(s: string, i: nat, j: nat)
    requires i <= j <= |s|
    requires forall k :: i <= k < j ==> IsDigit(s[k])
    ensures AllDigits(s[i..j]) && '.' !in s[i..j]
  {
    var w := s[i..j];
    forall k | 0 <= k < |w| ensures IsDigit(w[k]) && w[k] != '.' {
      assert w[k] == s[i + k];
    }
  }

  lemma FractionDescribed(s: string, i: nat, j: nat)
    requires i < j && j + 1 < |s| && s[j] == '.' && IsDigit(s[j + 1])
    requires AllDigits(s[i..j]) && IsDigit(s[i]) && [s[i]] !in Punctuation && !IsLetter(s[i])
    ensures var k := SpanEnd(s, j + 1, IsDigit);
      NumberToken(s, i, k, Token(Number, s[i..k], Some(Span(i, k))))
  {
    var k := SpanEnd(s, j + 1, IsDigit);
    var w := s[i..k];
    assert w[..j - i] == s[i..j];
    assert w[j - i + 1..] == s[j + 1..k];
    DigitsSlice(s, j + 1, k);
    assert w[j - i] == '.';
  }

  lemma IntegerDescribed(s: string, i: nat, j: nat)
    requires i < j <= |s| && AllDigits(s[i..j]) && '.' !in s[i..j]
    requires j == |s| || (!IsDigit(s[j]) && s[j] != '.')
    ensures NumberToken(s, i, j, Token(Number, s[i..j], Some(Span(i, j))))
  {
  }

  /** At a digit, the number scanner gives an ERROR exactly when the digits
      end in a dot that no digit follows, and a Number otherwise. */
  lemma NumberDescribed(s: string, i: nat)
    requires i < |s| && IsDigit(s[i])
    ensures NumberAt(s, i).Some? && Describes(s, Located(NumberAt(s, i).value, i))
    ensures var j := SpanEnd(s, i, IsDigit);
      NumberAt(s, i).value.lexeme.kind == (if DanglingDot(s, i, j) then ERROR else Number)
  {
    var j := SpanEnd(s, i, IsDigit);
    DigitsSlice(s, i, j);
    if j < |s| && s[j] == '.' {
      if j + 1 < |s| && IsDigit(s[j + 1]) {
        FractionNumberDescribed(s, i, j);
      } else {
        DanglingDotNumberDescribed(s, i, j);
      }
    } else {
      IntegerNumberDescribed(s, i, j);
    }
  }

  /** Digits, a dot and digits: one Number token spanning all of them. */
  lemma FractionNumberDescribed(s: string, i: nat, j: nat)
    requires i < |s| && IsDigit(s[i]) && j == SpanEnd(s, i, IsDigit)
    requires j + 1 < |s| && s[j] == '.' && IsDigit(s[j + 1])
    ensures NumberAt(s, i).Some? && Describes(s, Located(NumberAt(s, i).value, i))
    ensures NumberAt(s, i).value == Scanned(Lexeme(Number, s[i..SpanEnd(s, j + 1, IsDigit)]), SpanEnd(s, j + 1, IsDigit))
  {
    DigitIsNoPunctuation(s[i]);
    DigitsSlice(s, i, j);
    FractionDescribed(s, i, j);
    var k := SpanEnd(s, j + 1, IsDigit);
    var r := NumberAt(s, i).value;
    assert r == Scanned(Lexeme(Number, s[i..k]), k);
    NumberIsDescribed(s, Located(r, i));
  }

  /** Digits and a dot that no digit follows: an ERROR token to the end. */
  lemma DanglingDotNumberDescribed(s: string, i: nat, j: nat)
    requires i < |s| && IsDigit(s[i]) && j == SpanEnd(s, i, IsDigit)
    requires j < |s| && s[j] == '.' && !(j + 1 < |s| && IsDigit(s[j + 1]))
    ensures NumberAt(s, i).Some? && Describes(s, Located(NumberAt(s, i).value, i))
  {
    DigitsSlice(s, i, j);
    DanglingDotDescribed(s, i, j);
    var r := NumberAt(s, i).value;
    assert r == ErrorAt(s, j + 1, s[i..j + 1]);
    ErrorIsDescribed(s, Located(r, i));
  }

  /** Digits that no dot follows: one Number token spanning the digits. */
  lemma IntegerNumberDescribed(s: string, i: nat, j: nat)
    requires i < |s| && IsDigit(s[i]) && j == SpanEnd(s, i, IsDigit)
    requires !(j < |s| && s[j] == '.')
    ensures NumberAt(s, i).Some? && Describes(s, Located(NumberAt(s, i).value, i))
    ensures NumberAt(s, i).value == Scanned(Lexeme(Number, s[i..j]), j)
  {
    DigitsSlice(s, i, j);
    IntegerDescribed(s, i, j);
    var r := NumberAt(s, i).value;
    assert r == Scanned(Lexeme(Number, s[i..j]), j);
    NumberIsDescribed(s, Located(r, i));
  }

  lemma NumberIsDescribed(s: string, t: Token)
    requires t.kind == Number && t.span.Some? && t.span.value.from < t.span.value.to <= |s|
    requires NumberToken(s, t.span.value.from, t.span.value.to, t)
    ensures Describes(s, t)
  {
  }

  lemma ErrorIsDescribed(s: string, t: Token)
    requires t.kind == ERROR && t.span.Some? && t.span.value.from < t.span.value.to <= |s|
    requires ErrorToken(s, t.span.value.from, t.span.value.to, t)
    ensures Describes(s, t)
  {
  }

  lemma DanglingDotDescribed(s: string, i: nat, j: nat)
    requires i < j < |s| && s[j] == '.' && IsDigit(s[i]) && AllDigits(s[i..j])
    requires !(j + 1 < |s| && IsDigit(s[j + 1]))
    ensures var t := Located(ErrorAt(s, j + 1, s[i..j + 1]), i);
      ErrorToken(s, i, |s|, t)
  {
    DigitIsNoPunctuation(s[i]);
    assert DanglingDot(s, i, j);
    assert s[i..j + 1] + s[j + 1..] == s[i..];
  }

  lemma QuoteIsNoPunctuation(q: char)
    requires IsQuote(q)
    ensures [q] !in Punctuation && !IsLetter(q) && !IsDigit(q)
  {
  }

  lemma StringDescribed(s: string, i: nat, q: char)
    requires i < |s| && s[i] == q && IsQuote(q)
    ensures QuotedAt(s, i, q).Some? && Describes(s, Located(QuotedAt(s, i, q).value, i))
  {
    QuoteIsNoPunctuation(q);
    var j := SpanEnd(s, i + 1, NotQuote(q));
    var inner := s[i + 1..j];
    assert q !in inner by {
      forall k | 0 <= k < |inner| ensures inner[k] != q {
        assert inner[k] == s[i + 1 + k];
        assert NotQuote(q)(s[i + 1 + k]);
      }
    }
    if j == |s| {
      assert [q] + inner + s[j..] == s[i..];
      assert s[i + 1..] == inner;
    } else {
      assert !NotQuote(q)(s[j]);
    }
  }

  /** Whatever the first character, the scanners' combined result, with its
      offsets attached, is described by `Describes`. */
  lemma ScanDescribed(s: string, i: nat)
    requires i < |s|
    ensures Describes(s, Located(ScanAt(s, i), i))
    ensures forall t: Token :: t.span.Some? && t.span.value.from == i && Describes(s, t) ==>
      t == Located(ScanAt(s, i), i)
  {
    forall t: Token | t.span.Some? && t.span.value.from == i && Describes(s, t)
      ensures t == Located(ScanAt(s, i), i)
    {
      DescribedIsScanned(s, t);
    }
    if IsLetter(s[i]) {
      WordDescribed(s, i);
    } else if [s[i]] in Punctuation {
      PunctuationDescribed(s, i);
    } else if IsDigit(s[i]) {
      NumberDescribed(s, i);
    } else if IsQuote(s[i]) {
      if s[i] == '\'' {
        StringDescribed(s, i, '\'');
      } else {
        StringDescribed(s, i, '"');
      }
    } else {
      assert ScanAt(s, i) == ErrorAt(s, i, "");
      assert "" + s[i..] == s[i..];
    }
  }

  /** No punctuation key starts with a letter, a digit or a quote, and the
      first character of every two-character key is a key itself. */
  lemma PunctuationKeys(key: string)
    requires key in Punctuation
    ensures |key| > 0 && [key[0]] in Punctuation
    ensures !IsLetter(key[0]) && !IsDigit(key[0]) && !IsQuote(key[0])
  {
  }

  /** A word token is the identifier scanner's result. */
  lemma WordIsScanned(s: string, t: Token, from: nat, to: nat)
    requires from < to <= |s| && t.span == Some(Span(from, to))
    requires WordToken(s, from, to, t)
    ensures t == Located(ScanAt(s, from), from)
  {
    assert s[from] == t.value[0];
    forall k | from <= k < to ensures IsWordChar(s[k]) {
      assert s[k] == t.value[k - from];
    }
    SpanEndIs(s, from, to, IsWordChar);
  }

  /** A punctuation token is the punctuation scanner's result. */
  lemma PunctuationIsScanned(s: string, t: Token, from: nat, to: nat)
    requires from < to <= |s| && t.span == Some(Span(from, to))
    requires PunctuationToken(s, from, to, t)
    ensures t == Located(ScanAt(s, from), from)
  {
    PunctuationKeys(t.value);
    assert t.value[0] == s[from];
    if |t.value| == 2 {
      assert t.value == [s[from], s[from + 1]];
    } else {
      assert t.value == [s[from]];
    }
  }

  /** A number token is the number scanner's result. */
  lemma NumberIsScanned(s: string, t: Token, from: nat, to: nat)
    requires from < to <= |s| && t.span == Some(Span(from, to)) && t.kind == Number
    requires NumberToken(s, from, to, t)
    ensures t == Located(ScanAt(s, from), from)
  {
    var v := t.value;
    if d :| 0 < d < |v| - 1 && v[d] == '.' && AllDigits(v[..d]) && AllDigits(v[d + 1..]) {
      FractionIsScanned(s, t, from, to, d);
    } else {
      assert AllDigits(v);
      IntegerIsScanned(s, t, from, to);
    }
  }

  lemma FractionIsScanned(s: string, t: Token, from: nat, to: nat, d: nat)
    requires from < to <= |s| && t.span == Some(Span(from, to)) && t.kind == Number
    requires t.value == s[from..to] && (to == |s| || !IsDigit(s[to]))
    requires 0 < d < |t.value| - 1 && t.value[d] == '.'
    requires AllDigits(t.value[..d]) && AllDigits(t.value[d + 1..])
    ensures t == Located(ScanAt(s, from), from)
  {
    var v := t.value;
    var j := from + d;
    assert s[from] == v[..d][0];
    DigitIsNoPunctuation(s[from]);
    forall k | from <= k < j ensures IsDigit(s[k]) {
      assert s[k] == v[..d][k - from];
    }
    assert s[j] == v[d];
    SpanEndIs(s, from, j, IsDigit);
    forall k | j + 1 <= k < to ensures IsDigit(s[k]) {
      assert s[k] == v[d + 1..][k - j - 1];
    }
    SpanEndIs(s, j + 1, to, IsDigit);
    assert NumberAt(s, from).value == Scanned(Lexeme(Number, s[from..to]), to);
  }

  lemma IntegerIsScanned(s: string, t: Token, from: nat, to: nat)
    requires from < to <= |s| && t.span == Some(Span(from, to)) && t.kind == Number
    requires t.value == s[from..to] && AllDigits(t.value)
    requires to == |s| || (!IsDigit(s[to]) && s[to] != '.')
    ensures t == Located(ScanAt(s, from), from)
  {
    var v := t.value;
    assert s[from] == v[0];
    DigitIsNoPunctuation(s[from]);
    forall k | from <= k < to ensures IsDigit(s[k]) {
      assert s[k] == v[k - from];
    }
    SpanEndIs(s, from, to, IsDigit);
  }

  /** A string token is the string scanner's result. */
  lemma StringIsScanned(s: string, t: Token, from: nat, to: nat)
    requires from < to <= |s| && t.span == Some(Span(from, to)) && t.kind == String
    requires StringToken(s, from, to, t)
    ensures t == Located(ScanAt(s, from), from)
  {
    var q := s[from];
    QuoteIsNoPunctuation(q);
    forall k | from + 1 <= k < to - 1 ensures NotQuote(q)(s[k]) {
      assert s[k] == t.value[k - from - 1];
    }
    SpanEndIs(s, from + 1, to - 1, NotQuote(q));
    assert QuotedAt(s, from, q) == Some(Scanned(Lexeme(String, t.value), to));
  }

  /** An ERROR token is what the scanners give at its first character. */
  lemma ErrorIsScanned(s: string, t: Token, from: nat, to: nat)
    requires from < to <= |s| && t.span == Some(Span(from, to)) && t.kind == ERROR
    requires ErrorToken(s, from, to, t)
    ensures t == Located(ScanAt(s, from), from)
  {
    if IsDigit(s[from]) {
      var j: nat :| DanglingDot(s, from, j);
      DanglingDotIsScanned(s, from, j);
    } else if IsQuote(s[from]) {
      UnterminatedIsScanned(s, from);
    } else {
      assert "" + s[from..] == s[from..];
    }
  }

  lemma DanglingDotIsScanned(s: string, from: nat, j: nat)
    requires DanglingDot(s, from, j)
    ensures ScanAt(s, from) == Scanned(Lexeme(ERROR, s[from..]), |s|)
  {
    assert s[from] == s[from..j][0];
    DigitIsNoPunctuation(s[from]);
    forall k | from <= k < j ensures IsDigit(s[k]) {
      assert s[k] == s[from..j][k - from];
    }
    SpanEndIs(s, from, j, IsDigit);
    assert s[from..j + 1] + s[j + 1..] == s[from..];
    assert NumberAt(s, from) == Some(ErrorAt(s, j + 1, s[from..j + 1]));
  }

  lemma UnterminatedIsScanned(s: string, from: nat)
    requires from < |s| && IsQuote(s[from]) && s[from] !in s[from + 1..]
    ensures ScanAt(s, from) == Scanned(Lexeme(ERROR, s[from..]), |s|)
  {
    var c := s[from];
    QuoteIsNoPunctuation(c);
    forall k | from + 1 <= k < |s| ensures NotQuote(c)(s[k]) {
      assert s[k] == s[from + 1..][k - from - 1];
    }
    SpanEndIs(s, from + 1, |s|, NotQuote(c));
    assert [c] + s[from + 1..|s|] == s[from..];
    assert QuotedAt(s, from, c) == Some(ErrorAt(s, |s|, [c] + s[from + 1..|s|]));
  }

  /** `Describes` admits one token per starting offset: the one the scanners
      produce there. */
  lemma DescribedIsScanned(s: string, t: Token)
    requires Describes(s, t)
    ensures t == Located(ScanAt(s, t.span.value.from), t.span.value.from)
  {
    var from, to := t.span.value.from, t.span.value.to;
    match t.kind
    case Var | If | Else | True | False | Function | Identifier =>
      WordIsScanned(s, t, from, to);
    case Number =>
      NumberIsScanned(s, t, from, to);
    case String =>
      StringIsScanned(s, t, from, to);
    case ERROR =>
      ErrorIsScanned(s, t, from, to);
    case _ =>
      PunctuationIsScanned(s, t, from, to);
  }

  /** Only whitespace left: the lexer produces nothing more. */
  lemma WhitespaceGivesNothing(s: string, i: nat)
    requires i <= |s| && AllWhitespace(s, i, |s|)
    ensures TokensFrom(s, i) == []
  {
    if i < |s| {
      SpanEndIs(s, i, |s|, IsWhitespace);
    }
  }

  /** A tiling of `s[i..]` is the lexer's output from `i`: there is no other. */
  lemma {:induction false} TilesUnique(s: string, i: nat, ts: seq<Token>)
    requires i <= |s| && Tiles(s, i, ts)
    ensures ts == TokensFrom(s, i)
    decreases |ts|
  {
    if ts == [] {
      WhitespaceGivesNothing(s, i);
    } else {
      var from, to := ts[0].span.value.from, ts[0].span.value.to;
      SpanEndIs(s, i, from, IsWhitespace);
      DescribedIsScanned(s, ts[0]);
      TilesUnique(s, to, ts[1..]);
      assert NextToken(s, i) == (Some(ts[0]), to);
      assert ts == [ts[0]] + ts[1..];
    }
  }

  /** The whole output of the lexer tiles its input, and it is the only
      token list that does. */
  lemma {:induction false} TokensTile(s: string, i: nat)
    requires i <= |s|
    ensures Tiles(s, i, TokensFrom(s, i))
    ensures forall ts :: Tiles(s, i, ts) ==> ts == TokensFrom(s, i)
    decreases |s| - i
  {
    forall ts | Tiles(s, i, ts) ensures ts == TokensFrom(s, i) {
      TilesUnique(s, i, ts);
    }
    if i < |s| {
      var (t, j) := NextToken(s, i);
      var w := SpanEnd(s, i, IsWhitespace);
      if w < |s| {
        ScanDescribed(s, w);
        TokensTile(s, j);
        var ts := TokensFrom(s, i);
        assert ts == [t.value] + TokensFrom(s, j);
        assert ts[1..] == TokensFrom(s, j);
      }
    }
  }

  /** Nothing but whitespace can follow the end of the input. */
  lemma TilesAtEnd(s: string, ts: seq<Token>)
    requires Tiles(s, |s|, ts)
    ensures ts == []
  {
  }

  /** In a tiling of `s[i..]`, every token has a span starting at or after `i`. */
  lemma {:induction false} TilesStart(s: string, i: nat, ts: seq<Token>)
    requires i <= |s| && Tiles(s, i, ts)
    ensures forall k :: 0 <= k < |ts| ==> ts[k].span.Some? && i <= ts[k].span.value.from
    decreases |ts|
  {
    if ts != [] {
      TilesStart(s, ts[0].span.value.to, ts[1..]);
      forall k | 0 < k < |ts| ensures ts[k].span.Some? && i <= ts[k].span.value.from {
        assert ts[k] == ts[1..][k - 1];
      }
    }
  }

  /** In a tiling, each token ends before the next one starts. */
  lemma {:induction false} TilesInOrder(s: string, i: nat, ts: seq<Token>)
    requires i <= |s| && Tiles(s, i, ts)
    ensures forall k :: 0 <= k < |ts| ==> ts[k].span.Some?
    ensures forall k :: 0 <= k < |ts| - 1 ==> ts[k].span.value.to <= ts[k + 1].span.value.from
    decreases |ts|
  {
    TilesStart(s, i, ts);
    if ts != [] {
      var to := ts[0].span.value.to;
      TilesInOrder(s, to, ts[1..]);
      TilesStart(s, to, ts[1..]);
      forall k | 0 <= k < |ts| - 1 ensures ts[k].span.value.to <= ts[k + 1].span.value.from {
        if k > 0 {
          assert ts[k] == ts[1..][k - 1];
        }
        assert ts[k + 1] == ts[1..][k];
      }
    }
  }

  /** An ERROR token runs to the end of the input, so it can only be the
      last token of a tiling. */
  lemma {:induction false} TilesErrorLast(s: string, i: nat, ts: seq<Token>)
    requires i <= |s| && Tiles(s, i, ts)
    ensures forall k :: 0 <= k < |ts| && ts[k].kind == ERROR ==> k == |ts| - 1
    decreases |ts|
  {
    if ts != [] {
      TilesErrorLast(s, ts[0].span.value.to, ts[1..]);
      if ts[0].kind == ERROR {
        TilesAtEnd(s, ts[1..]);
      }
      forall k | 0 <= k < |ts| && ts[k].kind == ERROR ensures k == |ts| - 1 {
        if k > 0 {
          assert ts[k] == ts[1..][k - 1];
        }
      }
    }
  }

  /** In a tiling, spans are in order and do not overlap, and an ERROR token
      can only be the last token. */
  lemma TilesOrdered(s: string, i: nat, ts: seq<Token>)
    requires i <= |s| && Tiles(s, i, ts)
    ensures forall k :: 0 <= k < |ts| ==> ts[k].span.Some? && i <= ts[k].span.value.from
    ensures forall k :: 0 <= k < |ts| - 1 ==> ts[k].span.value.to <= ts[k + 1].span.value.from
    ensures forall k :: 0 <= k < |ts| && ts[k].kind == ERROR ==> k == |ts| - 1
  {
    TilesStart(s, i, ts);
    TilesInOrder(s, i, ts);
    TilesErrorLast(s, i, ts);
  }

  /** The lexer produces no tokens exactly when its input is empty, absent, or
      made only of spaces, tabs, carriage returns and line feeds. */
  lemma NoTokensIffWhitespace(source: Option<string>)
    ensures var s := if source.Some? then source.value else "";
      TokensOf(source) == [] <==> AllWhitespace(s, 0, |s|)
  {
    var s := if source.Some? then source.value else "";
    TokensTile(s, 0);
    var ts := TokensFrom(s, 0);
    if ts != [] {
      assert !IsWhitespace(s[ts[0].span.value.from]);
    }
  }

  /** Every token, with its offsets, describes the text it was made from, an
      ERROR token is always the last one, and no other token list tiles the
      source. */
  lemma TokensDescribeSource(source: Option<string>)
    ensures var s := if source.Some? then source.value else "";
      var ts := TokensOf(source);
      && (forall k :: 0 <= k < |ts| ==> Describes(s, ts[k]))
      && (forall k :: 0 <= k < |ts| && ts[k].kind == ERROR ==> k == |ts| - 1)
      && (forall us :: Tiles(s, 0, us) ==> us == ts)
  {
    var s := if source.Some? then source.value else "";
    TokensTile(s, 0);
    TilesOrdered(s, 0, TokensFrom(s, 0));
    TilesDescribe(s, 0, TokensFrom(s, 0));
  }

  lemma {:induction false} TilesDescribe(s: string, i: nat, ts: seq<Token>)
    requires i <= |s| && Tiles(s, i, ts)
    ensures forall k :: 0 <= k < |ts| ==> Describes(s, ts[k])
    decreases |ts|
  {
    if ts != [] {
      TilesDescribe(s, ts[0].span.value.to, ts[1..]);
      forall k | 0 < k < |ts| ensures Describes(s, ts[k]) {
        assert ts[k] == ts[1..][k - 1];
      }
    }
  }
}
