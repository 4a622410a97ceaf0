/**
 * Concrete inputs applied to the full lexer's specification functions.
 */
module LexerExamples {
  import opened Wrappers
  import opened Tokens
  import opened Predicates
  import opened Lexer

  /** A number with a dot and no fraction digits is an ERROR token. */
  lemma DanglingDotIsError()
    ensures TokensOf(Some("13.")) == [Token(ERROR, "13.", Some(Span(0, 3)))]
  {
    var s := "13.";
    SpanEndIs(s, 0, 0, IsWhitespace);
    SpanEndIs(s, 0, 2, IsDigit);
    assert s[0..3] == s && s[3..] == [] && s[2] == '.';
    assert ErrorAt(s, 3, s[0..3]) == Scanned(Lexeme(ERROR, "13."), 3);
    assert NumberAt(s, 0) == Some(Scanned(Lexeme(ERROR, "13."), 3));
    assert NextToken(s, 0) == (Some(Token(ERROR, "13.", Some(Span(0, 3)))), 3);
  }

  /** The decimal after the minus sign of `-13.37` is one Number token. */
  lemma DecimalAfterMinus()
    ensures NextToken("-13.37", 1) == (Some(Token(Number, "13.37", Some(Span(1, 6)))), 6)
  {
    var s := "-13.37";
    SpanEndIs(s, 1, 1, IsWhitespace);
    SpanEndIs(s, 1, 3, IsDigit);
    SpanEndIs(s, 4, 6, IsDigit);
    assert s[1..6] == "13.37";
    assert WordAt(s, 1) == None && PunctuationAt(s, 1) == None;
    assert NumberAt(s, 1) == Some(Scanned(Lexeme(Number, "13.37"), 6));
    assert ScanAt(s, 1) == Scanned(Lexeme(Number, "13.37"), 6);
  }

  /** A leading minus is punctuation; the decimal after it is one Number. */
  lemma NegativeDecimal()
    ensures TokensOf(Some("-13.37"))
         == [Token(Minus, "-", Some(Span(0, 1))), Token(Number, "13.37", Some(Span(1, 6)))]
  {
    var s := "-13.37";
    SpanEndIs(s, 0, 0, IsWhitespace);
    assert PunctuationAt(s, 0) == Some(Scanned(Lexeme(Minus, "-"), 1));
    assert NextToken(s, 0) == (Some(Token(Minus, "-", Some(Span(0, 1)))), 1);
    DecimalAfterMinus();
  }

  /** The string scanner stops at the closing quote. */
  lemma ClosedQuote()
    ensures QuotedAt("'hi'", 0, '\'') == Some(Scanned(Lexeme(String, "hi"), 4))
  {
    var s := "'hi'";
    SpanEndIs(s, 1, 3, NotQuote('\''));
    assert s[1..3] == "hi";
  }

  /** A closed string's value leaves the quotes out; its span keeps them. */
  lemma QuotedString()
    ensures TokensOf(Some("'hi'")) == [Token(String, "hi", Some(Span(0, 4)))]
  {
    var s := "'hi'";
    SpanEndIs(s, 0, 0, IsWhitespace);
    ClosedQuote();
    assert NextToken(s, 0) == (Some(Token(String, "hi", Some(Span(0, 4)))), 4);
  }

  /** After `var` and a space, the unknown `£` starts an ERROR token that
      runs to the end. */
  lemma ErrorToEnd()
    ensures NextToken("var £ = 10;", 3) == (Some(Token(ERROR, "£ = 10;", Some(Span(4, 11)))), 11)
  {
    var s := "var £ = 10;";
    SpanEndIs(s, 3, 4, IsWhitespace);
    assert s[4] == '£' && s[4..] == "£ = 10;";
    assert "£" !in Punctuation;
    assert ScanAt(s, 4) == Scanned(Lexeme(ERROR, "£ = 10;"), 11);
  }

  /** A character no scanner accepts turns the rest of the input into one ERROR. */
  lemma UnknownCharacter()
    ensures TokensOf(Some("var £ = 10;"))
         == [Token(Var, "var", Some(Span(0, 3))), Token(ERROR, "£ = 10;", Some(Span(4, 11)))]
  {
    var s := "var £ = 10;";
    SpanEndIs(s, 0, 0, IsWhitespace);
    SpanEndIs(s, 0, 3, IsWordChar);
    assert s[0..3] == "var";
    assert NextToken(s, 0) == (Some(Token(Var, "var", Some(Span(0, 3)))), 3);
    ErrorToEnd();
  }
}
