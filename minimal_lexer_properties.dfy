/**
 * What the minimal lexer promises about its output: only its five kinds of
 * token, each of the right shape; an ERROR token only at the end; and the
 * input is the token values in order, separated by whitespace runs.
 */
module MinimalLexerProperties {
  import opened Wrappers
  import opened Tokens
  import opened Predicates
  import FullLexer = Lexer
  import opened MinimalLexer

  /** A letter followed by letters and digits. */
  ghost predicate IsWord(w: string) {
    |w| > 0 && IsLetter(w[0]) && forall k :: 0 <= k < |w| ==> IsWordChar(w[k])
  }

  /** The shape of each kind of token the minimal lexer makes. */
  ghost predicate WellFormed(t: Token) {
    && t.span.None?
    && t.kind in Kinds
    && match t.kind
       case Var => t.value == "var"
       case Identifier => IsWord(t.value) && t.value != "var"
       case Semicolon => t.value == ";"
       case Equals => t.value == "="
       case _ =>
         |t.value| > 0 && !IsWhitespace(t.value[0]) && !IsLetter(t.value[0])
         && t.value[0] != ';' && t.value[0] != '='
  }

  ghost predicate AllWellFormed(ts: seq<Token>) {
    forall t :: t in ts ==> WellFormed(t)
  }

  /** Whitespace from `i` up to `w`, then the text of `t` at `w`; a word is
      not followed by a word character, and an ERROR runs to the end. */
  ghost predicate Placed(s: string, i: nat, w: nat, t: Token) {
    && i <= w && w + |t.value| <= |s|
    && (forall k :: i <= k < w ==> IsWhitespace(s[k]))
    && s[w..w + |t.value|] == t.value
    && ((t.kind == Var || t.kind == Identifier) ==>
          w + |t.value| == |s| || !IsWordChar(s[w + |t.value|]))
    && (t.kind == ERROR ==> w + |t.value| == |s|)
  }

  /** `s[i..]` is the values of `ts` in order, each preceded by whitespace,
      with only whitespace after the last one. */
  ghost predicate Covers(s: string, i: nat, ts: seq<Token>)
    requires i <= |s|
    decreases |ts|
  {
    if ts == [] then forall k :: i <= k < |s| ==> IsWhitespace(s[k])
    else exists w: nat {:trigger Placed(s, i, w, ts[0])} :: Placed(s, i, w, ts[0]) && Covers(s, w + |ts[0].value|, ts[1..])
  }

  /** The token scanned at a non-whitespace offset is well formed. */
  lemma ScanWellFormed(s: string, i: nat)
    requires i < |s| && !IsWhitespace(s[i])
    ensures WellFormed(ScanAt(s, i).token)
    ensures ScanAt(s, i).token.value == s[i..ScanAt(s, i).end]
    ensures ScanAt(s, i).token.kind == ERROR ==> ScanAt(s, i).end == |s|
    ensures ScanAt(s, i).token.kind in {Var, Identifier} ==>
      ScanAt(s, i).end == |s| || !IsWordChar(s[ScanAt(s, i).end])
  {
    var r := ScanAt(s, i);
    if IsLetter(s[i]) {
      var w := r.token.value;
      assert w[0] == s[i];
      assert forall k :: 0 <= k < |w| ==> w[k] == s[i + k];
    } else if [s[i]] in Punctuation {
      assert s[i..i + 1] == [s[i]];
    } else {
      assert r.token.value[0] == s[i];
      assert s[i] != ';' && s[i] != '=';
    }
  }

  /** `TokensFrom` unfolded once, when some non-whitespace is left. */
  lemma TokensFromStep(s: string, i: nat)
    requires i < |s| && FullLexer.SpanEnd(s, i, IsWhitespace) < |s|
    ensures var step := ScanAt(s, FullLexer.SpanEnd(s, i, IsWhitespace));
      TokensFrom(s, i) == [step.token] + TokensFrom(s, step.end)
  {
  }

  /** The tokens from offset `i` are well formed. */
  lemma {:induction false} TokensWellFormed(s: string, i: nat)
    requires i <= |s|
    ensures forall t :: t in TokensFrom(s, i) ==> WellFormed(t)
    decreases |s| - i
  {
    if i < |s| && FullLexer.SpanEnd(s, i, IsWhitespace) < |s| {
      var w := FullLexer.SpanEnd(s, i, IsWhitespace);
      var step := ScanAt(s, w);
      ScanWellFormed(s, w);
      TokensWellFormed(s, step.end);
      TokensFromStep(s, i);
    }
  }

  /** An ERROR token in `ts` is its last one. */
  ghost predicate ErrorLast(ts: seq<Token>) {
    forall k :: 0 <= k < |ts| && ts[k].kind == ERROR ==> k == |ts| - 1
  }

  /** Putting a token in front keeps `ErrorLast` when an ERROR token comes
      with nothing after it. */
  lemma ErrorLastCons(t: Token, rest: seq<Token>)
    requires ErrorLast(rest) && (t.kind == ERROR ==> rest == [])
    ensures ErrorLast([t] + rest)
  {
    var ts := [t] + rest;
    forall k | 0 <= k < |ts| && ts[k].kind == ERROR ensures k == |ts| - 1 {
      if k > 0 {
        assert ts[k] == rest[k - 1];
      }
    }
  }

  /** An ERROR token among the tokens from offset `i` is the last one. */
  lemma {:induction false} ErrorIsLast(s: string, i: nat)
    requires i <= |s|
    ensures ErrorLast(TokensFrom(s, i))
    decreases |s| - i
  {
    if i < |s| && FullLexer.SpanEnd(s, i, IsWhitespace) < |s| {
      var w := FullLexer.SpanEnd(s, i, IsWhitespace);
      var step := ScanAt(s, w);
      ErrorIsLast(s, step.end);
      TokensFromStep(s, i);
      if step.token.kind == ERROR {
        assert step.end == |s|;
        assert TokensFrom(s, step.end) == [];
      }
      ErrorLastCons(step.token, TokensFrom(s, step.end));
    }
  }

  /** Only whitespace from `i` on: the lexer produces nothing more. */
  lemma WhitespaceGivesNothing(s: string, i: nat)
    requires i <= |s| && forall k :: i <= k < |s| ==> IsWhitespace(s[k])
    ensures TokensFrom(s, i) == []
  {
    if i < |s| {
      FullLexer.SpanEndIs(s, i, |s|, IsWhitespace);
    }
  }

  /** A token placed after whitespace, followed by a cover of the rest. */
  lemma CoverCons(s: string, i: nat, w: nat, t: Token, rest: seq<Token>)
    requires Placed(s, i, w, t) && Covers(s, w + |t.value|, rest)
    ensures Covers(s, i, [t] + rest)
  {
    var ts := [t] + rest;
    assert ts[0] == t && ts[1..] == rest;
  }

  /** The token scanned after the whitespace at `i` is placed there and
      ends where the scanner stops. */
  lemma StepPlaced(s: string, i: nat)
    requires i < |s| && FullLexer.SpanEnd(s, i, IsWhitespace) < |s|
    ensures var w := FullLexer.SpanEnd(s, i, IsWhitespace);
      && Placed(s, i, w, ScanAt(s, w).token)
      && w + |ScanAt(s, w).token.value| == ScanAt(s, w).end
  {
    var w := FullLexer.SpanEnd(s, i, IsWhitespace);
    ScanWellFormed(s, w);
  }

  /** The tokens from offset `i` cover `s[i..]`. */
  lemma {:induction false} TokensCover(s: string, i: nat)
    requires i <= |s|
    ensures Covers(s, i, TokensFrom(s, i))
    decreases |s| - i
  {
    if i == |s| {
    } else if FullLexer.SpanEnd(s, i, IsWhitespace) == |s| {
      WhitespaceGivesNothing(s, i);
    } else {
      var w := FullLexer.SpanEnd(s, i, IsWhitespace);
      var step := ScanAt(s, w);
      StepPlaced(s, i);
      TokensCover(s, step.end);
      TokensFromStep(s, i);
      var ts := TokensFrom(s, i);
      assert ts == [step.token] + TokensFrom(s, step.end);
      CoverCons(s, i, w, step.token, TokensFrom(s, step.end));
      assert Covers(s, i, ts);
    }
  }

  /** A well-formed token placed at a non-whitespace offset is what the
      scanner produces there. */
  lemma PlacedIsScanned(s: string, i: nat, w: nat, t: Token)
    requires Placed(s, i, w, t) && WellFormed(t)
    ensures w < |s| && ScanAt(s, w) == Step(t, w + |t.value|)
  {
    if t.kind == Var || t.kind == Identifier {
      PlacedWordIsScanned(s, i, w, t);
    } else if t.kind == Semicolon || t.kind == Equals {
      assert t.value == [s[w]] by {
        assert s[w..w + 1] == t.value;
      }
    } else {
      assert s[w] == t.value[0];
      assert s[w..] == t.value;
    }
  }

  lemma PlacedWordIsScanned(s: string, i: nat, w: nat, t: Token)
    requires Placed(s, i, w, t) && WellFormed(t) && (t.kind == Var || t.kind == Identifier)
    ensures w < |s| && ScanAt(s, w) == Step(t, w + |t.value|)
  {
    var v := t.value;
    var end := w + |v|;
    assert IsWord(v);
    assert s[w] == v[0];
    forall k | w <= k < end ensures IsWordChar(s[k]) {
      assert s[k] == v[k - w];
    }
    FullLexer.SpanEndIs(s, w, end, IsWordChar);
  }

  /** The first token of a cover is placed after the whitespace at `i`, and
      the rest of the cover covers the text after it. */
  lemma CoverHead(s: string, i: nat, ts: seq<Token>) returns (w: nat, end: nat)
    requires i <= |s| && ts != [] && Covers(s, i, ts)
    ensures Placed(s, i, w, ts[0]) && end == w + |ts[0].value| <= |s|
    ensures Covers(s, end, ts[1..])
  {
    w :| Placed(s, i, w, ts[0]) && Covers(s, w + |ts[0].value|, ts[1..]);
    end := w + |ts[0].value|;
  }

  /** Two well-formed tokens placed after the whitespace at `i` are the same
      token. */
  lemma PlacedUnique(s: string, i: nat, w1: nat, t1: Token, w2: nat, t2: Token)
    requires Placed(s, i, w1, t1) && WellFormed(t1)
    requires Placed(s, i, w2, t2) && WellFormed(t2)
    ensures w1 == w2 && t1 == t2
  {
    PlacedIsScanned(s, i, w1, t1);
    PlacedIsScanned(s, i, w2, t2);
    assert s[w1] == t1.value[0] && s[w2] == t2.value[0];
  }

  /** A cover holding a well-formed token is not all whitespace. */
  lemma CoverNotBlank(s: string, i: nat, us: seq<Token>)
    requires i <= |s| && us != [] && Covers(s, i, us) && AllWellFormed(us)
    ensures !Covers(s, i, [])
  {
    var w, _ := CoverHead(s, i, us);
    assert us[0] in us;
    assert s[w] == us[0].value[0];
  }

  /** Only whitespace left: no well-formed token covers it. */
  lemma CoverOfWhitespace(s: string, i: nat, us: seq<Token>)
    requires i <= |s| && Covers(s, i, []) && Covers(s, i, us) && AllWellFormed(us)
    ensures us == []
  {
    if us != [] {
      CoverNotBlank(s, i, us);
    }
  }

  /** Two covers of `s[i..]` by well-formed tokens are the same list. */
  lemma {:induction false} CoverUnique(s: string, i: nat, ts: seq<Token>, us: seq<Token>)
    requires i <= |s| && Covers(s, i, ts) && Covers(s, i, us)
    requires AllWellFormed(ts) && AllWellFormed(us)
    ensures ts == us
    decreases |ts|
  {
    if ts == [] {
      CoverOfWhitespace(s, i, us);
    } else if us == [] {
      CoverOfWhitespace(s, i, ts);
    } else {
      var w1, end1 := CoverHead(s, i, ts);
      var w2, end2 := CoverHead(s, i, us);
      assert ts[0] in ts && us[0] in us;
      PlacedUnique(s, i, w1, ts[0], w2, us[0]);
      assert end1 == end2;
      assert Covers(s, end1, us[1..]);
      assert AllWellFormed(ts[1..]) by {
        assert forall t :: t in ts[1..] ==> t in ts;
      }
      assert AllWellFormed(us[1..]) by {
        assert forall t :: t in us[1..] ==> t in us;
      }
      CoverUnique(s, end1, ts[1..], us[1..]);
      assert ts == [ts[0]] + ts[1..] && us == [us[0]] + us[1..];
    }
  }

  /** Every token is one of the five kinds, in its shape; an ERROR token is
      always the last one; the input is the token values in order, each
      preceded by whitespace, with words maximal and an ERROR running to the
      end; and no other list of well-formed tokens covers the input so. */
  lemma TokensFaithful(source: Option<string>)
    ensures var s := if source.Some? then source.value else "";
      var ts := TokensOf(source);
      && AllWellFormed(ts)
      && (forall k :: 0 <= k < |ts| && ts[k].kind == ERROR ==> k == |ts| - 1)
      && Covers(s, 0, ts)
      && (forall us :: AllWellFormed(us) && Covers(s, 0, us) ==> us == ts)
  {
    var s := if source.Some? then source.value else "";
    var ts := TokensOf(source);
    assert ts == TokensFrom(s, 0);
    TokensWellFormed(s, 0);
    ErrorIsLast(s, 0);
    TokensCover(s, 0);
    forall us | AllWellFormed(us) && Covers(s, 0, us) ensures us == ts {
      CoverUnique(s, 0, us, ts);
    }
  }

  /** No tokens exactly when the input is empty, absent or all whitespace. */
  lemma NoTokensIffWhitespace(source: Option<string>)
    ensures var s := if source.Some? then source.value else "";
      TokensOf(source) == [] <==> forall k :: 0 <= k < |s| ==> IsWhitespace(s[k])
  {
    var s := if source.Some? then source.value else "";
    var ts := TokensOf(source);
    assert ts == TokensFrom(s, 0);
    TokensCover(s, 0);
    TokensWellFormed(s, 0);
    if ts != [] {
      CoverNotBlank(s, 0, ts);
    }
  }

  /** `==` is two Equals tokens: this lexer has no two-character punctuation. */
  lemma DoubleEquals()
    ensures TokensOf(Some("==")) == [Token(Equals, "=", None), Token(Equals, "=", None)]
  {
    var s := "==";
    FullLexer.SpanEndIs(s, 0, 0, IsWhitespace);
    FullLexer.SpanEndIs(s, 1, 1, IsWhitespace);
    assert NextToken(s, 0) == (Some(Token(Equals, "=", None)), 1);
    assert NextToken(s, 1) == (Some(Token(Equals, "=", None)), 2);
  }

  /** An unknown character turns the rest of the input into one ERROR token. */
  lemma UnknownCharacter()
    ensures TokensOf(Some("var £ = 10;"))
         == [Token(Var, "var", None), Token(ERROR, "£ = 10;", None)]
  {
    var s := "var £ = 10;";
    FullLexer.SpanEndIs(s, 0, 0, IsWhitespace);
    FullLexer.SpanEndIs(s, 0, 3, IsWordChar);
    assert s[0..3] == "var";
    assert NextToken(s, 0) == (Some(Token(Var, "var", None)), 3);
    FullLexer.SpanEndIs(s, 3, 4, IsWhitespace);
    assert s[4] == '£' && s[4..] == "£ = 10;";
    assert NextToken(s, 3) == (Some(Token(ERROR, "£ = 10;", None)), 11);
  }
}
