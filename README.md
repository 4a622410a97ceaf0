# A verified model of the js-compiler expression pipeline

This project models the core of `src/js/compiler/`, a toy compiler written in
JavaScript, and proves properties of it in Dafny 4.11. The core has three
stages:

- **Lexers.** `lexer/index.js` is the full lexer. It handles keywords, greedy
  one- and two-character punctuation, decimal numbers, quoted strings,
  in-band `ERROR` tokens and `from`/`to` offsets. `lexer.js` is the earlier
  minimal lexer: it knows `var`, identifiers, `;` and `=`.
- **Parser.** `parser/index.js` is a Pratt (top-down operator precedence)
  parser driven by a registry of symbol records. It registers numbers,
  strings, prefix `+`/`-` at binding power 15 and infix `+`/`-` at 13.
  `parser/symbol.js`, `parser/symbols.js` and `parser/not-implemented.js` are
  the modular rewrite: a symbol with `nud`, `led` and `std` slots, its merge
  rule, and factories whose handlers report 'Unexpected end of file'.
- **Interpreter.** `interpreter/index.js` walks the first tree of a parse.
  It tries an operator visitor, a literal visitor and an error visitor, in
  that order.

Each source file is one module:

| module | source |
|---|---|
| `Tokens` | `tokens.js` |
| `Predicates` | `lexer/predicates.js` |
| `Lexer` | `lexer/index.js` |
| `MinimalLexer` | `lexer.js` |
| `Handlers` | `parser/not-implemented.js` |
| `ParserSymbol` | `parser/symbol.js` |
| `Parser` | `parser/index.js` |
| `ParserSymbols` | `parser/symbols.js` |
| `Interpreter` | `interpreter/index.js` |

`*Properties` modules next to them hold the lemmas. `*Examples` modules hold
the concrete inputs of the repository's tests that the code handles.

## How the source is modelled

- **The lexers are classes.** Each lexer is a class with a `source` and a
  mutable `position`, and its methods (`Peek`, `Pop`, `TakeWhile`,
  `ScanNumber`, `Tokenize`, …) follow the source's methods. Every method is
  proved against a function of the source text and the cursor. For example,
  `TakeWhile` stops at `SpanEnd`, and `Tokenize` returns `TokensFrom`. The
  lemmas are then proved about those functions.
- **The parser's state is a class; its semantics are functions.** The
  `Parser` class holds the symbol registry, the token list and the position.
  `Expression`, its `led` loop and `Parse` are proved to compute `ParseExpr`,
  `LedLoop` and `ParseAll`. Those functions are the same algorithm on
  explicit positions, with every JavaScript exception turned into an `Err`.
- **Handlers are data.** The closures a symbol holds are the datatype
  `Handler`: `NotImplemented`, `CopyToken`, `Prefix`, `Infix`, and the broken
  `LeftParen` nud. The parser's `ApplyNud` and `ApplyLed` say what calling
  each one does. A prefix or infix closure reads `rbp` from the symbol it was
  built on, so each slot stores that `rbp` with its handler.
- **The interpreter is pure recursive functions.** The operator table is a
  finite map. `VisitNode` tries the three visitors in order.
  `InterpreterProperties.Evaluate` is a direct case analysis of the node, and
  the two are proved equal.
- **Values.** Numbers are exact `real`s. Where JavaScript would yield `NaN`,
  an infinity or a coerced value, the interpreter returns the error
  `Unmodelled`. It does not invent a number.

Some behaviours of the code are easy to mistake, so they are stated here:

- **Registering a type twice.** `registerSymbol` calls
  `newSymbol.mergeWith(oldSymbol)`. On a second registration of a type, the
  earlier symbol's implemented handlers and its binding powers stay; the new
  symbol only fills the slots the earlier one left unimplemented.
  `ParserSymbol.EarliestRegistrationWins` and `Parser.RegisterEffect` state
  this rule.
- **`walk` returns the first tree's value.** The trees after the first one
  are ignored.
- **Dispatch by probing.** `visitNode` calls the operator visitor, then the
  literal visitor, then the error visitor, and takes the first answer that is
  not `undefined`. The model keeps the probing and proves it equal to a
  direct case analysis of the node.
- **What the parser knows.** `createParser` registers only `String`,
  `Number`, `(`, `)`, prefix and infix `+` and `-`, and `EOF`:
  - `;`, `*`, `/`, identifiers, `True` and `False` have no symbol;
  - the `(` nud calls a method the parser lacks.
- **Errors are host errors.** The parser throws no error of its own:
  - for a token of an unregistered type, `Object.create(undefined)` throws a
    TypeError;
  - reading past the appended `EOF` is a TypeError too.

  The model names each of these in `Parser.ParseError`.

## Model

| member | source | states |
|---|---|---|
| Tokens.NamesDistinct | src/js/compiler/tokens.js:1-50 | every kind's value is its own name, so two kinds share a value only if they are the same kind |
| Tokens.ReservedWordsListed | src/js/compiler/tokens.js:4-11 | a kind is a reserved word exactly when it is one of Var, If, Else, True, False, While, Function |
| Tokens.PunctuationListed | src/js/compiler/tokens.js:13-40 | every punctuation-group kind is in the list of punctuation kinds |
| Tokens.PunctuationOnlyListed | src/js/compiler/tokens.js:13-40 | the list has exactly 27 entries, all punctuation |
| Tokens.DynamicAndSentinelsListed | src/js/compiler/tokens.js:42-49 | the dynamic kinds are exactly Identifier, Number and String; the sentinels are exactly EOF and ERROR |
| Predicates.ClassesDisjoint | src/js/compiler/lexer/predicates.js:1-19 | no character is in two of whitespace, letters and digits |
| Lexer.SpanEnd | src/js/compiler/lexer/index.js:162-168 | `takeWhile` stops at the end of the longest run of matching characters: every character before the stop matches, and the character at the stop does not, or the input has ended |
| Lexer.SpanEndIs | src/js/compiler/lexer/index.js:162-168 | that stopping point is unique: any offset that ends a maximal matching run is it |
| Lexer.WordAt | src/js/compiler/lexer/index.js:83-90 | when the identifier scanner applies, it consumes at least one character and stays inside the input |
| Lexer.PunctuationAt | src/js/compiler/lexer/index.js:92-100 | when the punctuation scanner applies, it consumes at least one character and stays inside the input |
| Lexer.NumberAt | src/js/compiler/lexer/index.js:102-118 | when the number scanner applies, it consumes at least one character and stays inside the input |
| Lexer.QuotedAt | src/js/compiler/lexer/index.js:131-142 | when a quote scanner applies, it consumes at least one character and stays inside the input |
| Lexer.StringAt | src/js/compiler/lexer/index.js:120-125 | the string scanner, single quote first, then double quote, consumes at least one character when it applies |
| Lexer.ScanAt | src/js/compiler/lexer/index.js:72-78 | the scanners tried in order always consume at least one character |
| Lexer.NextToken | src/js/compiler/lexer/index.js:67-81 | each step of `tokenize` strictly advances the cursor and stays inside the input, so `tokenize` terminates |
| Lexer.Lexer.constructor | src/js/compiler/lexer/index.js:49-52 | an absent source is the empty string; the cursor starts at 0 |
| Lexer.Lexer.Peek | src/js/compiler/lexer/index.js:151-153 | yields the character under the cursor, and yields nothing exactly at the end of the input |
| Lexer.Lexer.Pop | src/js/compiler/lexer/index.js:155-160 | returns the character under the cursor and advances by one |
| Lexer.Lexer.TakeWhile | src/js/compiler/lexer/index.js:162-168 | the loop leaves the cursor at `SpanEnd` and returns exactly the characters it passed |
| Lexer.Lexer.SkipWhitespace | src/js/compiler/lexer/index.js:127-129 | moves the cursor past the maximal run of whitespace |
| Lexer.Lexer.Error | src/js/compiler/lexer/index.js:144-149 | returns an ERROR holding the buffer followed by the rest of the input, and moves the cursor to the end |
| Lexer.Lexer.ScanIdentifier | src/js/compiler/lexer/index.js:83-90 | returns and consumes what `WordAt` describes, and consumes nothing when the next character is not a letter |
| Lexer.Lexer.ScanPunctuation | src/js/compiler/lexer/index.js:92-100 | returns and consumes what `PunctuationAt` describes, two characters when the pair is in the table |
| Lexer.Lexer.ScanNumber | src/js/compiler/lexer/index.js:102-118 | returns and consumes what `NumberAt` describes, including the ERROR for a dot without fraction digits |
| Lexer.Lexer.ScanStringWithOpening | src/js/compiler/lexer/index.js:131-142 | returns and consumes what `QuotedAt` describes, including the ERROR for an unterminated string |
| Lexer.Lexer.ScanString | src/js/compiler/lexer/index.js:120-125 | tries `'` and then `"`, as `StringAt` says |
| Lexer.Lexer.ConsumeNextToken | src/js/compiler/lexer/index.js:67-81 | returns the token and the new cursor of `NextToken`: whitespace skipped, then the first scanner that applies, with `from`/`to` attached |
| Lexer.Lexer.Tokenize | src/js/compiler/lexer/index.js:54-65 | the loop collects exactly `TokensFrom` of the starting cursor |
| Lexer.Lex | src/js/compiler/lexer/index.js:171-173 | the default export returns `TokensOf(source)` |
| LexerProperties.PunctuationValues | src/js/compiler/lexer/index.js:18-46 | every key of the punctuation table has one or two characters and maps to a punctuation kind |
| LexerProperties.WordDescribed | src/js/compiler/lexer/index.js:83-90 | at a letter, the token is a maximal word of letters and digits; its kind is the keyword's, or Identifier |
| LexerProperties.PunctuationDescribed | src/js/compiler/lexer/index.js:92-100 | at a table character, the token is greedy punctuation: one character only when the pair is not in the table |
| LexerProperties.NumberDescribed | src/js/compiler/lexer/index.js:102-118 | at a digit, the token is a maximal decimal, never an integer followed by a dot; it is instead an ERROR running to the end exactly when the digits are followed by a dot with no digit after it |
| LexerProperties.FractionNumberDescribed | src/js/compiler/lexer/index.js:107-115 | digits, a dot and digits are scanned as exactly one Number token holding all of them, ending after the last fraction digit |
| LexerProperties.DanglingDotNumberDescribed | src/js/compiler/lexer/index.js:107-112 | digits and a dot without a digit after it form an ERROR token |
| LexerProperties.IntegerNumberDescribed | src/js/compiler/lexer/index.js:102-117 | digits not followed by a dot are scanned as exactly one Number token holding them |
| LexerProperties.DanglingDotDescribed | src/js/compiler/lexer/index.js:110-112 | that ERROR holds the digits, the dot and the rest of the input, and runs to the end |
| LexerProperties.StringDescribed | src/js/compiler/lexer/index.js:131-142 | at a quote, the token is either the text up to the matching quote, without delimiters and containing no such quote, or an ERROR holding the quote and the rest of the input |
| LexerProperties.ScanDescribed | src/js/compiler/lexer/index.js:71-80 | whatever the character, the scanned token with its offsets is described by the rule for its kind, and it is the only token starting there that any rule describes |
| LexerProperties.DescribedIsScanned | src/js/compiler/lexer/index.js:67-81 | a token that a rule describes at offset `from` is exactly what the scanners produce at `from`: the rules leave no choice |
| LexerProperties.TilesUnique | src/js/compiler/lexer/index.js:54-81 | a token list that tiles the input from a cursor is the lexer's output from that cursor |
| LexerProperties.TokensTile | src/js/compiler/lexer/index.js:54-81 | the output tiles the input: each token is preceded only by whitespace, spans non-whitespace and is described by its rule; only whitespace follows the last token; and no other token list tiles the input |
| LexerProperties.TilesOrdered | src/js/compiler/lexer/index.js:71-80 | in a tiling, spans are in input order and do not overlap, and an ERROR token can only be last |
| LexerProperties.TilesErrorLast | src/js/compiler/lexer/index.js:144-149 | an ERROR token consumes the rest of the input, so no token follows it |
| LexerProperties.NoTokensIffWhitespace | src/js/compiler/lexer/index.js:49-69 | the lexer returns no tokens exactly when the source is absent, empty or only whitespace |
| LexerProperties.TokensDescribeSource | src/js/compiler/lexer/index.js:54-81 | every token, with its `from`/`to`, describes the text it was made from; at most one token, the last, is an ERROR; and the output is the only token list that tiles the source |
| LexerExamples.DanglingDotIsError | src/js/compiler/lexer/index.js:107-112 | `13.` is the single token ERROR "13." |
| LexerExamples.DecimalAfterMinus | src/js/compiler/lexer/index.js:102-118 | after the `-` of `-13.37`, `13.37` is one Number token |
| LexerExamples.NegativeDecimal | src/js/compiler/lexer/index.js:72-78 | `-13.37` is Minus then Number "13.37"; the sign is never part of the number |
| LexerExamples.ClosedQuote | src/js/compiler/lexer/index.js:131-142 | the string scanner stops at the closing quote |
| LexerExamples.QuotedString | src/js/compiler/lexer/index.js:131-142 | `'hi'` is String "hi"; the quotes are inside its span but not in its value |
| LexerExamples.ErrorToEnd | src/js/compiler/lexer/index.js:144-149 | an unknown character starts an ERROR holding the rest of the input |
| LexerExamples.UnknownCharacter | src/js/compiler/lexer/index.js:144-149 | `var £ = 10;` is Var then ERROR "£ = 10;" |
| Lexer.WordKind | src/js/compiler/lexer/index.js:87 | a word is an Identifier exactly when it is not one of the table's words; otherwise its kind is a reserved word, and never `While` |
| Lexer.ErrorAt | src/js/compiler/lexer/index.js:144-149 | an ERROR lexeme made of the buffer followed by everything from the cursor to the end, with the cursor at the end |
| KeywordLookup.ConstructorIsNoTokenType | src/js/compiler/lexer/index.js:87 | the word `constructor` gets an inherited function as its type from the lookup as written, where the corrected lookup gives Identifier |
| KeywordLookup.KeywordRule | src/js/compiler/lexer/index.js:9-16 | a word is a keyword exactly when it is one of the six table entries, so `while` is an Identifier; the corrected lookup agrees with the one as written on every word except the inherited names |
| MinimalLexer.WordKindIsVarOnlyForVar | src/js/compiler/lexer.js:81 | a word is Var exactly when it is `var`, and an Identifier otherwise |
| MinimalLexer.ScanAt | src/js/compiler/lexer.js:70-96 | identifier, then punctuation, then ERROR: each consumes at least one character |
| MinimalLexer.NextToken | src/js/compiler/lexer.js:66-75 | each step of `tokenize` strictly advances the cursor, so `tokenize` terminates |
| MinimalLexer.Lexer.constructor | src/js/compiler/lexer.js:48-51 | an absent source is the empty string; the cursor starts at 0 |
| MinimalLexer.Lexer.Peek | src/js/compiler/lexer.js:102-104 | yields the character under the cursor, and yields nothing exactly at the end |
| MinimalLexer.Lexer.Pop | src/js/compiler/lexer.js:106-111 | returns the character under the cursor and advances by one |
| MinimalLexer.Lexer.TakeWhile | src/js/compiler/lexer.js:113-119 | the loop stops at the end of the maximal matching run and returns what it passed |
| MinimalLexer.Lexer.SkipWhitespace | src/js/compiler/lexer.js:98-100 | moves the cursor past the maximal run of whitespace |
| MinimalLexer.Lexer.ScanIdentifier | src/js/compiler/lexer.js:77-84 | at a letter, returns the maximal word typed Var or Identifier; otherwise consumes nothing |
| MinimalLexer.Lexer.ScanPunctuation | src/js/compiler/lexer.js:86-92 | at `;` or `=`, returns that one character typed Semicolon or Equals; otherwise consumes nothing |
| MinimalLexer.Lexer.Error | src/js/compiler/lexer.js:94-96 | returns ERROR with the rest of the input verbatim, and moves to the end |
| MinimalLexer.Lexer.ConsumeNextToken | src/js/compiler/lexer.js:66-75 | returns the token and cursor of `NextToken` |
| MinimalLexer.Lexer.Tokenize | src/js/compiler/lexer.js:53-64 | the loop collects exactly `TokensFrom` of the starting cursor |
| MinimalLexer.Lex | src/js/compiler/lexer.js:122-124 | the default export returns `TokensOf(source)` |
| MinimalLexerProperties.ScanWellFormed | src/js/compiler/lexer.js:77-96 | a scanned token has one of the five kinds in its shape, its value is the text it consumed, and an ERROR reaches the end |
| MinimalLexerProperties.TokensWellFormed | src/js/compiler/lexer.js:53-96 | every token is Var "var", an Identifier word other than "var", Semicolon ";", Equals "=" or an ERROR, and has no offsets |
| MinimalLexerProperties.ErrorIsLast | src/js/compiler/lexer.js:94-96 | an ERROR token is always the last token |
| MinimalLexerProperties.TokensCover | src/js/compiler/lexer.js:53-75 | the tokens from any cursor are the rest of the input's token values in order, each preceded only by whitespace, with only whitespace after the last; no word is followed by a letter or digit, and an ERROR runs to the end |
| MinimalLexerProperties.PlacedIsScanned | src/js/compiler/lexer.js:70-96 | a well-formed token placed after whitespace is exactly what the scanners produce there |
| MinimalLexerProperties.CoverUnique | src/js/compiler/lexer.js:70-96 | two lists of well-formed tokens that both cover the same text in that way are equal |
| MinimalLexerProperties.TokensFaithful | src/js/compiler/lexer.js:53-119 | the default export's tokens are well formed and any ERROR is last; they cover the input, whitespace runs between them, with maximal words and an ERROR to the end; and no other list of well-formed tokens covers the input so |
| MinimalLexerProperties.NoTokensIffWhitespace | src/js/compiler/lexer.js:48-68 | no tokens exactly when the source is absent, empty or only whitespace |
| MinimalLexerProperties.DoubleEquals | src/js/compiler/lexer.js:22-25 | `==` is two Equals tokens |
| MinimalLexerProperties.UnknownCharacter | src/js/compiler/lexer.js:94-96 | `var £ = 10;` is Var then ERROR "£ = 10;" |
| Handlers.IsImplemented | src/js/compiler/parser/not-implemented.js:5 | every handler except the sentinel counts as implemented: the token copier, prefix and infix operators and the `(` nud |
| Handlers.IsNotImplemented | src/js/compiler/parser/not-implemented.js:4 | holds of the sentinel and of no other handler |
| ParserSymbol.Merge | src/js/compiler/parser/symbol.js:38-56 | without `other`, the receiver; otherwise type and binding powers from `other`, and each slot is implemented exactly when it is implemented in `other` or in the receiver |
| ParserSymbol.MergeIntoFullyImplemented | src/js/compiler/parser/symbol.js:41-53 | if `other` implements all three handlers, the merge is `other` |
| ParserSymbol.MergeKeepsImplemented | src/js/compiler/parser/symbol.js:43-53 | each slot is `other`'s when implemented there, else the receiver's |
| ParserSymbol.MergeIdempotent | src/js/compiler/parser/symbol.js:38-56 | merging a symbol with itself changes nothing |
| ParserSymbol.EarliestRegistrationWins | src/js/compiler/parser/symbol.js:38-56 | over any number of registrations of one type, the first fixes the type and binding powers, and each slot holds the earliest implemented handler |
| ParserSymbol.Symbol.constructor | src/js/compiler/parser/symbol.js:4-11 | a new symbol has no handlers and both binding powers 0 |
| ParserSymbol.Symbol.WithNud | src/js/compiler/parser/symbol.js:13-16 | sets `nud`, returns the same symbol, changes nothing else |
| ParserSymbol.Symbol.WithLbp | src/js/compiler/parser/symbol.js:18-21 | sets `lbp`, returns the same symbol, changes nothing else |
| ParserSymbol.Symbol.WithRbp | src/js/compiler/parser/symbol.js:23-26 | sets `rbp` and returns the same symbol; the symbol's own handlers now parse their operands at the new power |
| ParserSymbol.Symbol.WithLed | src/js/compiler/parser/symbol.js:28-31 | sets `led`, returns the same symbol, changes nothing else |
| ParserSymbol.Symbol.WithStd | src/js/compiler/parser/symbol.js:33-36 | sets `std`, returns the same symbol, changes nothing else |
| ParserSymbol.Symbol.MergeWith | src/js/compiler/parser/symbol.js:38-56 | the receiver's own fields when there is no `other`, and exactly `other` when `other` implements every handler |
| Parser.WithEOF | src/js/compiler/parser/index.js:19 | the token list ends with the appended EOF token |
| Parser.SymbolOf | src/js/compiler/parser/index.js:47-52 | `symbolFor` succeeds exactly for a registered type, with that type's symbol; otherwise it fails naming the type |
| Parser.ParseExpr | src/js/compiler/parser/index.js:30-41 | a successful `expression` moves forward, stops on a real token, and every token it read has a symbol |
| Parser.LedLoop | src/js/compiler/parser/index.js:35-39 | the `led` loop stops only at a registered token whose `lbp` is at most `rbp` |
| Parser.ApplyNud | src/js/compiler/parser/index.js:105-121 | a `nud` never moves the parser backwards, and every token it reads has a symbol |
| Parser.ApplyLed | src/js/compiler/parser/index.js:123-134 | a `led` never moves the parser backwards, and every token it reads has a symbol |
| Parser.ParseAll | src/js/compiler/parser/index.js:22-27 | a success needs a symbol for EOF and gives at most one tree per token before the EOF; at EOF the loop ends at once with no trees, or fails when EOF has no symbol |
| Parser.Parse | src/js/compiler/parser/index.js:18-28 | a success needs a symbol for EOF and gives at most as many trees as there are input tokens; an absent or empty token list gives no trees, or the unregistered-EOF error |
| Parser.RegisterEffect | src/js/compiler/parser/index.js:12-16 | registering changes only the entry of the symbol's type: a first registration is stored as it is; on a later one the earlier binding powers stay, and each handler stays where the earlier symbol implements it |
| Parser.RegisterAllEffect | src/js/compiler/parser/index.js:182 | after registering a list of symbols every type in it has an entry, and a type registered before keeps its binding powers |
| Parser.InlineMerge | src/js/compiler/parser/index.js:88-102 | the parser's own `mergeWith` is the symbol.js merge, except that `std` is never merged: the result always keeps `other`'s |
| Parser.PrefixOverInfix | src/js/compiler/parser/index.js:165-173 | a prefix registration over an infix one keeps `lbp`/`rbp` 13 and adds the prefix nud, which parses at its own 15 |
| Parser.OperatorsRegistered | src/js/compiler/parser/index.js:165-177 | the operator registrations give Minus and Plus their combined symbols |
| Parser.RegisterNew | src/js/compiler/parser/index.js:12-16 | a symbol of a type not seen before is stored as it is |
| Parser.DefaultRegistryRegistered | src/js/compiler/parser/index.js:148-185 | the registration table, in order, yields exactly the default registry |
| Parser.Parser.constructor | src/js/compiler/parser/index.js:8-10 | a new parser has no symbols |
| Parser.Parser.RegisterSymbol | src/js/compiler/parser/index.js:12-16 | merges the new symbol with the earlier one of its type and returns the parser |
| Parser.Parser.SymbolFor | src/js/compiler/parser/index.js:47-52 | succeeds exactly for a token of a registered type, pairing the token with that type's symbol; otherwise fails naming the type |
| Parser.Parser.PeekSymbol | src/js/compiler/parser/index.js:43-45 | the symbol of the token at the current position, as `PeekAt` gives it; past the end of the tokens it fails |
| Parser.Parser.Advance | src/js/compiler/parser/index.js:54-56 | moves the position forward by one, nothing else |
| Parser.Parser.Expression | src/js/compiler/parser/index.js:30-41 | returns the tree and the position of `ParseExpr`, or its error |
| Parser.Parser.Leds | src/js/compiler/parser/index.js:35-39 | the loop returns the tree and position of `LedLoop`, or its error |
| Parser.Parser.CallNud | src/js/compiler/parser/index.js:34 | runs the symbol's `nud` as `ApplyNud` says |
| Parser.Parser.CallLed | src/js/compiler/parser/index.js:38 | runs the symbol's `led` as `ApplyLed` says |
| Parser.Parser.Parse | src/js/compiler/parser/index.js:18-28 | appends EOF and returns `ParseAll` from position 0: the expressions in input order, or the first error |
| Parser.CreateLiteral | src/js/compiler/parser/index.js:105-109 | a literal symbol: a token-copying nud, nothing else |
| Parser.CreatePrefix | src/js/compiler/parser/index.js:111-121 | a prefix symbol whose nud parses its operand at the given `rbp` |
| Parser.CreateInfix | src/js/compiler/parser/index.js:123-134 | an infix symbol whose led parses its right operand at the given `rbp` |
| Parser.RegisterEach | src/js/compiler/parser/index.js:182 | registering a table of symbols in order is `RegisterAll` of their records |
| Parser.OperatorSymbols | src/js/compiler/parser/index.js:165-173 | builds the infix and then the prefix symbols of `+` and `-` |
| Parser.LiteralSymbols | src/js/compiler/parser/index.js:156-163 | builds the literal symbols, the broken `(`, `)` and the EOF symbol |
| Parser.CreateParser | src/js/compiler/parser/index.js:148-185 | the parser's registry is the default registry; True and False are never registered |
| Parser.ParseTokens | src/js/compiler/parser/index.js:187-189 | the default export parses with the default registry |
| ParserProperties.DefaultArithmetic | src/js/compiler/parser/index.js:142-146 | EOF has `lbp` 0, as does every type except Minus and Plus, which have 13 |
| ParserProperties.EmptyInputs | src/js/compiler/parser/index.js:18-28 | an absent or empty token list parses to no trees when EOF has a symbol, and fails when it has none |
| ParserProperties.LiteralNud | src/js/compiler/parser/index.js:105-109 | a Number or String token's nud copies its type and value |
| ParserProperties.PrefixNud | src/js/compiler/parser/index.js:111-121 | a prefix `-`/`+` nud wraps the operand parsed at binding power 15 |
| ParserProperties.LedStops | src/js/compiler/parser/index.js:35 | the `led` loop stops at a token whose `lbp` is at most `rbp` |
| ParserProperties.InfixLed | src/js/compiler/parser/index.js:123-134 | below 13, an infix operator takes the tree so far as its left operand and parses its right at 13 |
| ParserProperties.TermNud | src/js/compiler/parser/index.js:111-121 | any number of prefix signs before a literal parse to nested unary nodes, outermost first |
| ParserProperties.TermOperand | src/js/compiler/parser/index.js:130 | a signed literal as a right operand is parsed in full and stops before the next operator |
| ParserProperties.ChainLeds | src/js/compiler/parser/index.js:35-39 | the loop over `op1 t1 op2 t2 …` folds to the left and stops right after the chain |
| ParserProperties.ParseAllStep | src/js/compiler/parser/index.js:22-25 | one turn of `parse`'s loop puts the expression's tree before the rest |
| ParserProperties.ParseAllEnd | src/js/compiler/parser/index.js:23 | `parse`'s loop ends at EOF with no further trees |
| ParserProperties.SingleExpression | src/js/compiler/parser/index.js:18-28 | one expression followed by EOF parses to exactly its tree |
| ParserProperties.ChainExpr | src/js/compiler/parser/index.js:30-41 | at binding power 0, a chain parses to the left fold of its operands |
| ParserProperties.OperatorChainIn | src/js/compiler/parser/index.js:30-41 | for any registry agreeing with the default one on `+`, `-` and literals, a chain of signed literals parses to one tree: prefixes bind to their operands and infix operators group to the left |
| ParserProperties.OperatorChain | src/js/compiler/parser/index.js:165-173 | the same for the default parser |
| ParserProperties.LiteralParses | src/js/compiler/parser/index.js:157-158 | a lone Number or String token parses to `{type, value}` |
| ParserProperties.NestedPrefix | src/js/compiler/parser/index.js:111-121 | `- - 123` parses to Minus(Minus(123)) |
| ParserProperties.PrefixBindsTighter | src/js/compiler/parser/index.js:165-173 | `- 1 + 2` parses to Plus(Minus(1), 2) |
| ParserProperties.InfixGroupsLeft | src/js/compiler/parser/index.js:170-173 | `1 - 2 + 3` parses to Plus(Minus(1, 2), 3) |
| ParserProperties.ParseAllReadsAll | src/js/compiler/parser/index.js:43-52 | a successful parse found a symbol for every token up to EOF |
| ParserProperties.UnregisteredTokenFails | src/js/compiler/parser/index.js:47-52 | any input containing a token of an unregistered type fails |
| ParserProperties.DefaultRejects | src/js/compiler/parser/index.js:151-154 | Identifier, Multiply, True and False have no symbol in the default parser |
| ParserProperties.LonePrefixReadsPastEnd | src/js/compiler/parser/index.js:114-118 | a lone `-` takes EOF as its operand, then reads past the end of the tokens |
| ParserProperties.NotImplementedThrows | src/js/compiler/parser/not-implemented.js:1-3 | calling an unimplemented `nud` or `led` throws 'Not Implemented' |
| ParserProperties.LeftParenFails | src/js/compiler/parser/index.js:159-161 | `(` fails, because its nud calls a method the parser lacks |
| ParserProperties.LiteralExpr | src/js/compiler/parser/index.js:30-41 | a literal followed by a token of `lbp` 0 is a whole expression |
| ParserProperties.TwoExpressions | src/js/compiler/parser/index.js:22-27 | two literals in a row are two trees, in input order |
| ParserSymbols.CreateSymbol | src/js/compiler/parser/symbols.js:5-7 | a bare symbol: no handlers, binding powers 0 |
| ParserSymbols.LiteralSymbol | src/js/compiler/parser/symbols.js:9-13 | a nud that copies the token's type and value, nothing else |
| ParserSymbols.PrefixSymbol | src/js/compiler/parser/symbols.js:15-27 | a guarded prefix nud, nothing else |
| ParserSymbols.InfixSymbol | src/js/compiler/parser/symbols.js:29-42 | a guarded infix led, nothing else |
| ParserSymbols.StatementSymbol | src/js/compiler/parser/symbols.js:44-46 | a bare symbol |
| ParserSymbols.EOFSymbol | src/js/compiler/parser/symbols.js:48-50 | a bare symbol for EOF |
| ParserSymbols.GuardHandler | src/js/compiler/parser/symbols.js:17-20 | guarding changes only prefix and infix handlers, keeps their kind and whether they are implemented, and marks them guarded |
| ParserSymbols.FactoriesGuarded | src/js/compiler/parser/symbols.js:9-42 | these factories build the guarded form of the parser's own prefix, infix and literal symbols |
| ParserSymbols.GuardedAtEnd | src/js/compiler/parser/symbols.js:17-20 | a guarded prefix nud or infix led that finds EOF next throws 'Unexpected end of file' |
| ParserSymbols.GuardedBeforeEnd | src/js/compiler/parser/symbols.js:22-25 | otherwise it builds `{type, right}` or `{type, left, right}`, with `right` parsed at its own symbol's `rbp` |
| ParserSymbols.GuardKeepsParses | src/js/compiler/parser/symbols.js:15-42 | on tokens holding no EOF, guarding never changes a successful parse and never makes a failing one succeed |
| ParserSymbols.LonePrefixAtEnd | src/js/compiler/parser/symbols.js:17-20 | with the guard, a lone `-` reports 'Unexpected end of file' |
| ParserSymbols.GuardedLonePrefix | src/js/compiler/parser/symbols.js:17-20 | the same input reads past the end without the guard: only the error differs |
| Interpreter.ApplyResults | src/js/compiler/interpreter/index.js:4-9 | a number comes only from numbers and a string only from `+` on a string; two numbers always give a number except when dividing by zero; `*` and `/` need two operands; `+` with one string operand appends the default 0 |
| Interpreter.ParseFloat | src/js/compiler/interpreter/index.js:48 | an absent value is not a number; a number read has a sign, negative only after a leading `-`, where it is the negated magnitude of the rest |
| Interpreter.Magnitude | src/js/compiler/interpreter/index.js:48 | a magnitude is never negative, and needs a digit at the start or right after a leading dot |
| Interpreter.FirstMatchingResultAnswers | src/js/compiler/interpreter/index.js:11-15 | when every visitor answers `undefined` the call past the last one is a host TypeError; a value, or an error other than that TypeError, is some visitor's own answer |
| Interpreter.VisitNode | src/js/compiler/interpreter/index.js:25-31 | a missing node is a host TypeError; a value comes only from an operator type, a Number, or a String holding a value |
| Interpreter.VisitOperator | src/js/compiler/interpreter/index.js:33-44 | answers `undefined` exactly when the node's type is not in `operators`; a missing node is a host TypeError |
| Interpreter.VisitLiteral | src/js/compiler/interpreter/index.js:46-52 | answers `undefined` exactly when the node is neither a Number nor a String holding a value; it answers a number exactly for a Number |
| Interpreter.ErrorVisit | src/js/compiler/interpreter/index.js:54-56 | always fails, naming the node's type |
| Interpreter.Walk | src/js/compiler/interpreter/index.js:18-23 | no value exactly for an empty tree; otherwise it succeeds exactly when the first node does, with that node's value |
| Interpreter.UnexpectedNodeTypeMessage | src/js/compiler/interpreter/index.js:54-56 | the message quotes the node's type between fixed text |
| Interpreter.MessageNamesType | src/js/compiler/interpreter/index.js:54-56 | distinct types give distinct messages |
| InterpreterProperties.CaseAgrees | src/js/compiler/interpreter/index.js:33-35 | a type is an operator case exactly when its name is in `operators`, with the same operator, and it is the Number or String case exactly when its name is that |
| InterpreterProperties.VisitMissing | src/js/compiler/interpreter/index.js:33-34 | visiting a missing operand is a host TypeError |
| InterpreterProperties.VisitNodeIsEvaluate | src/js/compiler/interpreter/index.js:11-15 | trying the operator, literal and error visitors in order is exactly a direct case analysis of the node |
| InterpreterProperties.WalkEvaluatesFirst | src/js/compiler/interpreter/index.js:18-23 | an empty tree gives no value; otherwise `walk` evaluates the first tree and ignores the rest |
| InterpreterProperties.UnexpectedNamesUnhandled | src/js/compiler/interpreter/index.js:54-56 | an unexpected-type error never names an operator or Number |
| InterpreterProperties.UnexpectedTypeIffUnhandled | src/js/compiler/interpreter/index.js:25-31 | a node raises the error naming its own type exactly when neither the operator visitor nor the literal visitor answers for it |
| InterpreterProperties.DecimalMagnitude | src/js/compiler/interpreter/index.js:48 | `parseFloat` reads a decimal numeral in full, to its exact value |
| InterpreterProperties.IntegerParses | src/js/compiler/interpreter/index.js:48 | `parseFloat` of a digit string is the integer it denotes |
| InterpreterProperties.DecimalParses | src/js/compiler/interpreter/index.js:48 | `parseFloat` of a decimal, with or without a leading minus, is its exact value, negated for the minus |
| InterpreterProperties.NumberEvaluates | src/js/compiler/interpreter/index.js:46-48 | a Number node holding a decimal evaluates to its value |
| InterpreterProperties.LexedNumbersEvaluate | src/js/compiler/interpreter/index.js:46-48 | every Number token the lexer emits is a decimal the interpreter reads in full |
| InterpreterProperties.UnaryStep | src/js/compiler/interpreter/index.js:5-6 | a prefix `-` negates a number and a prefix `+` keeps it |
| InterpreterProperties.BinaryStep | src/js/compiler/interpreter/index.js:4-6 | an infix `-` subtracts, and an infix `+` adds, the values of left and right |
| InterpreterProperties.PrefixesEvaluate | src/js/compiler/interpreter/index.js:43 | prefix signs negate a number exactly when an odd number of them are `-` |
| InterpreterProperties.TermEvaluates | src/js/compiler/interpreter/index.js:43 | a signed numeral evaluates to its sign times its value |
| InterpreterProperties.FoldEvaluates | src/js/compiler/interpreter/index.js:39-41 | a left-grouped chain whose operands evaluate to `vs` evaluates to the chain of `vs` computed left to right |
| InterpreterProperties.ChainEvaluates | src/js/compiler/interpreter/index.js:33-44 | a left-grouped chain of signed numerals evaluates to its left-to-right value |
| InterpreterProperties.ChainRuns | src/js/compiler/interpreter/index.js:17-57 | lexed-shape chains parsed by the default parser and then walked compute their left-to-right value, with each operand's signs applied first |
| InterpreterProperties.DoubleNegation | src/js/compiler/interpreter/index.js:6 | two prefix minus signs cancel |
| InterpreterProperties.UnaryPlus | src/js/compiler/interpreter/index.js:5 | a prefix plus keeps a number and appends "0" to a string, adding the default 0 |
| InterpreterProperties.MissingRightOperand | src/js/compiler/interpreter/index.js:39-43 | an operator node without a right operand is a host TypeError |
| InterpreterExamples.Digits | src/js/compiler/interpreter/index.js:48 | `parseFloat` of "0" to "3" gives 0 to 3 |
| InterpreterExamples.FortyTwo | src/js/compiler/interpreter/index.js:48 | `parseFloat("42")` is 42 |
| InterpreterExamples.Hundred | src/js/compiler/interpreter/index.js:48 | `parseFloat("100")` is 100 |
| InterpreterExamples.EmptyTree | src/js/compiler/interpreter/index.js:18-21 | walking `[]` gives no value |
| InterpreterExamples.UnexpectedNode | src/js/compiler/interpreter/index.js:54-56 | a node of type 'Unexpected' raises "Unexpected node type 'Unexpected'" |
| InterpreterExamples.NumberLiterals | src/js/compiler/interpreter/index.js:46-48 | Number "42" is 42 and Number "0" is 0 |
| InterpreterExamples.StringLiteral | src/js/compiler/interpreter/index.js:49-50 | a String node is its value |
| InterpreterExamples.Addition | src/js/compiler/interpreter/index.js:5 | 1 + 1 is 2 and 0 + 0 is 0 |
| InterpreterExamples.Multiplication | src/js/compiler/interpreter/index.js:7 | 2 * 3 is 6 |
| InterpreterExamples.Subtraction | src/js/compiler/interpreter/index.js:6 | 2 - 3 is -1 |
| InterpreterExamples.DivisionNested | src/js/compiler/interpreter/index.js:4-9 | 100 + 100 / 2, with the division as the right operand, is 150 |
| InterpreterExamples.UnaryPlusOnString | src/js/compiler/interpreter/index.js:5 | prefix `+` on the string "x" is "x0" |

## Left out

- I/O, the user interface, the build configuration and `src/js/compiler/index.js` (a re-export) are not part of this model. Neither are the error classes under `errors/`, which no shown code raises, or the unused `lexer/tokens.js`.
- JavaScript numbers are exact reals here. Rounding in `parseFloat` and in arithmetic is not modelled.
- Interpreter.Apply: returns `Unmodelled` where JavaScript would continue with `NaN`, an infinity or a coerced value. Those cases are division by zero; `*` or `/` with one operand; `-`, `*` and `/` on two strings; unary `-` on a string; and every operand pair mixing a number and a string, for each of the four operators. String concatenation with `+` and unary `+` on a string are modelled.
- Interpreter.ParseFloat: covers an optional sign followed by digits with an optional fraction, including a numeral that starts at the dot, such as `.5`. Leading whitespace, `Infinity` and exponents are `Unmodelled`. Every numeral the lexer emits is covered.
- Lexer.NextToken: offsets count Unicode scalar values, because a Dafny `string` is a sequence of them. JavaScript counts UTF-16 code units, so a character outside the Basic Multilingual Plane counts as two there. For `'😀' x` the string token spans 0-4 in JavaScript and 0-3 here, and every later offset is one smaller here. Token kinds and values are the same, since no character test in the lexer accepts half of such a character.
- Lexer.WordKind: the keyword table is a finite map holding only its six entries. Prototype lookups are the finding below, and the same applies at `lexer.js:81` in `MinimalLexer.WordKind`. The same holds for the interpreter's `operators` table at `interpreter/index.js:34` and the parser's symbol table: for a tree or token whose type names an `Object.prototype` member, the model reports an unhandled type where JavaScript would call the inherited function.
- ParserSymbol.Symbol.Record: a registered symbol is a snapshot of the factory symbol. JavaScript links it through the prototype chain instead, so a `with*` call made after registration would still be visible to the parser. No code in the source makes such a call.
- The `symbolConsumer` handed to the handlers in `parser/symbols.js` is not shown in the source. It is modelled as the token list and position of `Parser`: `hasTopToken(kind)` tests the next unread token, and `expression` is `ParseExpr`.
- The `LeftParen` nud calls `symbolConsumer.next`, which `Parser` does not define. It is modelled only as the error `MissingNext`.
- Several test expectations disagree with the code, and the model follows the code:
  - quoted-string values (lexer.spec.js 23-25 and 37-39);
  - `-13.37` split at the dot (lexer.spec.js 93-100);
  - the missing `from`/`to` offsets in the lexer tests;
  - the assignment, block, ternary, boolean and comparison trees of interpreter.spec.js 127-673;
  - all of compiler.spec.js.
- Statements, environments, closures and the `while` loop limit are absent from the shown code and are not modelled.

## Findings

| source | as written | input that shows it | evidently intended | confidence | as-written member | corrected member |
|---|---|---|---|---|---|---|
| src/js/compiler/lexer/index.js:87 | `keywords[value] \|\| Tokens.Identifier` also finds members inherited from `Object.prototype` | the word `constructor` (also `toString`, `valueOf`, …) gets a function as its token type | a word outside the six keywords is an `Identifier` | not executed | KeywordLookup.ConstructorIsNoTokenType | KeywordLookup.KeywordRule |
