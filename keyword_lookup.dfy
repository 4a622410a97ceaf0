/**
 * How `scanIdentifier` (src/js/compiler/lexer/index.js) types a word:
 * `keywords[value] || Tokens.Identifier`. The table is a plain object, so the
 * lookup also finds what every object inherits from `Object.prototype`; a
 * word that spells one of those names gets an inherited function, which is
 * truthy, as its type. The lexer model uses `Lexer.WordKind`, which treats
 * the table as a finite map holding only its six entries.
 */
module KeywordLookup {
  import opened Tokens
  import opened Lexer
  import opened LexerProperties

  /** The members of `Object.prototype` whose names consist of letters only,
      so that a word can spell them. */
  const InheritedNames: set<string> :=
    {"constructor", "hasOwnProperty", "isPrototypeOf", "propertyIsEnumerable",
     "toLocaleString", "toString", "valueOf"}

  /** What `keywords[value] || Tokens.Identifier` evaluates to. */
  datatype WordType = KindOf(kind: TokenKind) | InheritedFunction(name: string)

  /** The lookup as written: an own entry, else an inherited member, else
      the `Identifier` fallback. */
  function LookupAsWritten(w: string): WordType {
    if w in Keywords then KindOf(Keywords[w])
    else if w in InheritedNames then InheritedFunction(w)
    else KindOf(Identifier)
  }

  /** The word `constructor` is lexed with a function as its type, where
      `Identifier` is evidently meant. */
  lemma ConstructorIsNoTokenType()
    ensures IsWord("constructor")
    ensures LookupAsWritten("constructor") == InheritedFunction("constructor")
    ensures WordKind("constructor") == Identifier
  {
    assert "constructor" !in Keywords;
  }

  /** The keyword rule of the corrected lookup: a word is a keyword exactly
      when it is one of the six table entries (so `while` is an
      `Identifier`), and it agrees with the lookup as written on every word
      except the inherited names. */
  lemma KeywordRule(w: string)
    ensures WordKind(w) != Identifier <==> w in {"var", "if", "else", "true", "false", "function"}
    ensures WordKind(w) in {Var, If, Else, True, False, Function, Identifier}
    ensures LookupAsWritten(w) == KindOf(WordKind(w)) <==> w !in InheritedNames
    ensures WordKind("while") == Identifier
  {
    assert Keywords.Keys == {"var", "if", "else", "true", "false", "function"};
    assert "while" !in Keywords;
    if w in InheritedNames {
      assert w !in Keywords;
    }
  }
}
