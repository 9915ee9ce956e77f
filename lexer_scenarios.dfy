/** The lexer's test inputs, run through the model one loop iteration at a
    time. The inputs whose expected tokens the code produces are stated with
    those tokens; for the others the lemma states what the code as written
    returns instead. */
module PascalLexerScenarios {
  import opened PascalTokens
  import opened PascalScan
  import opened PascalLexerFacts

  function Tok(kind: TokenKind, start: int, end: int): (t: Token)
    ensures t.kind == kind && t.range == TokenRange(start, end)
  {
    Token(kind, TokenRange(start, end))
  }

  lemma CommentThenNumber(text: string)
    requires text == "// text\n123"
    ensures Lex(text) == Done([Tok(SingleLineComment, 0, 7), Tok(Number, 8, 11)])
  {
    SingleLineCommentDispatch(text, 0, 7);
    LexFromNext(text, 0, [], Tok(SingleLineComment, 0, 7), 7, 8);
    NumberDispatch(text, 8, 11);
    LexFromNext(text, 8, [Tok(SingleLineComment, 0, 7)], Tok(Number, 8, 11), 11, 11);
  }

  lemma TwoCharSymbol(text: string)
    requires text == "**"
    ensures Lex(text) == Done([Tok(Symbol, 0, 2)])
  {
    SymbolDispatch(text, 0);
    LexFromNext(text, 0, [], Tok(Symbol, 0, 2), 2, 2);
  }

  lemma OneCharSymbols(text: string)
    requires text == "/-*"
    ensures Lex(text) == Done([Tok(Symbol, 0, 1), Tok(Symbol, 1, 2), Tok(Symbol, 2, 3)])
  {
    var t0, t1, t2 := Tok(Symbol, 0, 1), Tok(Symbol, 1, 2), Tok(Symbol, 2, 3);
    assert [] + [t0] == [t0] && [t0] + [t1] == [t0, t1] && [t0, t1] + [t2] == [t0, t1, t2];
    OneCharSymbolAt(text, 0);
    LexFromNext(text, 0, [], t0, 1, 1);
    OneCharSymbolAt(text, 1);
    LexFromNext(text, 1, [t0], t1, 2, 2);
    OneCharSymbolAt(text, 2);
    LexFromNext(text, 2, [t0, t1], t2, 3, 3);
  }

  lemma OneCharSymbolAt(text: string, p: nat)
    requires text == "/-*" && p < 3
    ensures Dispatch(text, p) == Next(Tok(Symbol, p, p + 1), p + 1)
  {
    SymbolDispatch(text, p);
  }

  /** A `-` before a number prefix is a one-character symbol. */
  lemma MinusBeforePrefix(text: string, p: nat)
    requires p + 1 < |text| && text[p] == '-' && (text[p + 1] == '%' || text[p + 1] == '$')
    ensures Dispatch(text, p) == Next(Tok(Symbol, p, p + 1), p + 1)
  {
    SymbolDispatch(text, p);
  }

  lemma SignedBinaryNumber(text: string)
    requires text == "-%101010111"
    ensures Lex(text) == Done([Tok(Symbol, 0, 1), Tok(Number, 1, 11)])
  {
    var t0, t1 := Tok(Symbol, 0, 1), Tok(Number, 1, 11);
    assert [] + [t0] == [t0] && [t0] + [t1] == [t0, t1];
    MinusBeforePrefix(text, 0);
    LexFromNext(text, 0, [], t0, 1, 1);
    NumberDispatch(text, 1, 11);
    LexFromNext(text, 1, [t0], t1, 11, 11);
  }

  lemma HexNumber(text: string)
    requires text == "$67124"
    ensures Lex(text) == Done([Tok(Number, 0, 6)])
  {
    NumberDispatch(text, 0, 6);
    LexFromNext(text, 0, [], Tok(Number, 0, 6), 6, 6);
  }

  lemma DecimalNumber(text: string)
    requires text == "123456"
    ensures Lex(text) == Done([Tok(Number, 0, 6)])
  {
    NumberDispatch(text, 0, 6);
    LexFromNext(text, 0, [], Tok(Number, 0, 6), 6, 6);
  }

  lemma SignedHexNumber(text: string)
    requires text == "-$DEADBEEF"
    ensures Lex(text) == Done([Tok(Symbol, 0, 1), Tok(Number, 1, 10)])
  {
    var t0, t1 := Tok(Symbol, 0, 1), Tok(Number, 1, 10);
    assert [] + [t0] == [t0] && [t0] + [t1] == [t0, t1];
    MinusBeforePrefix(text, 0);
    LexFromNext(text, 0, [], t0, 1, 1);
    NumberDispatch(text, 1, 10);
    LexFromNext(text, 1, [t0], t1, 10, 10);
  }

  lemma CharacterCode(text: string)
    requires text == "#13"
    ensures Lex(text) == Done([Tok(CharacterString, 0, 3)])
  {
    CharacterCodeDispatch(text, 0, 3);
    LexFromNext(text, 0, [], Tok(CharacterString, 0, 3), 3, 3);
  }

  /** A word at the very end of the text fails where the missing space would be. */
  lemma WordAtEnd(text: string)
    requires text == "var" || text == "assembler" || text == "_sosiska"
    ensures Lex(text) == Failed(LexingException(|text|))
  {
    IdentifierDispatch(text, 0, |text|);
  }

  /** A program that starts `var a:` stops at the `:`: the word `a` is followed
      by neither a space, a tab nor `;`. */
  lemma DeclarationWithColon(text: string)
    requires |text| >= 6 && text[0] == 'v' && text[1] == 'a' && text[2] == 'r'
    requires text[3] == ' ' && text[4] == 'a' && text[5] == ':'
    ensures Lex(text) == Failed(LexingException(5))
  {
    assert text[0..3] == "var";
    ClassifyExamples();
    IdentifierDispatch(text, 0, 3);
    LexFromNext(text, 0, [], Tok(ReservedWord, 0, 3), 3, 4);
    IdentifierDispatch(text, 4, 5);
  }

  /** A word followed by a space is classified by the word tables. */
  lemma WordsBeforeSpace(text: string, kind: TokenKind)
    requires (text == "var " && kind == ReservedWord) || (text == "assembler " && kind == Modifier)
          || (text == "_sosiska " && kind == Identifier)
    ensures Lex(text) == Done([Tok(kind, 0, |text| - 1)])
  {
    var e := |text| - 1;
    ClassifyExamples();
    if text == "var " {
      assert text[0..e] == "var";
    } else if text == "assembler " {
      assert text[0..e] == "assembler";
    } else {
      assert text[0..e] == "_sosiska";
    }
    IdentifierDispatch(text, 0, e);
    LexFromNext(text, 0, [], Tok(kind, 0, e), e, |text|);
  }

  /** Leading whitespace is not skipped. */
  lemma LeadingWhitespace(text: string)
    requires text == "  \n  _sosiska;   \n\n"
    ensures Lex(text) == Failed(LexingException(0))
  {
    LexStart(text);
  }

  /** A paren comment at offset 0 reads before the text. */
  lemma ParenCommentAtStart(text: string)
    requires text == "(*asd//a\n*)"
    ensures Lex(text) == Failed(IndexOutOfRange(-1))
  {
    ParenCommentAtStartCrashes(text);
  }

  /** A paren comment after offset 0 ends before its closing `)`, which is then a symbol. */
  lemma ParenCommentLater(text: string)
    requires text == "x (*a*) "
    ensures Lex(text) == Done([Tok(Identifier, 0, 1), Tok(MultiLineComment, 2, 6), Tok(Symbol, 6, 7)])
  {
    var t0, t1, t2 := Tok(Identifier, 0, 1), Tok(MultiLineComment, 2, 6), Tok(Symbol, 6, 7);
    assert [] + [t0] == [t0] && [t0] + [t1] == [t0, t1] && [t0, t1] + [t2] == [t0, t1, t2];
    LoneLetter(text);
    LexFromNext(text, 0, [], t0, 1, 2);
    ParenCommentDispatch(text, 2, 6);
    LexFromNext(text, 2, [t0], t1, 6, 6);
    ClosingParen(text);
    LexFromNext(text, 6, [t0, t1], t2, 7, 8);
  }

  lemma LoneLetter(text: string)
    requires text == "x (*a*) "
    ensures Dispatch(text, 0) == Next(Tok(Identifier, 0, 1), 1)
  {
    IdentifierDispatch(text, 0, 1);
    assert text[0..1] == "x";
  }

  lemma ClosingParen(text: string)
    requires text == "x (*a*) "
    ensures Dispatch(text, 6) == Next(Tok(Symbol, 6, 7), 7)
  {
    SymbolDispatch(text, 6);
  }

  /** An unterminated brace comment fails at the end of the text. */
  lemma OpenBraceComment(text: string)
    requires text == "{abc"
    ensures Lex(text) == Failed(LexingException(4))
  {
    UnterminatedBraceComment(text, 0);
  }

  /** An unprefixed literal needs two digits: its first digit is skipped and at
      least one octal digit must follow. */
  lemma ShortNumbers(text: string)
    requires text == "1" || text == "19"
    ensures Lex(text) == Failed(LexingException(1))
  {
    NumberDispatch(text, 0, 1);
  }

  /** No fraction is read: the literal stops at `.`, which is a symbol. */
  lemma NoFraction(text: string)
    requires text == "123.456"
    ensures Lex(text) == Done([Tok(Number, 0, 3), Tok(Symbol, 3, 4), Tok(Number, 4, 7)])
  {
    var t0, t1, t2 := Tok(Number, 0, 3), Tok(Symbol, 3, 4), Tok(Number, 4, 7);
    assert [] + [t0] == [t0] && [t0] + [t1] == [t0, t1] && [t0, t1] + [t2] == [t0, t1, t2];
    NumberDispatch(text, 0, 3);
    LexFromNext(text, 0, [], t0, 3, 3);
    Dot(text);
    LexFromNext(text, 3, [t0], t1, 4, 4);
    NumberDispatch(text, 4, 7);
    LexFromNext(text, 4, [t0, t1], t2, 7, 7);
  }

  lemma Dot(text: string)
    requires text == "123.456"
    ensures Dispatch(text, 3) == Next(Tok(Symbol, 3, 4), 4)
  {
    SymbolDispatch(text, 3);
  }

  /** No exponent is read: the literal stops at `E`, which then starts a word. */
  lemma NoExponent(text: string)
    requires text == "123E12"
    ensures Lex(text) == Failed(LexingException(6))
  {
    NumberDispatch(text, 0, 3);
    LexFromNext(text, 0, [], Tok(Number, 0, 3), 3, 3);
    IdentifierDispatch(text, 3, 6);
  }

  /** A quoted string never ends the loop. */
  lemma QuotedStrings(text: string)
    requires text == "'text'" || text == "'text'#13'moretext'"
    ensures Lex(text) == Diverges(0)
  {
    QuoteStalls(text, 0, []);
  }
}
