/** What the lexer guarantees: how each starting character is dispatched and
    where each scanner stops or fails, how the tokens of a successful run tile
    the text, which lexeme each token covers, and when the run never ends. */
module PascalLexerFacts {
  import opened PascalReserved
  import opened PascalTokens
  import opened PascalScan
  import opened PascalLoop

  // ---------------------------------------------------------------------------
  // Runs

  /** The end of a maximal run is determined by the run's characters alone. */
  lemma RunEndUnique(text: string, i: nat, run: CharRun, e: nat)
    requires i <= e <= |text|
    requires forall k :: i <= k < e ==> InRun(text[k], run)
    requires e == |text| || !InRun(text[e], run)
    ensures RunEnd(text, i, run) == e
  {
  }

  // ---------------------------------------------------------------------------
  // Dispatch, one starting character at a time

  /** An identifier-shaped word needs a space, tab or `;` right after it; at the
      end of the text, before a newline or before any other character the run
      fails there. Its class is chosen by the word tables. */
  lemma IdentifierDispatch(text: string, p: nat, e: nat)
    requires p < |text| && IsIdentStartSymbol(text[p])
    requires p <= e <= |text|
    requires forall k :: p <= k < e ==> IsIdentSymbol(text[k])
    requires e == |text| || !IsIdentSymbol(text[e])
    ensures Dispatch(text, p) ==
            if e < |text| && (text[e] == ' ' || text[e] == '\t' || text[e] == ';')
            then Next(Token(Classify(text[p..e]), TokenRange(p, e)), e)
            else Fail(LexingException(e))
  {
    RunEndUnique(text, p, IdentChars, e);
  }

  /** `&` starts an identifier but cannot continue one, so it always fails at its own offset. */
  lemma AmpersandFails(text: string, p: nat)
    requires p < |text| && text[p] == '&'
    ensures Dispatch(text, p) == Fail(LexingException(p))
  {
    RunEndUnique(text, p, IdentChars, p);
  }

  /** The words listed both as reserved words and as modifiers are exactly
      `absolute` and `reintroduce`; being looked up first, they are reserved words. */
  lemma SharedWords(w: string)
    ensures (IsReservedWord(w) && IsModifier(w)) <==> (w == "absolute" || w == "reintroduce")
    ensures IsReservedWord(w) ==> Classify(w) == ReservedWord
  {
  }

  lemma ClassifyExamples()
    ensures Classify("var") == ReservedWord
    ensures Classify("absolute") == ReservedWord
    ensures Classify("reintroduce") == ReservedWord
    ensures Classify("assembler") == Modifier
    ensures Classify("_sosiska") == Identifier
  {
  }

  /** `//` starts a comment that runs up to, not including, the next newline or the end. */
  lemma SingleLineCommentDispatch(text: string, p: nat, e: nat)
    requires IsSingleLineCommentStart(text, p)
    requires p <= e <= |text|
    requires forall k :: p <= k < e ==> text[k] != '\n'
    requires e == |text| || text[e] == '\n'
    ensures Dispatch(text, p) == Next(Token(SingleLineComment, TokenRange(p, e)), e)
  {
    RunEndUnique(text, p, Until('\n'), e);
  }

  /** A brace comment ends just before the first `}`, which is left for the next token. */
  lemma BraceCommentDispatch(text: string, p: nat, c: nat)
    requires p < c < |text| && text[p] == '{' && text[c] == '}'
    requires forall k :: p <= k < c ==> text[k] != '}'
    ensures Dispatch(text, p) == Next(Token(MultiLineComment, TokenRange(p, c)), c)
  {
    RunEndUnique(text, p, Until('}'), c);
  }

  /** A brace comment with no `}` after it fails at the end of the text. */
  lemma UnterminatedBraceComment(text: string, p: nat)
    requires p < |text| && text[p] == '{'
    requires forall k :: p <= k < |text| ==> text[k] != '}'
    ensures Dispatch(text, p) == Fail(LexingException(|text|))
  {
    RunEndUnique(text, p, Until('}'), |text|);
  }

  /** A paren comment at offset 0 reads the character before the text. */
  lemma ParenCommentAtStartCrashes(text: string)
    requires IsParenMultiLineCommentStart(text, 0)
    ensures Dispatch(text, 0) == Fail(IndexOutOfRange(-1))
  {
  }

  /** Elsewhere a paren comment ends just before the `)` of the first `*)`, when
      that `)` is below the last index; the `*` of the opening `(*` may be the one. */
  lemma ParenCommentDispatch(text: string, p: nat, c: nat)
    requires 0 < p && IsParenMultiLineCommentStart(text, p)
    requires p < c < |text| - 1 && Closes(text, c)
    requires forall k :: p <= k < c ==> !Closes(text, k)
    ensures Dispatch(text, p) == Next(Token(MultiLineComment, TokenRange(p, c)), c)
  {
    var e := ParenEnd(text, p);
    assert e < c ==> !Closes(text, e);
    assert c < e ==> !Closes(text, c);
  }

  /** With no closer below the last index (in particular with the closer at the
      very end) the comment fails at the last index, or crashes reading past the
      end when the text ends in `*`. */
  lemma UnterminatedParenComment(text: string, p: nat)
    requires 0 < p && IsParenMultiLineCommentStart(text, p)
    requires forall k :: p <= k < |text| - 1 ==> !Closes(text, k)
    ensures Dispatch(text, p) ==
            if text[|text| - 1] == '*' then Fail(IndexOutOfRange(|text|))
            else Fail(LexingException(|text| - 1))
  {
    var e := ParenEnd(text, p);
    assert e < |text| - 1 ==> !Closes(text, e);
  }

  /** Any other symbol character is a symbol, two characters long when the pair
      is a two-character symbol and one character long otherwise; it never fails. */
  lemma SymbolDispatch(text: string, p: nat)
    requires p < |text| && IsSymbolStart(text[p])
    requires !IsNumberStart(text[p]) && !IsCharacterStringStart(text[p]) && text[p] != '{'
    requires !IsSingleLineCommentStart(text, p) && !IsParenMultiLineCommentStart(text, p)
    ensures Dispatch(text, p) ==
            if IsTwoCharSymbol(text, p) then Next(Token(Symbol, TokenRange(p, p + 2)), p + 2)
            else Next(Token(Symbol, TokenRange(p, p + 1)), p + 1)
  {
  }

  /** `-` is no number start: it is always a symbol, and `ReadNumber`'s sign branch is never taken. */
  lemma MinusIsSymbol(text: string, p: nat)
    requires p < |text| && text[p] == '-'
    ensures Dispatch(text, p).Next? && Dispatch(text, p).token.kind == Symbol
    ensures Dispatch(text, p) == ScanSymbol(text, p)
  {
    SymbolDispatch(text, p);
  }

  /** A number: the prefix `%` or `$`, or the leading digit, is skipped and then a
      non-empty run of the selected digits (binary, hex, or octal for a leading
      digit) is required; without one the run fails where the digit was expected. */
  lemma NumberDispatch(text: string, p: nat, e: nat)
    requires p < |text| && (text[p] == '%' || text[p] == '$' || IsDecimalDigit(text[p]))
    requires p + 1 <= e <= |text|
    requires forall k :: p + 1 <= k < e ==> text[k] in NumberAlphabet(text[p])
    requires e == |text| || text[e] !in NumberAlphabet(text[p])
    ensures Dispatch(text, p) ==
            if e == p + 1 then Fail(LexingException(p + 1))
            else Next(Token(Number, TokenRange(p, e)), e)
  {
    assert Dispatch(text, p) == ScanNumber(text, p);
    NumberScan(text, p, e);
  }

  lemma NumberScan(text: string, p: nat, e: nat)
    requires p < |text| && (text[p] == '%' || text[p] == '$' || IsDecimalDigit(text[p]))
    requires p + 1 <= e <= |text|
    requires forall k :: p + 1 <= k < e ==> text[k] in NumberAlphabet(text[p])
    requires e == |text| || text[e] !in NumberAlphabet(text[p])
    ensures ScanNumber(text, p) ==
            if e == p + 1 then Fail(LexingException(p + 1))
            else Next(Token(Number, TokenRange(p, e)), e)
  {
    var alphabet := NumberAlphabet(text[p]);
    assert alphabet != DecimalDigits;
    if p + 1 < |text| {
      RunEndUnique(text, p + 1, DigitsOf(alphabet), e);
    }
  }

  /** `#` needs at least one decimal digit after it; the token spans `#` and the digits. */
  lemma CharacterCodeDispatch(text: string, p: nat, e: nat)
    requires p < |text| && text[p] == '#'
    requires p + 1 <= e <= |text|
    requires forall k :: p + 1 <= k < e ==> IsDecimalDigit(text[k])
    requires e == |text| || !IsDecimalDigit(text[e])
    ensures Dispatch(text, p) ==
            if e == p + 1 then Fail(LexingException(p + 1))
            else Next(Token(CharacterString, TokenRange(p, e)), e)
  {
    RunEndUnique(text, p + 1, DecimalChars, e);
  }

  /** At a quote the string loop stops at once: the token is empty, the cursor
      stays, and the dispatch loop repeats that iteration for ever. */
  lemma QuoteStalls(text: string, p: nat, acc: seq<Token>)
    requires p < |text| && text[p] == '\''
    ensures Dispatch(text, p) == Next(Token(CharacterString, TokenRange(p, p)), p)
    ensures LexFrom(text, p, acc) == Diverges(p)
  {
    assert QuotedEnd(text, p) == At(p);
  }

  /** A character in none of the classes fails at its own offset; so do the separators. */
  lemma UnknownCharacterFails(text: string, p: nat)
    requires p < |text|
    requires !IsIdentStartSymbol(text[p]) && !IsNumberStart(text[p])
    requires !IsCharacterStringStart(text[p]) && !IsSymbolStart(text[p])
    ensures Dispatch(text, p) == Fail(LexingException(p))
  {
  }

  /** One iteration of the dispatch loop that emits `tok` and moves on to the
      next non-separator `r`. */
  lemma LexFromNext(text: string, p: nat, acc: seq<Token>, tok: Token, q: nat, r: nat)
    requires p < |text| && Dispatch(text, p) == Next(tok, q)
    requires q <= r <= |text| && r != p
    requires forall k :: q <= k < r ==> IsSeparator(text[k])
    requires r == |text| || !IsSeparator(text[r])
    ensures LexFrom(text, p, acc) == LexFrom(text, r, acc + [tok])
  {
    RunEndUnique(text, q, Separators, r);
  }

  /** Separators are skipped only after a token: a text that starts with one
      fails at 0, and the empty text has no tokens. */
  lemma LexStart(text: string)
    ensures text == [] ==> Lex(text) == Done([])
    ensures text != [] && IsSeparator(text[0]) ==> Lex(text) == Failed(LexingException(0))
  {
    if text != [] && IsSeparator(text[0]) {
      UnknownCharacterFails(text, 0);
    }
  }

  // ---------------------------------------------------------------------------
  // The tokens of a successful run

  /** Coverage: the tokens of a successful run tile the whole text from offset 0. */
  lemma LexTiles(text: string)
    ensures Lex(text).Done? ==> Tiles(text, 0, Lex(text).tokens)
  {
    LexFromIsLoop(text, 0, []);
    LoopTiles(text, DispatchAt(text), 0, []);
    if Lex(text).Done? {
      assert Lex(text).tokens[0..] == Lex(text).tokens;
    }
  }

  /** Hence the tokens of a successful run lie inside the text, are non-empty
      and come in order without overlapping. */
  lemma LexTokensOrdered(text: string)
    requires Lex(text).Done?
    ensures forall i :: 0 <= i < |Lex(text).tokens| ==>
              Lex(text).tokens[i].range.start < Lex(text).tokens[i].range.end <= |text|
    ensures forall i, j :: 0 <= i < j < |Lex(text).tokens| ==>
              Lex(text).tokens[i].range.end <= Lex(text).tokens[j].range.start
  {
    LexTiles(text);
    TilesOrdered(text, 0, Lex(text).tokens);
  }

  // ---------------------------------------------------------------------------
  // The lexeme each token covers

  /** What the text under a token of each class looks like, as an independent
      description of the scanners' results. */
  ghost predicate Lexeme(text: string, t: Token) {
    var s, e := t.range.start, t.range.end;
    0 <= s < e <= |text| &&
    match t.kind
    case ReservedWord | Modifier | Identifier =>
      IsIdentStartSymbol(text[s]) && (forall k :: s <= k < e ==> IsIdentSymbol(text[k])) &&
      e < |text| && (text[e] == ' ' || text[e] == '\t' || text[e] == ';') &&
      Classify(text[s..e]) == t.kind
    case SingleLineComment =>
      s + 2 <= e && text[s] == '/' && text[s + 1] == '/' &&
      (forall k :: s <= k < e ==> text[k] != '\n') && (e == |text| || text[e] == '\n')
    case MultiLineComment =>
      (text[s] == '{' && (forall k :: s <= k < e ==> text[k] != '}') && e < |text| && text[e] == '}') ||
      (0 < s && s + 2 <= e && text[s] == '(' && text[s + 1] == '*' &&
       (forall k :: s <= k < e ==> !Closes(text, k)) && e < |text| - 1 && Closes(text, e))
    case Symbol =>
      (e == s + 2 && IsTwoCharSymbolPair(text[s], text[s + 1])) ||
      (e == s + 1 && IsOneCharSymbolChar(text[s]) && !IsTwoCharSymbol(text, s))
    case Number =>
      (text[s] == '%' || text[s] == '$' || IsDecimalDigit(text[s])) && s + 1 < e &&
      (forall k :: s + 1 <= k < e ==> text[k] in NumberAlphabet(text[s])) &&
      (e == |text| || text[e] !in NumberAlphabet(text[s]))
    case CharacterString =>
      text[s] == '#' && s + 1 < e &&
      (forall k :: s + 1 <= k < e ==> IsDecimalDigit(text[k])) &&
      (e == |text| || !IsDecimalDigit(text[e]))
  }

  lemma IdentifierLexeme(text: string, p: nat)
    requires p < |text| && IsIdentStartSymbol(text[p])
    requires ScanIdentOrReservedWord(text, p).Next?
    ensures Lexeme(text, ScanIdentOrReservedWord(text, p).token)
  {
  }

  lemma SingleLineCommentLexeme(text: string, p: nat)
    requires IsSingleLineCommentStart(text, p)
    ensures Lexeme(text, ScanSingleLineComment(text, p).token)
  {
  }

  lemma BraceCommentLexeme(text: string, p: nat)
    requires IsBraceMultiLineCommentStart(text, p)
    requires ScanBraceMultiLineComment(text, p).Next?
    ensures Lexeme(text, ScanBraceMultiLineComment(text, p).token)
  {
    var e := RunEnd(text, p, Until('}'));
    assert text[e - 1] != '}';
  }

  lemma ParenCommentLexeme(text: string, p: nat)
    requires IsParenMultiLineCommentStart(text, p)
    requires ScanParenMultiLineComment(text, p).Next?
    ensures Lexeme(text, ScanParenMultiLineComment(text, p).token)
  {
  }

  lemma NumberLexeme(text: string, p: nat)
    requires p < |text| && IsNumberStart(text[p]) && text[p] != '&'
    requires ScanNumber(text, p).Next?
    ensures Lexeme(text, ScanNumber(text, p).token)
  {
    assert NumberAlphabet(text[p]) != DecimalDigits;
  }

  lemma CharacterCodeLexeme(text: string, p: nat)
    requires p < |text| && text[p] == '#'
    requires ScanCharacterString(text, p).Next?
    ensures Lexeme(text, ScanCharacterString(text, p).token)
  {
  }

  lemma SymbolLexeme(text: string, p: nat)
    requires p < |text|
    requires ScanSymbol(text, p).Next?
    ensures Lexeme(text, ScanSymbol(text, p).token)
  {
  }

  /** Every token a dispatch produces, except the empty one at a quote, is a lexeme of its class. */
  lemma DispatchLexeme(text: string, p: nat)
    requires p < |text| && text[p] != '\''
    requires Dispatch(text, p).Next?
    ensures Lexeme(text, Dispatch(text, p).token)
  {
    var c := text[p];
    if IsIdentStartSymbol(c) {
      IdentifierLexeme(text, p);
    } else if IsSingleLineCommentStart(text, p) {
      SingleLineCommentLexeme(text, p);
    } else if IsBraceMultiLineCommentStart(text, p) {
      BraceCommentLexeme(text, p);
    } else if IsParenMultiLineCommentStart(text, p) {
      ParenCommentLexeme(text, p);
    } else if IsNumberStart(c) {
      NumberLexeme(text, p);
    } else if IsCharacterStringStart(c) {
      CharacterCodeLexeme(text, p);
    } else {
      SymbolLexeme(text, p);
    }
  }

  lemma {:induction false} LexFromLexemes(text: string, p: nat, acc: seq<Token>)
    requires p <= |text|
    requires forall i :: 0 <= i < |acc| ==> Lexeme(text, acc[i])
    ensures LexFrom(text, p, acc).Done? ==>
              forall i :: 0 <= i < |LexFrom(text, p, acc).tokens| ==> Lexeme(text, LexFrom(text, p, acc).tokens[i])
    decreases |text| - p
  {
    if p < |text| {
      match Dispatch(text, p)
      case Fail(_) =>
      case Next(tok, q) =>
        var r := SkipSeparators(text, q);
        if r != p {
          assert text[p] != '\'' by {
            if text[p] == '\'' { QuoteStalls(text, p, acc); }
          }
          DispatchLexeme(text, p);
          LexFromLexemes(text, r, acc + [tok]);
        }
    }
  }

  /** Every token of a successful run covers a lexeme of its class. */
  lemma LexLexemes(text: string)
    ensures Lex(text).Done? ==> forall i :: 0 <= i < |Lex(text).tokens| ==> Lexeme(text, Lex(text).tokens[i])
  {
    LexFromLexemes(text, 0, []);
  }

  // ---------------------------------------------------------------------------
  // Termination of the dispatch loop

  /** A run diverges only at a quote it dispatches on. */
  lemma {:induction false} DivergesOnlyAtQuote(text: string, p: nat, acc: seq<Token>)
    requires p <= |text|
    ensures LexFrom(text, p, acc).Diverges? ==>
              var at := LexFrom(text, p, acc).at; p <= at < |text| && text[at] == '\''
    decreases |text| - p
  {
    if p < |text| {
      match Dispatch(text, p)
      case Fail(_) =>
      case Next(tok, q) =>
        var r := SkipSeparators(text, q);
        if r != p {
          DivergesOnlyAtQuote(text, r, acc + [tok]);
        }
    }
  }

  /** When the run ends, the source's unbounded loop ends with the same result
      within one iteration per remaining character. */
  lemma LoopAgrees(text: string, p: nat, acc: seq<Token>, fuel: nat)
    requires p <= |text| && |text| - p <= fuel
    requires !LexFrom(text, p, acc).Diverges?
    ensures LexWithFuel(text, p, acc, fuel) == Finished(LexFrom(text, p, acc))
  {
    LexFromIsLoop(text, p, acc);
    BoundedLoopAgrees(text, DispatchAt(text), p, acc, fuel);
  }

  /** `Diverges` means non-termination: the source's loop runs out of any fuel. */
  lemma DivergenceIsNontermination(text: string, p: nat, acc: seq<Token>, fuel: nat)
    requires p <= |text|
    requires LexFrom(text, p, acc).Diverges?
    ensures LexWithFuel(text, p, acc, fuel) == OutOfFuel
  {
    LexFromIsLoop(text, p, acc);
    BoundedLoopDiverges(text, DispatchAt(text), p, acc, fuel);
  }

}
