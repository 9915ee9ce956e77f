/** The lexer object: the text, its length, the cursor `pos` and the token list,
    with one method per scanner. A C# exception becomes a returned `Thrown`
    status that the caller passes straight up, as the exception would propagate. */
module PascalLexer {
  import opened PascalReserved
  import opened PascalTokens
  import opened PascalScan

  /** How a `Read*` method returns: normally, or by throwing `failure`. */
  datatype Status = Normal | Thrown(failure: Failure)

  class PascalLexer {
    const text: string
    const length: nat
    var tokens: seq<Token>
    var pos: nat

    ghost predicate Valid()
      reads this
    {
      length == |text| && pos <= length
    }

    /** After a scanner whose specification is `s`, started with token list
        `before`: on success the token is appended and the cursor is where `s`
        says; on failure the failure is thrown and no token is appended. */
    ghost predicate Performed(s: Step, before: seq<Token>, st: Status)
      reads this
    {
      match s
      case Next(tok, q) => st == Normal && pos == q && tokens == before + [tok]
      case Fail(f) => st == Thrown(f) && tokens == before
    }

    constructor (text: string)
      ensures Valid()
      ensures this.text == text && tokens == [] && pos == 0
    {
      this.text := text;
      this.length := |text|;
      this.tokens := [];
      this.pos := 0;
    }

    method ReadIdentOrReservedWord() returns (st: Status)
      requires Valid() && pos < length
      modifies this
      ensures Valid()
      ensures Performed(ScanIdentOrReservedWord(text, old(pos)), old(tokens), st)
    {
      var startPos := pos;
      while pos < length && IsIdentSymbol(text[pos])
        invariant startPos <= pos <= length
        invariant tokens == old(tokens)
        invariant RunEnd(text, pos, IdentChars) == RunEnd(text, startPos, IdentChars)
        decreases length - pos
      {
        pos := pos + 1;
      }
      if pos >= length || (!IsLineWhitespace(text[pos]) && text[pos] != ';') {
        return Thrown(LexingException(pos));
      }
      var word := text[startPos..pos];
      var token: Token;
      if IsReservedWord(word) {
        token := Token(ReservedWord, TokenRange(startPos, pos));
      } else if IsModifier(word) {
        token := Token(Modifier, TokenRange(startPos, pos));
      } else {
        token := Token(Identifier, TokenRange(startPos, pos));
      }
      tokens := tokens + [token];
      return Normal;
    }

    method ReadSingleLineComment() returns (st: Status)
      requires Valid() && pos < length
      modifies this
      ensures Valid()
      ensures Performed(ScanSingleLineComment(text, old(pos)), old(tokens), st)
    {
      var startPos := pos;
      while pos < length && text[pos] != '\n'
        invariant startPos <= pos <= length
        invariant tokens == old(tokens)
        invariant RunEnd(text, pos, Until('\n')) == RunEnd(text, startPos, Until('\n'))
        decreases length - pos
      {
        pos := pos + 1;
      }
      tokens := tokens + [Token(SingleLineComment, TokenRange(startPos, pos))];
      return Normal;
    }

    method ReadParenMultiLineComment() returns (st: Status)
      requires Valid() && pos < length
      modifies this
      ensures Valid()
      ensures Performed(ScanParenMultiLineComment(text, old(pos)), old(tokens), st)
    {
      var startPos := pos;
      while pos < length - 1
        invariant startPos <= pos <= length
        invariant tokens == old(tokens)
        invariant pos == startPos || pos <= length - 1
        invariant startPos == 0 && 0 < length - 1 ==> pos == 0
        invariant !(startPos == 0 && 0 < length - 1) ==> ParenEnd(text, pos) == ParenEnd(text, startPos)
        decreases length - pos
      {
        if pos == 0 {
          // the loop test reads text[pos - 1]
          return Thrown(IndexOutOfRange(-1));
        }
        if text[pos - 1] == '*' && text[pos] == ')' {
          break;
        }
        pos := pos + 1;
      }
      if pos == length - 1 {
        if text[pos] == '*' {
          // the test reads text[pos + 1], past the end
          return Thrown(IndexOutOfRange(length));
        }
        return Thrown(LexingException(pos));
      }
      tokens := tokens + [Token(MultiLineComment, TokenRange(startPos, pos))];
      return Normal;
    }

    method ReadBraceMultiLineComment() returns (st: Status)
      requires Valid() && pos < length
      modifies this
      ensures Valid()
      ensures Performed(ScanBraceMultiLineComment(text, old(pos)), old(tokens), st)
    {
      var startPos := pos;
      while pos < length && text[pos] != '}'
        invariant startPos <= pos <= length
        invariant tokens == old(tokens)
        invariant RunEnd(text, pos, Until('}')) == RunEnd(text, startPos, Until('}'))
        decreases length - pos
      {
        pos := pos + 1;
      }
      if pos == length && text[pos - 1] != '}' {
        return Thrown(LexingException(pos));
      }
      tokens := tokens + [Token(MultiLineComment, TokenRange(startPos, pos))];
      return Normal;
    }

    method ReadSymbol() returns (st: Status)
      requires Valid() && pos < length
      modifies this
      ensures Valid()
      ensures Performed(ScanSymbol(text, old(pos)), old(tokens), st)
    {
      var range: TokenRange;
      if IsTwoCharSymbol(text, pos) {
        range := TokenRange(pos, pos + 2);
        pos := pos + 2;
      } else if IsOneCharSymbol(text, pos) {
        range := TokenRange(pos, pos + 1);
        pos := pos + 1;
      } else {
        return Thrown(LexingException(pos));
      }
      tokens := tokens + [Token(Symbol, range)];
      return Normal;
    }

    method ReadDigitSequence(allowedDigits: string) returns (st: Status)
      requires Valid()
      modifies this`pos
      ensures Valid()
      ensures match DigitSequence(text, old(pos), allowedDigits)
              case At(e) => st == Normal && pos == e
              case Raised(f) => st == Thrown(f)
    {
      var startPos := pos;
      var readDigits := false;
      while pos < length && text[pos] in allowedDigits
        invariant startPos <= pos <= length
        invariant tokens == old(tokens)
        invariant readDigits == (startPos < pos)
        invariant RunEnd(text, pos, DigitsOf(allowedDigits)) == RunEnd(text, startPos, DigitsOf(allowedDigits))
        decreases length - pos
      {
        readDigits := true;
        pos := pos + 1;
      }
      if !readDigits {
        return Thrown(LexingException(pos));
      }
      return Normal;
    }

    method ReadNumber() returns (st: Status)
      requires Valid() && pos < length
      modifies this
      ensures Valid()
      ensures Performed(ScanNumber(text, old(pos)), old(tokens), st)
    {
      var startPos := pos;
      if text[pos] == '-' {
        pos := pos + 1;
      }
      if pos >= length {
        return Thrown(LexingException(pos));
      }
      var allowedDigits: string;
      if text[pos] == '%' {
        allowedDigits := BinaryDigits;
      } else if text[pos] == '&' {
        allowedDigits := OctalDigits;
      } else if text[pos] == '$' {
        allowedDigits := HexDigits;
      } else if '0' <= text[pos] <= '9' {
        allowedDigits := OctalDigits;
      } else {
        return Thrown(LexingException(pos));
      }
      assert allowedDigits == NumberAlphabet(text[pos]);
      if allowedDigits != DecimalDigits {
        pos := pos + 1;
      }
      if pos >= length {
        return Thrown(LexingException(pos));
      }
      st := ReadDigitSequence(allowedDigits);
      if st.Thrown? {
        return st;
      }
      if allowedDigits != DecimalDigits {
        tokens := tokens + [Token(Number, TokenRange(startPos, pos))];
        return Normal;
      }
      // the fraction and exponent part that follows in the source is never
      // reached: no prefix selects the decimal digits
      assert false;
    }

    /** The `'` branch of `ReadCharacterString`: the loop up to the next quote
        and the end-of-text test. `ReadCharacterString` calls it at a quote,
        where the loop stops at once. */
    method ReadQuoted() returns (st: Status)
      requires Valid() && pos < length
      modifies this
      ensures Valid()
      ensures Performed(ScanQuoted(text, old(pos)), old(tokens), st)
    {
      var startPos := pos;
      while pos != length && text[pos] != '\''
        invariant startPos <= pos <= length
        invariant tokens == old(tokens)
        invariant QuotedEnd(text, pos) == QuotedEnd(text, startPos)
        decreases length - pos
      {
        if text[pos] == '\n' {
          return Thrown(LexingException(pos));
        }
        pos := pos + 1;
      }
      if pos == length && text[pos - 1] != '\'' {
        return Thrown(LexingException(pos));
      }
      tokens := tokens + [Token(CharacterString, TokenRange(startPos, pos))];
      return Normal;
    }

    method ReadCharacterString() returns (st: Status)
      requires Valid() && pos < length
      modifies this
      ensures Valid()
      ensures Performed(ScanCharacterString(text, old(pos)), old(tokens), st)
    {
      var startPos := pos;
      if text[pos] == '#' {
        pos := pos + 1;
        var isRead := false;
        while pos < length && '0' <= text[pos] <= '9'
          invariant startPos + 1 <= pos <= length
          invariant tokens == old(tokens)
          invariant isRead == (startPos + 1 < pos)
          invariant RunEnd(text, pos, DecimalChars) == RunEnd(text, startPos + 1, DecimalChars)
          decreases length - pos
        {
          isRead := true;
          pos := pos + 1;
        }
        if !isRead || (pos == length && !('0' <= text[pos - 1] <= '9')) {
          return Thrown(LexingException(pos));
        }
      } else if text[pos] == '\'' {
        st := ReadQuoted();
        return st;
      } else {
        return Thrown(LexingException(pos));
      }
      tokens := tokens + [Token(CharacterString, TokenRange(startPos, pos))];
      return Normal;
    }

    method ReadWhitespaces()
      requires Valid()
      modifies this`pos
      ensures Valid()
      ensures pos == SkipSeparators(text, old(pos))
    {
      while pos < length && text[pos] in " \t\n;"
        invariant old(pos) <= pos <= length
        invariant RunEnd(text, pos, Separators) == RunEnd(text, old(pos), Separators)
        decreases length - pos
      {
        pos := pos + 1;
      }
    }

    /** The dispatch loop. It returns the tokens when the cursor reaches the end
        of the text and the failure a scanner throws. When an iteration leaves
        the cursor where it started, the source's loop repeats that iteration
        forever; the model returns `Diverges` there instead. */
    method Lex() returns (o: Outcome)
      requires Valid()
      modifies this
      ensures Valid()
      ensures o == LexFrom(text, old(pos), old(tokens))
      ensures o.Done? ==> tokens == o.tokens && pos == length
    {
      while pos < length
        invariant Valid()
        invariant LexFrom(text, pos, tokens) == LexFrom(text, old(pos), old(tokens))
        decreases length - pos
      {
        var start := pos;
        var c := text[pos];
        var st: Status;
        if IsIdentStartSymbol(c) {
          st := ReadIdentOrReservedWord();
        } else if IsSingleLineCommentStart(text, pos) {
          st := ReadSingleLineComment();
        } else if IsBraceMultiLineCommentStart(text, pos) {
          st := ReadBraceMultiLineComment();
        } else if IsParenMultiLineCommentStart(text, pos) {
          st := ReadParenMultiLineComment();
        } else if IsNumberStart(c) {
          st := ReadNumber();
        } else if IsCharacterStringStart(c) {
          st := ReadCharacterString();
        } else if IsSymbolStart(c) {
          st := ReadSymbol();
        } else {
          st := Thrown(LexingException(pos));
        }
        if st.Thrown? {
          return Failed(st.failure);
        }
        ReadWhitespaces();
        if pos == start {
          return Diverges(start);
        }
      }
      return Done(tokens);
    }
  }
}
