/** The lexer's behaviour as functions of the text and a cursor: one function per
    sub-scanner (what one `Read*` call leaves behind), the dispatch of one loop
    iteration of `Lex`, and the whole run. The methods of class
    `PascalLexer.PascalLexer` are proved to compute exactly these. */
module PascalScan {
  import opened PascalReserved
  import opened PascalTokens

  // ---------------------------------------------------------------------------
  // Character classes

  predicate IsSymbolStart(c: char) {
    c in "'+-*/=<>[].,():^@{}$#&%"
  }

  predicate IsLineWhitespace(c: char) {
    c == ' ' || c == '\t'
  }

  predicate IsIdentStartSymbol(c: char) {
    c == '_' || 'a' <= c <= 'z' || 'A' <= c <= 'Z' || c == '&'
  }

  predicate IsIdentSymbol(c: char) {
    c == '_' || 'a' <= c <= 'z' || 'A' <= c <= 'Z' || '0' <= c <= '9'
  }

  predicate IsNumberStart(c: char) {
    c in "$%&" || '0' <= c <= '9'
  }

  predicate IsCharacterStringStart(c: char) {
    c == '\'' || c == '#'
  }

  /** The characters `ReadWhitespaces` skips after every token. */
  predicate IsSeparator(c: char) {
    c in " \t\n;"
  }

  predicate IsDecimalDigit(c: char) {
    '0' <= c <= '9'
  }

  // ---------------------------------------------------------------------------
  // Cursor tests (the lexer's instance predicates, with the cursor made explicit)

  predicate IsTwoCharSymbol(text: string, p: nat) {
    p < |text| - 1 && IsTwoCharSymbolPair(text[p], text[p + 1])
  }

  predicate IsOneCharSymbol(text: string, p: nat) {
    p < |text| && IsOneCharSymbolChar(text[p])
  }

  predicate IsSingleLineCommentStart(text: string, p: nat) {
    p < |text| - 1 && text[p] == '/' && text[p + 1] == '/'
  }

  predicate IsBraceMultiLineCommentStart(text: string, p: nat) {
    p < |text| && text[p] == '{'
  }

  predicate IsParenMultiLineCommentStart(text: string, p: nat) {
    p < |text| - 1 && text[p] == '(' && text[p + 1] == '*'
  }

  // ---------------------------------------------------------------------------
  // Runs of characters

  /** The character classes that the scanners' `while` loops advance over. */
  datatype CharRun =
    | IdentChars              // ReadIdentOrReservedWord
    | DigitsOf(alphabet: string) // ReadDigitSequence
    | DecimalChars            // the `#` branch of ReadCharacterString
    | Until(stop: char)       // the comment loops: anything but `stop`
    | Separators              // ReadWhitespaces

  predicate InRun(c: char, run: CharRun) {
    match run
    case IdentChars => IsIdentSymbol(c)
    case DigitsOf(alphabet) => c in alphabet
    case DecimalChars => IsDecimalDigit(c)
    case Until(stop) => c != stop
    case Separators => IsSeparator(c)
  }

  /** Where a loop that advances over `run` from `i` stops: the end of the
      maximal run of such characters. */
  function RunEnd(text: string, i: nat, run: CharRun): (e: nat)
    requires i <= |text|
    ensures i <= e <= |text|
    ensures forall k :: i <= k < e ==> InRun(text[k], run)
    ensures e == |text| || !InRun(text[e], run)
    decreases |text| - i
  {
    if i < |text| && InRun(text[i], run) then RunEnd(text, i + 1, run) else i
  }

  function SkipSeparators(text: string, i: nat): (e: nat)
    requires i <= |text|
    ensures i <= e <= |text|
  {
    RunEnd(text, i, Separators)
  }

  // ---------------------------------------------------------------------------
  // One sub-scanner

  /** The effect of one sub-scanner: the token it appends and the cursor it
      leaves, or the failure it raises. */
  datatype Step = Next(token: Token, next: nat) | Fail(failure: Failure)

  /** A scanner that succeeds appends a token from the cursor `p` it started
      at to the cursor it leaves. */
  predicate Advances(text: string, p: nat, s: Step) {
    s.Next? ==> s.token.range == TokenRange(p, s.next) && p <= s.next <= |text|
  }

  /** The class of an identifier-shaped word: reserved words first, then modifiers. */
  function Classify(word: string): TokenKind {
    if IsReservedWord(word) then ReservedWord
    else if IsModifier(word) then Modifier
    else Identifier
  }

  function ScanIdentOrReservedWord(text: string, p: nat): (s: Step)
    requires p < |text|
    ensures Advances(text, p, s)
  {
    var e := RunEnd(text, p, IdentChars);
    if e >= |text| || (!IsLineWhitespace(text[e]) && text[e] != ';') then
      Fail(LexingException(e))
    else
      Next(Token(Classify(text[p..e]), TokenRange(p, e)), e)
  }

  function ScanSingleLineComment(text: string, p: nat): (s: Step)
    requires p < |text|
    ensures Advances(text, p, s)
  {
    var e := RunEnd(text, p, Until('\n'));
    Next(Token(SingleLineComment, TokenRange(p, e)), e)
  }

  /** A paren-comment closer at `k`: the `)` of a `*)` pair. */
  predicate Closes(text: string, k: int) {
    1 <= k < |text| && text[k - 1] == '*' && text[k] == ')'
  }

  /** Where the loop of `ReadParenMultiLineComment` stops when started at `i`:
      at the first closer below the last index, else at the last index. The
      precondition excludes the first test at offset 0, which reads `text[-1]`. */
  function ParenEnd(text: string, i: nat): (e: nat)
    requires i <= |text|
    requires i < |text| - 1 ==> 1 <= i
    ensures i <= e
    ensures e == i || e <= |text| - 1
    ensures forall k :: i <= k < e ==> !Closes(text, k)
    ensures e < |text| - 1 ==> Closes(text, e)
    decreases |text| - i
  {
    if i < |text| - 1 && !(text[i - 1] == '*' && text[i] == ')') then ParenEnd(text, i + 1) else i
  }

  function ScanParenMultiLineComment(text: string, p: nat): (s: Step)
    requires p < |text|
    ensures Advances(text, p, s)
  {
    if p < |text| - 1 && p == 0 then
      Fail(IndexOutOfRange(-1))
    else
      var e := ParenEnd(text, p);
      if e == |text| - 1 then
        // the closing test reads text[e + 1] == text[|text|] when text[e] is '*'
        if text[e] == '*' then Fail(IndexOutOfRange(|text|)) else Fail(LexingException(e))
      else
        Next(Token(MultiLineComment, TokenRange(p, e)), e)
  }

  function ScanBraceMultiLineComment(text: string, p: nat): (s: Step)
    requires p < |text|
    ensures Advances(text, p, s)
  {
    var e := RunEnd(text, p, Until('}'));
    if e == |text| && text[e - 1] != '}' then
      Fail(LexingException(e))
    else
      Next(Token(MultiLineComment, TokenRange(p, e)), e)
  }

  function ScanSymbol(text: string, p: nat): (s: Step)
    requires p < |text|
    ensures Advances(text, p, s)
  {
    if IsTwoCharSymbol(text, p) then Next(Token(Symbol, TokenRange(p, p + 2)), p + 2)
    else if IsOneCharSymbol(text, p) then Next(Token(Symbol, TokenRange(p, p + 1)), p + 1)
    else Fail(LexingException(p))
  }

  /** The outcome of `ReadDigitSequence` from `i`: the cursor after a non-empty
      run of `alphabet`, or the failure at `i` when there is none. */
  function DigitSequence(text: string, i: nat, alphabet: string): (s: Stop)
    requires i <= |text|
    ensures s.At? ==> i < s.at <= |text|
    ensures s.At? ==> forall k :: i <= k < s.at ==> text[k] in alphabet
    ensures s.At? ==> s.at == |text| || text[s.at] !in alphabet
    ensures s.Raised? ==> s.failure == LexingException(i)
    ensures s.Raised? <==> i == |text| || text[i] !in alphabet
  {
    var e := RunEnd(text, i, DigitsOf(alphabet));
    if e == i then Raised(LexingException(i)) else At(e)
  }

  /** Where a loop leaves the cursor, or the failure it raises. */
  datatype Stop = At(at: nat) | Raised(failure: Failure)

  /** The digit alphabet that `ReadNumber` selects by the character `c` at the
      cursor, if `c` is one it accepts. An unprefixed literal gets the octal digits. */
  function NumberAlphabet(c: char): string {
    if c == '%' then BinaryDigits
    else if c == '&' then OctalDigits
    else if c == '$' then HexDigits
    else OctalDigits
  }

  predicate IsNumberPrefix(c: char) {
    c == '%' || c == '&' || c == '$' || '0' <= c <= '9'
  }

  function ScanNumber(text: string, p: nat): (s: Step)
    requires p < |text|
    ensures Advances(text, p, s)
  {
    var q := if text[p] == '-' then p + 1 else p;
    if q >= |text| then Fail(LexingException(q))
    else if !IsNumberPrefix(text[q]) then Fail(LexingException(q))
    else
      var alphabet := NumberAlphabet(text[q]);
      var r := if alphabet != DecimalDigits then q + 1 else q;
      if r >= |text| then Fail(LexingException(r))
      else
        match DigitSequence(text, r, alphabet)
        case Raised(f) => Fail(f)
        case At(e) =>
          if alphabet != DecimalDigits then Next(Token(Number, TokenRange(p, e)), e)
          else
            // the fraction and exponent part is never reached: no prefix selects the decimal digits
            assert false; Fail(LexingException(e))
  }

  /** Where the loop of the `'` branch of `ReadCharacterString` stops from `i`:
      at the next quote or the end of the text, failing at a newline first. */
  function QuotedEnd(text: string, i: nat): (s: Stop)
    requires i <= |text|
    ensures s.At? ==> i <= s.at <= |text| && (s.at == |text| || text[s.at] == '\'')
    ensures s.At? ==> forall k :: i <= k < s.at ==> text[k] != '\'' && text[k] != '\n'
    ensures s.Raised? ==> s.failure.LexingException? && i <= s.failure.position < |text| &&
                          text[s.failure.position] == '\n'
    ensures s.Raised? ==> forall k :: i <= k < s.failure.position ==> text[k] != '\''
    decreases |text| - i
  {
    if i != |text| && text[i] != '\'' then
      if text[i] == '\n' then Raised(LexingException(i)) else QuotedEnd(text, i + 1)
    else At(i)
  }

  /** The `'` branch of `ReadCharacterString`: the quote loop from `p` and the
      end-of-text test after it. It is stated for any cursor; `ScanCharacterString`
      calls it only at a quote, where the loop stops at once. */
  function ScanQuoted(text: string, p: nat): (s: Step)
    requires p < |text|
    ensures Advances(text, p, s)
  {
    match QuotedEnd(text, p)
    case Raised(f) => Fail(f)
    case At(e) =>
      if e == |text| && text[e - 1] != '\'' then Fail(LexingException(e))
      else Next(Token(CharacterString, TokenRange(p, e)), e)
  }

  function ScanCharacterString(text: string, p: nat): (s: Step)
    requires p < |text|
    ensures Advances(text, p, s)
  {
    if text[p] == '#' then
      var e := RunEnd(text, p + 1, DecimalChars);
      if e == p + 1 || (e == |text| && !IsDecimalDigit(text[e - 1])) then Fail(LexingException(e))
      else Next(Token(CharacterString, TokenRange(p, e)), e)
    else if text[p] == '\'' then ScanQuoted(text, p)
    else
      Fail(LexingException(p))
  }

  // ---------------------------------------------------------------------------
  // The dispatch loop

  /** The sub-scanner one iteration of `Lex` runs at cursor `p`, chosen in the
      order: identifier, `//`, `{`, `(*`, number, string, symbol. Every scanner
      moves the cursor forward except the one for a quote. */
  function Dispatch(text: string, p: nat): (s: Step)
    requires p < |text|
    ensures Advances(text, p, s)
    ensures s.Next? && text[p] != '\'' ==> p < s.next
    ensures s.Next? ==> !IsSeparator(text[p])
  {
    var c := text[p];
    if IsIdentStartSymbol(c) then ScanIdentOrReservedWord(text, p)
    else if IsSingleLineCommentStart(text, p) then ScanSingleLineComment(text, p)
    else if IsBraceMultiLineCommentStart(text, p) then ScanBraceMultiLineComment(text, p)
    else if IsParenMultiLineCommentStart(text, p) then ScanParenMultiLineComment(text, p)
    else if IsNumberStart(c) then ScanNumber(text, p)
    else if IsCharacterStringStart(c) then ScanCharacterString(text, p)
    else if IsSymbolStart(c) then ScanSymbol(text, p)
    else Fail(LexingException(p))
  }

  /** How a lexing run ends: with its tokens, with a failure, or by repeating
      at cursor `at` forever (an iteration that leaves the cursor where it was). */
  datatype Outcome = Done(tokens: seq<Token>) | Failed(failure: Failure) | Diverges(at: nat)

  /** The run of the dispatch loop from cursor `p`, with `acc` already emitted.
      An iteration that makes no progress ends the run with `Diverges`: the
      next iteration would start from the same cursor and repeat it. */
  function LexFrom(text: string, p: nat, acc: seq<Token>): Outcome
    requires p <= |text|
    decreases |text| - p
  {
    if p == |text| then Done(acc)
    else
      match Dispatch(text, p)
      case Fail(f) => Failed(f)
      case Next(tok, q) =>
        var r := SkipSeparators(text, q);
        if r == p then Diverges(p) else LexFrom(text, r, acc + [tok])
  }

  /** Lexing a whole text, from offset 0 with no tokens yet. */
  function Lex(text: string): Outcome {
    LexFrom(text, 0, [])
  }

  /** What a `Lex` call that stops after at most `fuel` iterations returns. */
  datatype Bounded = Finished(outcome: Outcome) | OutOfFuel
}
