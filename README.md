# Pascal lexer and arithmetic parser, modelled in Dafny

This project models two small C# components and proves properties of them.

The first is a hand-written lexer for Pascal source text (`PascalLexer`). A `Lex` loop looks at the character
under the cursor and picks one of several sub-scanners. These read identifiers and reserved words, `//`,
`{ }` and `(* *)` comments, numbers with a `%` or `$` prefix or a leading digit, `#` character codes,
quoted strings and symbols. The number scanner also knows an `&` prefix, but from `Lex` an `&` always
goes to the identifier scanner and fails there (`AmpersandFails`). Each sub-scanner appends one token
(a class plus a half-open offset range) and leaves the cursor after it. The exception is the quoted-
string scanner: its loop starts on the opening quote, so it appends an empty token and leaves the
cursor on the quote (`QuoteStalls`). The loop then skips the separators (space, tab, newline, `;`). A
scanner that cannot go on throws a `LexingException` carrying the offset.

The second is a recursive-descent parser for one-character literals and variables, `+ - * /` and
parentheses (`SimpleParser`). Its `DumpVisitor` prints a tree as `Binary(Literal(1)+Literal(2))`.

The model comes in three layers:

* **Specification functions.** `PascalScan` describes each sub-scanner as a pure function of the text and
  the cursor. These functions return the token and the next cursor, or a failure. `Dispatch` is one loop
  iteration and `LexFrom`/`Lex` is the whole run. `Expressions` and `SimpleParser` are the tree, its text
  (`Unparse`), its dump (`Dump`) and the parsing functions. The parsing functions follow the source
  function by function, as total functions on the text and an index.
* **The imperative source, proved against them.** `PascalLexer.PascalLexer` is the lexer object, with
  `text`, `length`, the mutable `tokens` list and the cursor `pos`. Each `Read*` method keeps the source's
  `while` loop, and its postcondition ties the new `pos` and `tokens` to the scanner function.
  `Lex` is proved to return `LexFrom` of the initial state. `DumpVisitors.DumpVisitor` is the visitor,
  with its mutable `builder`: `Accept` appends exactly `Dump(e)`.
* **Properties.** `PascalLexerFacts` and `PascalLoop` cover dispatch per starting character, coverage
  and ordering of the tokens, the lexeme under each token, and termination. `ParserFacts` covers
  soundness of every parsing function and completeness of the corrected parser, which makes it the
  inverse of `Unparse` on canonical trees. `PascalLexerScenarios` and `ParserScenarios` work through
  the repositories' test inputs.

The parser is written once with a `Version` parameter. `AsWritten` is the source's behaviour: the
left operand is rotated in one level deep, and a parenthesised expression is tried before a
multiplication. `Corrected` grafts the left operand onto the left end of the whole chain and tries the
multiplication first (see "## Findings"). Every test lemma is proved for both versions.

Where the code and its test suites disagree, the model follows the code. The lexer lemmas state what the
code returns on those inputs (see "## Left out").

## Model

| member | source | states |
|---|---|---|
| PascalScan.RunEnd | PascalLexer/PascalLexer/PascalLexer.cs:290-294 | the cursor a scanner's `while` loop stops at is the end of the maximal run of its character class |
| PascalScan.ParenEnd | PascalLexer/PascalLexer/PascalLexer.cs:331-334 | the `(*` loop stops at the first `*)` closer below the last index, or at the last index; no closer lies before the stop |
| PascalScan.DigitSequence | PascalLexer/PascalLexer/PascalLexer.cs:380-392 | the run succeeds exactly when an allowed digit is at the start; it then stops at the end of the maximal run of allowed digits, past at least one, and otherwise raises `LexingException` at the start |
| PascalScan.Dispatch | PascalLexer/PascalLexer/PascalLexer.cs:583-617 | one iteration appends a token spanning the old to the new cursor, moves forward except at a quote, and never succeeds on a separator |
| PascalReserved.IsReservedWord | PascalLexer/PascalLexer/PascalLexer.cs:10-83 | membership in the reserved-word list; `SharedWords` and `ClassifyExamples` state what follows from the list |
| PascalReserved.IsModifier | PascalLexer/PascalLexer/PascalLexer.cs:85-147 | membership in the modifier list; its overlap with the reserved words is exactly `absolute` and `reintroduce` (`SharedWords`) |
| PascalReserved.IsTwoCharSymbolPair | PascalLexer/PascalLexer/PascalLexer.cs:149-151 | membership of a character pair in the two-character symbol list; `SymbolDispatch` states how the scanner uses it |
| PascalReserved.IsOneCharSymbolChar | PascalLexer/PascalLexer/PascalLexer.cs:153-155 | membership of a character in the one-character symbol list; `SymbolLexeme` states that every one-character symbol token is in it |
| PascalScan.IsSymbolStart | PascalLexer/PascalLexer/PascalLexer.cs:552-555 | the source's symbol-start characters |
| PascalScan.IsLineWhitespace | PascalLexer/PascalLexer/PascalLexer.cs:557-560 | space and tab, the characters an identifier may be followed by besides `;` (`IdentifierDispatch`) |
| PascalScan.IsIdentStartSymbol | PascalLexer/PascalLexer/PascalLexer.cs:562-565 | the identifier-start characters, including `&`, which cannot continue an identifier (`AmpersandFails`) |
| PascalScan.IsIdentSymbol | PascalLexer/PascalLexer/PascalLexer.cs:567-570 | the characters an identifier continues with |
| PascalScan.IsNumberStart | PascalLexer/PascalLexer/PascalLexer.cs:572-575 | the number-start characters `$ % &` and the digits; `-` is not one (`MinusIsSymbol`) |
| PascalScan.IsCharacterStringStart | PascalLexer/PascalLexer/PascalLexer.cs:576-579 | `'` and `#` |
| PascalScan.IsSeparator | PascalLexer/PascalLexer/PascalLexer.cs:519-525 | the characters `ReadWhitespaces` skips; no token starts at one (`Dispatch`, `LexStart`) |
| PascalScan.IsDecimalDigit | PascalLexer/PascalLexer/PascalLexer.cs:485 | the digits the `#` branch reads |
| PascalScan.IsTwoCharSymbol | PascalLexer/PascalLexer/PascalLexer.cs:527-530 | a two-character symbol starts at the cursor, which must be below the last index |
| PascalScan.IsOneCharSymbol | PascalLexer/PascalLexer/PascalLexer.cs:532-535 | a one-character symbol is at the cursor |
| PascalScan.IsSingleLineCommentStart | PascalLexer/PascalLexer/PascalLexer.cs:537-540 | `//` at the cursor, below the last index |
| PascalScan.IsBraceMultiLineCommentStart | PascalLexer/PascalLexer/PascalLexer.cs:542-545 | `{` at the cursor |
| PascalScan.IsParenMultiLineCommentStart | PascalLexer/PascalLexer/PascalLexer.cs:547-550 | `(*` at the cursor, below the last index |
| PascalScan.Classify | PascalLexer/PascalLexer/PascalLexer.cs:302-313 | the class of a word, with reserved words looked up before modifiers (`SharedWords`) |
| PascalScan.SkipSeparators | PascalLexer/PascalLexer/PascalLexer.cs:519-525 | the cursor after the separators stays within the text and never moves back; `LexFromNext` gives where it stops |
| PascalScan.ScanIdentOrReservedWord | PascalLexer/PascalLexer/PascalLexer.cs:286-316 | a token spans the cursor to the new cursor; `IdentifierDispatch` gives the whole result and `IdentifierLexeme` the word under the token |
| PascalScan.ScanSingleLineComment | PascalLexer/PascalLexer/PascalLexer.cs:318-326 | a token spans the cursor to the new cursor; `SingleLineCommentDispatch` and `SingleLineCommentLexeme` give its extent |
| PascalScan.Closes | PascalLexer/PascalLexer/PascalLexer.cs:331 | the `)` of a `*)` pair, the stop test of the paren-comment loop |
| PascalScan.ScanParenMultiLineComment | PascalLexer/PascalLexer/PascalLexer.cs:328-342 | a token spans the cursor to the new cursor; `ParenCommentDispatch`, `UnterminatedParenComment` and `ParenCommentAtStartCrashes` give every outcome |
| PascalScan.ScanBraceMultiLineComment | PascalLexer/PascalLexer/PascalLexer.cs:344-358 | a token spans the cursor to the new cursor; `BraceCommentDispatch` and `UnterminatedBraceComment` give both outcomes |
| PascalScan.ScanSymbol | PascalLexer/PascalLexer/PascalLexer.cs:360-378 | a token spans the cursor to the new cursor; `SymbolDispatch` and `SymbolLexeme` give its length |
| PascalScan.NumberAlphabet | PascalLexer/PascalLexer/PascalLexer.cs:407-427 | the digit alphabet chosen by the prefix, octal for a leading digit |
| PascalScan.ScanNumber | PascalLexer/PascalLexer/PascalLexer.cs:394-476 | a token spans the cursor to the new cursor; `NumberScan` and `NumberLexeme` give its extent, and the fraction branch is proved unreachable |
| PascalScan.QuotedEnd | PascalLexer/PascalLexer/PascalLexer.cs:498-505 | the quote loop stops at the first quote or at the end, or fails at a newline met before any quote |
| PascalScan.ScanQuoted | PascalLexer/PascalLexer/PascalLexer.cs:496-511 | a token spans the cursor to the new cursor |
| PascalScan.ScanCharacterString | PascalLexer/PascalLexer/PascalLexer.cs:478-517 | a token spans the cursor to the new cursor; `CharacterCodeDispatch` and `QuoteStalls` give both branches from `Lex` |
| PascalScan.LexFrom | PascalLexer/PascalLexer/PascalLexer.cs:583-620 | the dispatch loop from a cursor; `LexTiles`, `LexLexemes`, `DivergesOnlyAtQuote` and `LoopAgrees` state what it returns |
| PascalScan.Lex | PascalLexer/PascalLexer/PascalLexer.cs:581-623 | the whole run from offset 0 with no tokens; the `PascalLexerFacts` lemmas on `Lex` state its properties |
| PascalLoop.LexWithFuel | PascalLexer/PascalLexer/PascalLexer.cs:583-620 | the source's loop without the progress test, bounded by fuel; `LoopAgrees` and `DivergenceIsNontermination` relate it to `LexFrom` |
| PascalLexer.PascalLexer.constructor | PascalLexer/PascalLexer/PascalLexer.cs:278-284 | a fresh lexer holds the text, no tokens and cursor 0 |
| PascalLexer.PascalLexer.ReadIdentOrReservedWord | PascalLexer/PascalLexer/PascalLexer.cs:286-316 | the loop and the follow-character test leave the cursor and token list that `ScanIdentOrReservedWord` specifies, or throw its failure |
| PascalLexer.PascalLexer.ReadSingleLineComment | PascalLexer/PascalLexer/PascalLexer.cs:318-326 | appends the comment up to the next newline or the end |
| PascalLexer.PascalLexer.ReadParenMultiLineComment | PascalLexer/PascalLexer/PascalLexer.cs:328-342 | matches `ScanParenMultiLineComment`, including the read of `text[-1]` at offset 0 and of `text[length]`, both raised as index errors |
| PascalLexer.PascalLexer.ReadBraceMultiLineComment | PascalLexer/PascalLexer/PascalLexer.cs:344-358 | appends the comment up to the first `}`, or throws at the end of the text |
| PascalLexer.PascalLexer.ReadSymbol | PascalLexer/PascalLexer/PascalLexer.cs:360-378 | a two-character symbol before a one-character one, with a failure otherwise |
| PascalLexer.PascalLexer.ReadDigitSequence | PascalLexer/PascalLexer/PascalLexer.cs:380-392 | moves the cursor where `DigitSequence` says, or throws at the unmoved cursor |
| PascalLexer.PascalLexer.ReadNumber | PascalLexer/PascalLexer/PascalLexer.cs:394-476 | sign, prefix selection, prefix skip and digit run as `ScanNumber` specifies |
| PascalLexer.PascalLexer.ReadQuoted | PascalLexer/PascalLexer/PascalLexer.cs:496-511 | the quote loop stops at a quote or the end, throws at a newline before that, and then applies the end-of-text test |
| PascalLexer.PascalLexer.ReadCharacterString | PascalLexer/PascalLexer/PascalLexer.cs:478-517 | the `#` digits branch, the quote branch and the failure branch as `ScanCharacterString` specifies |
| PascalLexer.PascalLexer.ReadWhitespaces | PascalLexer/PascalLexer/PascalLexer.cs:519-525 | the cursor moves to the end of the run of space, tab, newline and `;` |
| PascalLexer.PascalLexer.Lex | PascalLexer/PascalLexer/PascalLexer.cs:581-623 | the loop's result is `LexFrom` of the starting state; on success the token list is the result and the cursor is at the end |
| PascalLexerFacts.RunEndUnique | PascalLexer/PascalLexer/PascalLexer.cs:290-294 | any end of a maximal run is the one the loop finds |
| PascalLexerFacts.IdentifierDispatch | PascalLexer/PascalLexer/PascalLexer.cs:286-316 | a word needs a space, tab or `;` after it, else the run fails where the word ends; its class comes from the word tables |
| PascalLexerFacts.AmpersandFails | PascalLexer/PascalLexer/PascalLexer.cs:562-570 | `&` starts an identifier but cannot continue one, so it always fails at its own offset |
| PascalLexerFacts.SharedWords | PascalLexer/PascalLexer/PascalLexer.cs:10-147 | the words in both tables are exactly `absolute` and `reintroduce`, and a reserved word is always classed as one |
| PascalLexerFacts.ClassifyExamples | PascalLexer/PascalLexer/PascalLexer.cs:302-313 | `var`, `absolute` and `reintroduce` are reserved words, `assembler` is a modifier, `_sosiska` is an identifier |
| PascalLexerFacts.SingleLineCommentDispatch | PascalLexer/PascalLexer/PascalLexer.cs:318-326 | `//` runs up to the next newline or the end |
| PascalLexerFacts.BraceCommentDispatch | PascalLexer/PascalLexer/PascalLexer.cs:344-358 | a brace comment ends just before its `}`, which is left for the next token |
| PascalLexerFacts.UnterminatedBraceComment | PascalLexer/PascalLexer/PascalLexer.cs:352-356 | with no `}` after it, a brace comment fails at the end of the text |
| PascalLexerFacts.ParenCommentAtStartCrashes | PascalLexer/PascalLexer/PascalLexer.cs:331 | a `(*` comment at offset 0 reads the character before the text |
| PascalLexerFacts.ParenCommentDispatch | PascalLexer/PascalLexer/PascalLexer.cs:328-342 | elsewhere it ends before the `)` of the first `*)` below the last index, and the opening `*` may be the closer's |
| PascalLexerFacts.UnterminatedParenComment | PascalLexer/PascalLexer/PascalLexer.cs:335-339 | with no closer below the last index it fails at the last index, or reads past the end when the text ends in `*` |
| PascalLexerFacts.SymbolDispatch | PascalLexer/PascalLexer/PascalLexer.cs:360-378 | any other symbol character gives a two- or one-character symbol and never fails |
| PascalLexerFacts.MinusIsSymbol | PascalLexer/PascalLexer/PascalLexer.cs:397-400 | `-` is always a symbol, so the sign branch of `ReadNumber` is never taken from `Lex` |
| PascalLexerFacts.NumberDispatch | PascalLexer/PascalLexer/PascalLexer.cs:394-445 | a prefix or leading digit is skipped, then a non-empty run of the selected digits is required; without one the run fails where a digit was expected |
| PascalLexerFacts.NumberScan | PascalLexer/PascalLexer/PascalLexer.cs:394-445 | the same for `ScanNumber` on its own, for `%`, `$` and a leading digit |
| PascalLexerFacts.CharacterCodeDispatch | PascalLexer/PascalLexer/PascalLexer.cs:481-495 | `#` needs at least one decimal digit, and the token spans `#` and all its digits |
| PascalLexerFacts.QuoteStalls | PascalLexer/PascalLexer/PascalLexer.cs:496-511 | at a quote the loop stops at once, the token is empty, the cursor stays and the run diverges |
| PascalLexerFacts.UnknownCharacterFails | PascalLexer/PascalLexer/PascalLexer.cs:614-617 | a character in no class, separators included, fails at its own offset |
| PascalLexerFacts.LexFromNext | PascalLexer/PascalLexer/PascalLexer.cs:583-620 | one iteration emits its token and continues after the separators that follow |
| PascalLexerFacts.LexStart | PascalLexer/PascalLexer/PascalLexer.cs:581-623 | the empty text has no tokens; a text that starts with a separator fails at 0, because separators are skipped only after a token |
| PascalLexerFacts.LexTiles | PascalLexer/PascalLexer/PascalLexer.cs:581-623 | the tokens of a successful run tile the text from offset 0, with only separators between and after them |
| PascalLexerFacts.LexTokensOrdered | PascalLexer/PascalLexer/PascalLexer.cs:581-623 | the tokens of a successful run are non-empty, lie inside the text, and are in order without overlap |
| PascalLexerFacts.DispatchLexeme | PascalLexer/PascalLexer/PascalLexer.cs:583-613 | every token of one iteration, except the empty one at a quote, covers a lexeme of its class as `Lexeme` describes it independently |
| PascalLexerFacts.LexLexemes | PascalLexer/PascalLexer/PascalLexer.cs:581-623 | every token of a successful run covers a lexeme of its class |
| PascalLexerFacts.DivergesOnlyAtQuote | PascalLexer/PascalLexer/PascalLexer.cs:496-511 | a run diverges only at a quote it dispatches on |
| PascalLexerFacts.LoopAgrees | PascalLexer/PascalLexer/PascalLexer.cs:583-620 | when the run ends, the source's loop, which has no progress test, ends with the same result within one iteration per character |
| PascalLexerFacts.DivergenceIsNontermination | PascalLexer/PascalLexer/PascalLexer.cs:583-620 | when the run diverges, the source's loop runs out of any fuel |
| PascalLoop.LexFromIsLoop | PascalLexer/PascalLexer/PascalLexer.cs:583-620 | `Dispatch` is a scanner step, and `LexFrom` is the generic dispatch loop over it |
| PascalLoop.LoopTiles | PascalLexer/PascalLexer/PascalLexer.cs:583-620 | a loop over any scanner step keeps earlier tokens and tiles the rest of the text |
| PascalLoop.TilesOrdered | PascalLexer/PascalLexer/PascalLexer.cs:581-623 | tiled tokens are non-empty, inside the text and strictly ordered |
| PascalLoop.BoundedLoopAgrees | PascalLexer/PascalLexer/PascalLexer.cs:583-620 | the fuel-bounded loop without the progress test finishes with the result of the loop with that test when that does not diverge |
| PascalLoop.BoundedLoopDiverges | PascalLexer/PascalLexer/PascalLexer.cs:583-620 | and it runs out of fuel when the loop with that test diverges |
| PascalLexerScenarios.CommentThenNumber | PascalLexer/PascalLexer/Tests.cs:49-57 | `// text\n123` is a comment and a number, as the test expects |
| PascalLexerScenarios.TwoCharSymbol | PascalLexer/PascalLexer/Tests.cs:66-71 | `**` is one symbol |
| PascalLexerScenarios.OneCharSymbols | PascalLexer/PascalLexer/Tests.cs:73-83 | `/-*` is three symbols |
| PascalLexerScenarios.SignedBinaryNumber | PascalLexer/PascalLexer/Tests.cs:85-94 | `-%101010111` is a `-` symbol and a binary number |
| PascalLexerScenarios.HexNumber | PascalLexer/PascalLexer/Tests.cs:96-104 | `$67124` is one number |
| PascalLexerScenarios.DecimalNumber | PascalLexer/PascalLexer/Tests.cs:106-114 | `123456` is one number |
| PascalLexerScenarios.SignedHexNumber | PascalLexer/PascalLexer/Tests.cs:116-125 | `-$DEADBEEF` is a `-` symbol and a hex number |
| PascalLexerScenarios.CharacterCode | PascalLexer/PascalLexer/Tests.cs:167-175 | `#13` is one character string |
| PascalLexerScenarios.WordAtEnd | PascalLexer/PascalLexer/Tests.cs:25-41 | `var`, `assembler` and `_sosiska` alone fail at the end of the text, where the tests expect one token |
| PascalLexerScenarios.DeclarationWithColon | PascalLexer/PascalLexer/Tests.cs:189-252 | Test 19's program, which starts `var a:`, fails at offset 5 (any text with that start does) |
| PascalLexerScenarios.WordsBeforeSpace | PascalLexer/PascalLexer/PascalLexer.cs:296-315 | followed by a space, the same words are one reserved word, modifier and identifier |
| PascalLexerScenarios.LeadingWhitespace | PascalLexer/PascalLexer/Tests.cs:43-47 | the test's text, which starts with spaces, fails at 0 |
| PascalLexerScenarios.ParenCommentAtStart | PascalLexer/PascalLexer/Tests.cs:59-64 | the test's `(*` comment at offset 0 reads before the text |
| PascalLexerScenarios.ParenCommentLater | PascalLexer/PascalLexer/PascalLexer.cs:328-342 | in `x (*a*) ` the comment ends before its `)`, which is then a symbol |
| PascalLexerScenarios.OpenBraceComment | PascalLexer/PascalLexer/PascalLexer.cs:352-356 | `{abc` fails at offset 4 |
| PascalLexerScenarios.ShortNumbers | PascalLexer/PascalLexer/PascalLexer.cs:420-439 | `1` and `19` fail at offset 1, because the leading digit is skipped and `9` is not octal |
| PascalLexerScenarios.NoFraction | PascalLexer/PascalLexer/Tests.cs:147-155 | `123.456` is a number, a `.` symbol and a number, not the one number the test expects |
| PascalLexerScenarios.NoExponent | PascalLexer/PascalLexer/Tests.cs:137-145 | `123E12` fails at offset 6, because `E12` is a word at the end of the text |
| PascalLexerScenarios.QuotedStrings | PascalLexer/PascalLexer/Tests.cs:157-187 | `'text'` and `'text'#13'moretext'` never finish lexing |
| Expressions.Unparse | Parser/Parser/Tests.cs:19-79 | the text a tree stands for; `ParseSound` and `ParseIsUnparseInverse` tie it to the parser |
| Expressions.Dump | Parser/Parser/Tests.cs:81-120 | the string the visitor prints; `Accept` and `DumpOf` prove the visitor prints it, and `DumpInjective` proves it identifies the tree |
| ParserFacts.Canonical | Parser/Parser/Tests.cs:424-440 | well-formed, with every operator node obeying precedence and left associativity, as Tests 6 and 7 expect |
| Expressions.DumpInjective | Parser/Parser/Tests.cs:81-120 | different well-formed trees have different dumps, so a dump identifies its tree |
| Expressions.DumpPrefix | Parser/Parser/Tests.cs:81-120 | no dump of a well-formed tree is a proper prefix of another's, and what follows is determined |
| DumpVisitors.DumpVisitor.constructor | Parser/Parser/Tests.cs:85-88 | a fresh visitor has an empty builder |
| DumpVisitors.DumpVisitor.VisitLiteral | Parser/Parser/Tests.cs:90-93 | appends the dump of a literal |
| DumpVisitors.DumpVisitor.VisitVariable | Parser/Parser/Tests.cs:95-98 | appends the dump of a variable |
| DumpVisitors.DumpVisitor.VisitBinary | Parser/Parser/Tests.cs:100-107 | appends the dump of a binary expression: the word, both operands' dumps around the operator, and `)` |
| DumpVisitors.DumpVisitor.VisitParen | Parser/Parser/Tests.cs:109-114 | appends the dump of a parenthesised expression |
| DumpVisitors.DumpVisitor.Accept | Parser/Parser/Tests.cs:16-79 | accepting any tree appends exactly its dump to what the visitor already holds |
| DumpVisitors.DumpOf | Parser/Parser/Tests.cs:116-119 | a fresh visitor accepted by a tree holds, through `ToString`, exactly the tree's dump |
| DumpVisitors.DumpOnePlusTwo | Parser/Parser/Tests.cs:379-395 | the visitor prints the tree of `1+2` as `Binary(Literal(1)+Literal(2))` |
| SimpleParser.RotateOnce | Parser/Parser/Tests.cs:201-218 | the source's one-level rotation keeps the text of the operands and operator in order, and its root is the right operand's operator when that is of the class |
| SimpleParser.Graft | Parser/Parser/Tests.cs:201-218 | grafting keeps the text and well-formedness, and its root operator is the one the rotation would choose |
| SimpleParser.ParseLiteral | Parser/Parser/Tests.cs:136-143 | succeeds exactly on a digit, with that one-character literal and the next index |
| SimpleParser.ParseVariable | Parser/Parser/Tests.cs:145-152 | succeeds exactly on a letter, with that one-character variable and the next index |
| SimpleParser.ParseParenExpression | Parser/Parser/Tests.cs:154-174 | a success is a parenthesised tree read from `(` to `)`, and consumes at least one character within the text |
| SimpleParser.ParseMultiplication | Parser/Parser/Tests.cs:176-223 | a success is rooted at `*` or `/` and stays within the text |
| SimpleParser.ParseAddition | Parser/Parser/Tests.cs:225-272 | a success is rooted at `+` or `-` and stays within the text |
| SimpleParser.ParseNonAddition | Parser/Parser/Tests.cs:274-301 | a success binds at least as tightly as a multiplication |
| SimpleParser.ParseNonAdditionNorMultiplication | Parser/Parser/Tests.cs:303-324 | a success is never a binary expression |
| SimpleParser.ParseExpression | Parser/Parser/Tests.cs:326-359 | a success consumes at least one character and stays within the text; `ExpressionSound` and `ExpressionComplete` state what it reads |
| SimpleParser.Parse | Parser/Parser/Tests.cs:361-369 | a tree is returned exactly when an expression read from 0 covers the whole text |
| ParserFacts.CombineWellFormed | Parser/Parser/Tests.cs:201-218 | both ways of combining keep trees well-formed |
| ParserFacts.CombineOrdered | Parser/Parser/Tests.cs:201-218 | both ways of combining give a root that obeys precedence and left associativity |
| ParserFacts.GraftLeftAssociative | Parser/Parser/Tests.cs:250-267 | grafting keeps every node of the tree left-associative |
| ParserFacts.ParenSound | Parser/Parser/Tests.cs:154-174 | a parenthesised expression read is well-formed and is exactly the text it consumed |
| ParserFacts.FactorSound | Parser/Parser/Tests.cs:303-324 | the same for a non-additive, non-multiplicative operand |
| ParserFacts.MultiplicationSound | Parser/Parser/Tests.cs:176-223 | the same for a multiplication, whose root obeys precedence |
| ParserFacts.NonAdditionSound | Parser/Parser/Tests.cs:274-301 | the same for a non-additive operand |
| ParserFacts.AdditionSound | Parser/Parser/Tests.cs:225-272 | the same for an addition |
| ParserFacts.ExpressionSound | Parser/Parser/Tests.cs:326-359 | any expression read is well-formed, is exactly the text it consumed, and has an ordered root; in the corrected version every node is ordered |
| ParserFacts.ParseSound | Parser/Parser/Tests.cs:361-369 | a parsed tree unparses to the whole text |
| ParserFacts.UngraftParts | Parser/Parser/Tests.cs:250-267 | every canonical chain is the graft of its leftmost operand onto the rest |
| ParserFacts.ExpressionComplete | Parser/Parser/Tests.cs:326-359 | the corrected parser reads the text of any canonical tree, followed by no operator, back as that tree |
| ParserFacts.AdditionComplete | Parser/Parser/Tests.cs:225-272 | the same for a canonical sum or difference |
| ParserFacts.MultiplicationComplete | Parser/Parser/Tests.cs:176-223 | the same for a canonical product or quotient |
| ParserFacts.NonAdditionComplete | Parser/Parser/Tests.cs:274-301 | the same for a canonical non-additive tree |
| ParserFacts.ParseIsUnparseInverse | Parser/Parser/Tests.cs:361-369 | the corrected parser returns a tree exactly when the tree is canonical and the text is its unparse |
| ParserScenarios.Sum | Parser/Parser/Tests.cs:388-395 | `1+2` parses to `1+2` |
| ParserScenarios.ProductInSum | Parser/Parser/Tests.cs:397-404 | `1+2*3` parses to `1+(2*3)` |
| ParserScenarios.SumOfProduct | Parser/Parser/Tests.cs:406-413 | `1*2+3` parses to `(1*2)+3` |
| ParserScenarios.ProductOfParenthesisedSum | Parser/Parser/Tests.cs:415-422 | `1*(2+3)` parses to the product of 1 and a parenthesised sum |
| ParserScenarios.DifferencesAssociateLeft | Parser/Parser/Tests.cs:424-431 | `1-2-3` parses to `(1-2)-3` |
| ParserScenarios.QuotientsAssociateLeft | Parser/Parser/Tests.cs:433-440 | `1/2/3` parses to `(1/2)/3` |
| ParserScenarios.ProductOfParentheses | Parser/Parser/Tests.cs:442-450 | `(1+2)*(3+4)` parses to the product of two parenthesised sums |
| ParserScenarios.NestedParentheses | Parser/Parser/Tests.cs:452-459 | `(((x)))` parses to three parentheses around a variable |
| ParserScenarios.NestedParenthesesDump | Parser/Parser/Tests.cs:452-459 | and that tree dumps as the test expects |
| ParserScenarios.ParenthesisedDifference | Parser/Parser/Tests.cs:461-468 | `1-(2-3)` parses to 1 minus a parenthesised difference |
| ParserScenarios.NotAnExpression | Parser/Parser/Tests.cs:470-475 | `SHOULD NOT PARSE` gives no tree |
| ParserScenarios.MissingOperand | Parser/Parser/Tests.cs:477-482 | `1-` gives no tree |
| ParserScenarios.UnclosedParenthesis | Parser/Parser/Tests.cs:484-489 | `(1+2` gives no tree |
| ParserScenarios.UnopenedParenthesis | Parser/Parser/Tests.cs:490-495 | `1+2)` gives no tree |
| ParserScenarios.FourDifferencesAsWritten | Parser/Parser/Tests.cs:250-267 | the source reads `1-2-3-4` as `(1-(2-3))-4`, which is not left-associative |
| ParserScenarios.FourDifferencesCorrected | Parser/Parser/Tests.cs:250-267 | the corrected parser reads it as `((1-2)-3)-4` |
| ParserScenarios.ParenthesisedFactorInSumAsWritten | Parser/Parser/Tests.cs:274-280 | the source gives no tree for `(1)*2+3` |
| ParserScenarios.ParenthesisedFactorInSumCorrected | Parser/Parser/Tests.cs:274-286 | the corrected parser reads it as `((1)*2)+3` |

## Left out

- The NUnit harnesses are left out. They appear only as the scenario lemmas, and `Assert.Pass` has no counterpart.
- The lexer tests construct a class `Lexer`. The code's class is `PascalLexer`, and that is the class modelled.
- The `LexerState` enumeration is left out: nothing uses it.
- Only ASCII is modelled. `char.IsDigit` and `char.IsLetter` in the parser also accept other Unicode digits and letters; the model recognises only ASCII digits and letters.
- PascalScan.Dispatch and every other lexer member count offsets in Unicode scalar values, because a Dafny `char` is one. The source's `text[pos]` and `text.Length` count UTF-16 code units. So the model's offsets match the source's only on texts without surrogate pairs, that is, with no character outside the Basic Multilingual Plane such as an emoji in a comment. A lone surrogate, which a C# string can hold, cannot be represented at all.
- A thrown exception becomes a returned `Thrown` status. The model does not state the cursor after a failure, because the source's object is left in whatever state the throw interrupted.
- A .NET `IndexOutOfRangeException` is modelled as the `IndexOutOfRange` failure. It arises when the paren-comment loop reads `text[-1]` at offset 0, or reads `text[length]`.
- PascalLexer.PascalLexer.Lex is modelled as a terminating function `LexFrom`. An iteration that leaves the cursor where it was, which only a quote does, ends the run with `Diverges` where the source loops for ever. `LexWithFuel` is the source's loop without that test. `LoopAgrees` and `DivergenceIsNontermination` prove the two agree.
- The word and symbol tables are modelled as membership tests. The source's lists are only ever asked `Contains`, so their order and duplicates are not modelled.
- The fraction and exponent part of `ReadNumber` is not modelled (PascalLexer.cs lines 447-475). No prefix selects the decimal digits, so it is unreachable: `ScanNumber` marks that branch with `assert false`.
- The sign branch of `ReadNumber` is modelled, but `Lex` never reaches it (`MinusIsSymbol`).
- Several lexer tests expect what the code does not produce. For those the scenario lemmas state what the code returns instead:
  - one word at the end of the text (Tests 01-03) fails;
  - leading whitespace (Test 04) fails;
  - a `(*` comment at offset 0 (Test 06) reads before the text;
  - `123E12` (Test 14) fails;
  - `123.456` (Test 15) is three tokens;
  - quoted strings (Tests 16, 18) never finish.
- Test 13 (`123.456E12`) has no lemma of its own. It behaves as `NoFraction` followed by `NoExponent`.
- The long program of Test 19 is stated only up to the point where the code stops (`DeclarationWithColon`). It starts `var a:`, so lexing fails at offset 5, at the `:` after `a`, long before the first quote at offset 41. The expected token list is therefore not stated.
- SimpleParser.RotateOnce models the source's `"*/".Contains(Operator)` and `"+-".Contains(Operator)` as one-character membership. These are substring tests, but every operator the parser builds is one character long.
- The generic `ParseResult<T>` and nullable results are modelled as one `ParseResult` over `Expr` inside an `Option`.
- The `IExpression`/`IExpressionVisitor` double dispatch is modelled as `Accept`, which selects the `Visit` method by the tree's constructor.
- Tests 2-8 and 10 are stated as equations on the parsed trees, not on the dump strings. `DumpInjective` makes a tree and its dump determine each other, and `DumpOf` proves the visitor prints `Dump`. Only Test 1's and Test 9's strings are stated literally (`DumpOnePlusTwo`, `NestedParenthesesDump`).

## Findings

| source | as written | input that shows it | evidently intended | confidence | as-written member | corrected member |
|---|---|---|---|---|---|---|
| Parser/Parser/Tests.cs:253-260 | the right operand of `+`/`-` (and likewise of `*`/`/`) is rotated only one level deep; `Graft` corrects both | `1-2-3-4` parses to `(1-(2-3))-4`; the same one-level rotation of `ParseMultipication` (lines 204-211) parses `1/2/3/4` as `(1/(2/3))/4` | left associativity for any number of operands, `((1-2)-3)-4`, as Test 6 expects for three | high; not executed | ParserScenarios.FourDifferencesAsWritten | ParserScenarios.FourDifferencesCorrected, ParserFacts.ParseIsUnparseInverse |
| Parser/Parser/Tests.cs:276-280 | `ParseNonAddition` returns a parenthesised expression before trying a multiplication that starts with it | `(1)*2+3` gives no tree | `((1)*2)+3`, since `(1)*2` alone and `1*2+3` both parse | high; not executed | ParserScenarios.ParenthesisedFactorInSumAsWritten | ParserScenarios.ParenthesisedFactorInSumCorrected, ParserFacts.ParseIsUnparseInverse |
