/** The lexer's output and error values. The source's token class hierarchy
    (comments and constants as intermediate base classes) carries no behaviour
    beyond the class itself, so it is flattened here into one tagged value. */
module PascalTokens {

  /** The eight concrete token classes. */
  datatype TokenKind =
    | ReservedWord
    | Modifier
    | Identifier
    | Symbol
    | SingleLineComment
    | MultiLineComment
    | Number
    | CharacterString

  /** A half-open range [start, end) of offsets into the lexed text. */
  datatype TokenRange = TokenRange(start: int, end: int)

  /** A token is its class and its range; the lexeme is recovered by slicing the text. */
  datatype Token = Token(kind: TokenKind, range: TokenRange)

  /** Why a lexing run stops early: the lexer's own exception, which carries the
      offset where scanning could not proceed, or a .NET index-out-of-range
      error raised by reading the text at `index`. */
  datatype Failure =
    | LexingException(position: int)
    | IndexOutOfRange(index: int)
}
