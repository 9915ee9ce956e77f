/** The fixed tables of the Pascal lexer: the reserved words, the modifiers, the
    two- and one-character symbols and the digit alphabets of numeric literals.
    The lexer only ever asks whether a string is in one of the word or symbol
    lists, so each list is given as the membership test over its entries, in
    the source's order and with its duplicates. */
module PascalReserved {

  predicate IsReservedWord(w: string) {
    w in {
      "absolute", "and", "array", "asm", "begin", "case", "const", "constructor", "destructor",
      "div", "do", "downto", "else", "end", "file", "for", "function", "goto", "if",
      "implementation", "in", "inherited", "inline", "interface", "label", "mod", "nil", "not",
      "object", "of", "operator", "or", "packed", "procedure", "program", "record", "reintroduce",
      "repeat", "self", "set", "shl", "shr", "string", "then", "to", "type", "unit", "until", "uses",
      "var", "while", "with", "xor", "as", "class", "dispinterface", "except", "exports",
      "finalization", "finally", "initialization", "inline", "is", "library", "on", "out", "packed",
      "property", "raise", "resourcestring", "threadvar", "try"
    }
  }

  predicate IsModifier(w: string) {
    w in {
      "absolute", "abstract", "alias", "assembler", "bitpacked", "break", "cdecl", "continue",
      "cppdecl", "cvar", "default", "deprecated", "dynamic", "enumerator", "experimental", "export",
      "external", "far", "far16", "forward", "generic", "helper", "implements", "index", "interrupt",
      "iocheck", "local", "message", "name", "near", "nodefault", "noreturn", "nostackframe",
      "oldfpccall", "otherwise", "overload", "override", "pascal", "platform", "private",
      "protected", "public", "published", "read", "register", "reintroduce", "result", "safecall",
      "saveregisters", "softfloat", "specialize", "static", "stdcall", "stored", "strict",
      "unaligned", "unimplemented", "varargs", "virtual", "winapi", "write"
    }
  }

  /** The two-character symbols, each given by its two characters. */
  predicate IsTwoCharSymbolPair(first: char, second: char) {
    (first, second) in {
      ('<', '<'), ('>', '>'), ('*', '*'), ('<', '>'), ('>', '<'), ('<', '='), ('>', '='),
      (':', '='), ('+', '='), ('-', '='), ('*', '='), ('/', '='), ('(', '*'), ('*', ')'),
      ('(', '.'), ('.', ')')
    }
  }

  /** The one-character symbols, each given by its character. */
  predicate IsOneCharSymbolChar(c: char) {
    c in {
      '\'', '+', '-', '*', '/', '=', '<', '>', '[', ']', '.', ',', '(', ')', ':', '^', '@', '{',
      '}', '$', '#', '&', '%'
    }
  }

  const BinaryDigits: string := "01"
  const OctalDigits: string := "01234567"
  const DecimalDigits: string := "0123456789"
  const HexDigits: string := "0123456789ABCDEFabcdef"
}
