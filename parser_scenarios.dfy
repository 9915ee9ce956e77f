/** The parser's behaviour on the inputs its tests use, for both versions,
    and on the two inputs where the source's version goes wrong. */
module ParserScenarios {
  import opened Expressions
  import opened SimpleParser
  import opened ParserFacts

  /** The one-character operand a digit or a letter stands for. */
  function Atom(c: char): Expr {
    if IsDigit(c) then Literal([c]) else Variable([c])
  }

  /** A digit or letter followed by no `*` or `/` is a whole non-additive operand. */
  lemma Operand(text: string, i: nat, version: Version)
    requires i < |text| && (IsDigit(text[i]) || IsLetter(text[i]))
    requires i + 1 >= |text| || (text[i + 1] != '*' && text[i + 1] != '/')
    ensures ParseNonAdditionNorMultiplication(text, i, version) == Some(ParseResult(Atom(text[i]), i + 1))
    ensures ParseMultiplication(text, i, version) == None
    ensures ParseNonAddition(text, i, version) == Some(ParseResult(Atom(text[i]), i + 1))
  {
    FactorAt(text, i, version);
    NoMultiplicationAfter(text, i, i + 1, Atom(text[i]), version);
  }

  /** A digit or letter followed by no operator is a whole expression. */
  lemma AtomExpression(text: string, i: nat, version: Version)
    requires i < |text| && (IsDigit(text[i]) || IsLetter(text[i]))
    requires i + 1 >= |text| || text[i + 1] !in "+-*/"
    ensures ParseExpression(text, i, version) == Some(ParseResult(Atom(text[i]), i + 1))
  {
    Operand(text, i, version);
    NoAdditionAfter(text, i, i + 1, Atom(text[i]), version);
    ExpressionWithoutAddition(text, i, version);
  }

  /** Two single-character operands around `+` or `-`, followed by no
      operator, are a whole expression. */
  lemma SumOfAtoms(text: string, i: nat, version: Version)
    requires i + 2 < |text| && (IsDigit(text[i]) || IsLetter(text[i])) && (IsDigit(text[i + 2]) || IsLetter(text[i + 2]))
    requires text[i + 1] == '+' || text[i + 1] == '-'
    requires i + 3 >= |text| || text[i + 3] !in "+-*/"
    ensures ParseExpression(text, i, version) ==
      Some(ParseResult(Binary(Atom(text[i]), Atom(text[i + 2]), [text[i + 1]]), i + 3))
  {
    Operand(text, i, version);
    AtomExpression(text, i + 2, version);
    AdditionStep(text, i, i + 1, i + 3, Atom(text[i]), Atom(text[i + 2]), version);
  }

  /** Three single-character operands joined by `+` or `-`, followed by no
      operator, are read as `(a op b) op c` by both versions. */
  lemma ThreeTerms(text: string, i: nat, version: Version)
    requires i + 4 < |text| && (IsDigit(text[i]) || IsLetter(text[i]))
    requires (IsDigit(text[i + 2]) || IsLetter(text[i + 2])) && (IsDigit(text[i + 4]) || IsLetter(text[i + 4]))
    requires (text[i + 1] == '+' || text[i + 1] == '-') && (text[i + 3] == '+' || text[i + 3] == '-')
    requires i + 5 >= |text| || text[i + 5] !in "+-*/"
    ensures ParseExpression(text, i, version) == Some(ParseResult(
      Binary(Binary(Atom(text[i]), Atom(text[i + 2]), [text[i + 1]]), Atom(text[i + 4]), [text[i + 3]]), i + 5))
  {
    Operand(text, i, version);
    SumOfAtoms(text, i + 2, version);
    assert Graft(Atom(text[i]), [text[i + 1]], Atom(text[i + 2]), "+-") == Binary(Atom(text[i]), Atom(text[i + 2]), [text[i + 1]]);
    AdditionStep(text, i, i + 1, i + 5, Atom(text[i]), Binary(Atom(text[i + 2]), Atom(text[i + 4]), [text[i + 3]]), version);
  }

  /** `(a+b)` or `(a-b)` with single-character operands is a parenthesised expression. */
  lemma ParenthesisedSum(text: string, i: nat, version: Version)
    requires i + 4 < |text| && text[i] == '(' && text[i + 4] == ')'
    requires (IsDigit(text[i + 1]) || IsLetter(text[i + 1])) && (IsDigit(text[i + 3]) || IsLetter(text[i + 3]))
    requires text[i + 2] == '+' || text[i + 2] == '-'
    ensures var e := Paren(Binary(Atom(text[i + 1]), Atom(text[i + 3]), [text[i + 2]]));
      ParseParenExpression(text, i, version) == Some(ParseResult(e, i + 5)) &&
      ParseNonAdditionNorMultiplication(text, i, version) == Some(ParseResult(e, i + 5))
  {
    SumOfAtoms(text, i + 1, version);
    ParenStep(text, i, i + 5, Binary(Atom(text[i + 1]), Atom(text[i + 3]), [text[i + 2]]), version);
  }

  /** A parenthesised expression followed by no `*` or `/` is a whole non-additive operand. */
  lemma ParenOperand(text: string, i: nat, j: nat, inner: Expr, version: Version)
    requires i + 1 < j <= |text| && text[i] == '(' && text[j - 1] == ')'
    requires ParseExpression(text, i + 1, version) == Some(ParseResult(inner, j - 1))
    requires j >= |text| || (text[j] != '*' && text[j] != '/')
    ensures ParseNonAdditionNorMultiplication(text, i, version) == Some(ParseResult(Paren(inner), j))
    ensures ParseMultiplication(text, i, version) == None
    ensures ParseNonAddition(text, i, version) == Some(ParseResult(Paren(inner), j))
  {
    ParenStep(text, i, j, inner, version);
    NoMultiplicationAfter(text, i, j, Paren(inner), version);
  }

  /** A parenthesised expression followed by no operator is a whole expression. */
  lemma ParenAlone(text: string, i: nat, j: nat, inner: Expr, version: Version)
    requires i + 1 < j <= |text| && text[i] == '(' && text[j - 1] == ')'
    requires ParseExpression(text, i + 1, version) == Some(ParseResult(inner, j - 1))
    requires j >= |text| || text[j] !in "+-*/"
    ensures ParseExpression(text, i, version) == Some(ParseResult(Paren(inner), j))
  {
    ParenOperand(text, i, j, inner, version);
    NoAdditionAfter(text, i, j, Paren(inner), version);
    ExpressionWithoutAddition(text, i, version);
  }

  /** `1+2`: a sum of two literals. */
  lemma Sum(text: string, version: Version)
    requires |text| == 3 && text[0] == '1' && text[1] == '+' && text[2] == '2'
    ensures Parse(text, version) == Some(Binary(Literal("1"), Literal("2"), "+"))
  {
    SumOfAtoms(text, 0, version);
  }

  /** `1+2*3`: the product is the right operand of the sum. */
  lemma ProductInSum(text: string, version: Version)
    requires |text| == 5 && text[0] == '1' && text[1] == '+' && text[2] == '2' && text[3] == '*'
      && text[4] == '3'
    ensures Parse(text, version) == Some(Binary(Literal("1"), Binary(Literal("2"), Literal("3"), "*"), "+"))
  {
    Operand(text, 0, version);
    FactorAt(text, 2, version);
    Operand(text, 4, version);
    MultiplicationStep(text, 2, 3, 5, Literal("2"), Literal("3"), version);
    NonAdditionIsMultiplication(text, 2, version);
    NoAdditionAfter(text, 2, 5, Binary(Literal("2"), Literal("3"), "*"), version);
    ExpressionWithoutAddition(text, 2, version);
    AdditionStep(text, 0, 1, 5, Literal("1"), Binary(Literal("2"), Literal("3"), "*"), version);
  }

  /** `1*2+3`: the product is the left operand of the sum. */
  lemma SumOfProduct(text: string, version: Version)
    requires |text| == 5 && text[0] == '1' && text[1] == '*' && text[2] == '2' && text[3] == '+'
      && text[4] == '3'
    ensures Parse(text, version) == Some(Binary(Binary(Literal("1"), Literal("2"), "*"), Literal("3"), "+"))
  {
    FactorAt(text, 0, version);
    Operand(text, 2, version);
    MultiplicationStep(text, 0, 1, 3, Literal("1"), Literal("2"), version);
    NonAdditionIsMultiplication(text, 0, version);
    AtomExpression(text, 4, version);
    AdditionStep(text, 0, 3, 5, Binary(Literal("1"), Literal("2"), "*"), Literal("3"), version);
  }

  /** `1*(2+3)`: a parenthesised sum as the right operand of a product. */
  lemma ProductOfParenthesisedSum(text: string, version: Version)
    requires |text| == 7 && text[0] == '1' && text[1] == '*' && text[2] == '(' && text[3] == '2'
      && text[4] == '+' && text[5] == '3' && text[6] == ')'
    ensures Parse(text, version) ==
      Some(Binary(Literal("1"), Paren(Binary(Literal("2"), Literal("3"), "+")), "*"))
  {
    var sum := Binary(Literal("2"), Literal("3"), "+");
    ParenthesisedSum(text, 2, version);
    NoMultiplicationAfter(text, 2, 7, Paren(sum), version);
    FactorAt(text, 0, version);
    MultiplicationStep(text, 0, 1, 7, Literal("1"), Paren(sum), version);
    NonAdditionIsMultiplication(text, 0, version);
    NoAdditionAfter(text, 0, 7, Binary(Literal("1"), Paren(sum), "*"), version);
    ExpressionWithoutAddition(text, 0, version);
  }

  /** `1-2-3` is `(1-2)-3`. */
  lemma DifferencesAssociateLeft(text: string, version: Version)
    requires |text| == 5 && text[0] == '1' && text[1] == '-' && text[2] == '2' && text[3] == '-'
      && text[4] == '3'
    ensures Parse(text, version) == Some(Binary(Binary(Literal("1"), Literal("2"), "-"), Literal("3"), "-"))
  {
    ThreeTerms(text, 0, version);
  }

  /** `1/2/3` is `(1/2)/3`. */
  lemma QuotientsAssociateLeft(text: string, version: Version)
    requires |text| == 5 && text[0] == '1' && text[1] == '/' && text[2] == '2' && text[3] == '/'
      && text[4] == '3'
    ensures Parse(text, version) == Some(Binary(Binary(Literal("1"), Literal("2"), "/"), Literal("3"), "/"))
  {
    var e := Binary(Binary(Literal("1"), Literal("2"), "/"), Literal("3"), "/");
    FactorAt(text, 0, version);
    FactorAt(text, 2, version);
    Operand(text, 4, version);
    MultiplicationStep(text, 2, 3, 5, Literal("2"), Literal("3"), version);
    NonAdditionIsMultiplication(text, 2, version);
    MultiplicationStep(text, 0, 1, 5, Literal("1"), Binary(Literal("2"), Literal("3"), "/"), version);
    NonAdditionIsMultiplication(text, 0, version);
    NoAdditionAfter(text, 0, 5, e, version);
    ExpressionWithoutAddition(text, 0, version);
  }

  /** `(1+2)*(3+4)`. The source's version first reads `(1+2)` alone as the
      operand of a sum, fails on `*`, and then finds the product. */
  lemma ProductOfParentheses(text: string, version: Version)
    requires |text| == 11 && text[0] == '(' && text[1] == '1' && text[2] == '+' && text[3] == '2'
      && text[4] == ')' && text[5] == '*' && text[6] == '(' && text[7] == '3' && text[8] == '+'
      && text[9] == '4' && text[10] == ')'
    ensures Parse(text, version) == Some(Binary(
      Paren(Binary(Literal("1"), Literal("2"), "+")), Paren(Binary(Literal("3"), Literal("4"), "+")), "*"))
  {
    var left := Paren(Binary(Literal("1"), Literal("2"), "+"));
    var right := Paren(Binary(Literal("3"), Literal("4"), "+"));
    ParenthesisedSum(text, 0, version);
    ParenthesisedSum(text, 6, version);
    NoMultiplicationAfter(text, 6, 11, right, version);
    MultiplicationStep(text, 0, 5, 11, left, right, version);
    if version == AsWritten {
      NoAdditionAfter(text, 0, 5, left, version);
    } else {
      NonAdditionIsMultiplication(text, 0, version);
      NoAdditionAfter(text, 0, 11, Binary(left, right, "*"), version);
    }
    ExpressionWithoutAddition(text, 0, version);
  }

  /** `(((x)))`: three parentheses around a variable. */
  lemma NestedParentheses(text: string, version: Version)
    requires |text| == 7 && text[0] == '(' && text[1] == '(' && text[2] == '(' && text[3] == 'x'
      && text[4] == ')' && text[5] == ')' && text[6] == ')'
    ensures Parse(text, version) == Some(Paren(Paren(Paren(Variable("x")))))
  {
    AtomExpression(text, 3, version);
    ParenAlone(text, 2, 5, Variable("x"), version);
    ParenAlone(text, 1, 6, Paren(Variable("x")), version);
    ParenAlone(text, 0, 7, Paren(Paren(Variable("x"))), version);
  }

  /** `1-(2-3)`: the parentheses keep the right operand grouped. */
  lemma ParenthesisedDifference(text: string, version: Version)
    requires |text| == 7 && text[0] == '1' && text[1] == '-' && text[2] == '(' && text[3] == '2'
      && text[4] == '-' && text[5] == '3' && text[6] == ')'
    ensures Parse(text, version) == Some(Binary(Literal("1"), Paren(Binary(Literal("2"), Literal("3"), "-")), "-"))
  {
    var difference := Binary(Literal("2"), Literal("3"), "-");
    ParenthesisedSum(text, 2, version);
    NoMultiplicationAfter(text, 2, 7, Paren(difference), version);
    NoAdditionAfter(text, 2, 7, Paren(difference), version);
    ExpressionWithoutAddition(text, 2, version);
    Operand(text, 0, version);
    AdditionStep(text, 0, 1, 7, Literal("1"), Paren(difference), version);
  }

  /** `SHOULD NOT PARSE`: only the first letter is an expression, and the text goes on after it. */
  lemma NotAnExpression(text: string, version: Version)
    requires text == "SHOULD NOT PARSE"
    ensures Parse(text, version) == None
  {
    AtomExpression(text, 0, version);
  }

  /** `1-`: nothing follows the `-`, so the expression read is `1` and the text goes on. */
  lemma MissingOperand(text: string, version: Version)
    requires |text| == 2 && text[0] == '1' && text[1] == '-'
    ensures Parse(text, version) == None
  {
    Operand(text, 0, version);
    assert ParseExpression(text, 2, version) == None;
    assert ParseAddition(text, 0, version) == None;
    ExpressionWithoutAddition(text, 0, version);
  }

  /** `(1+2`: no `)` closes the parenthesis, so nothing is read at all. */
  lemma UnclosedParenthesis(text: string, version: Version)
    requires |text| == 4 && text[0] == '(' && text[1] == '1' && text[2] == '+' && text[3] == '2'
    ensures Parse(text, version) == None
  {
    SumOfAtoms(text, 1, version);
    assert ParseParenExpression(text, 0, version) == None;
    assert ParseNonAdditionNorMultiplication(text, 0, version) == None;
    assert ParseMultiplication(text, 0, version) == None;
    assert ParseNonAddition(text, 0, version) == None;
    assert ParseAddition(text, 0, version) == None;
  }

  /** `1+2)`: the sum `1+2` is read, and a `)` is left over. */
  lemma UnopenedParenthesis(text: string, version: Version)
    requires |text| == 4 && text[0] == '1' && text[1] == '+' && text[2] == '2' && text[3] == ')'
    ensures Parse(text, version) == None
  {
    SumOfAtoms(text, 0, version);
  }

  /** With four operands the source's single rotation leaves `2-3` grouped on
      the right of `1-2-3-4`: the tree stands for `(1-(2-3))-4`. */
  lemma FourDifferencesAsWritten(text: string)
    requires |text| == 7 && text[0] == '1' && text[1] == '-' && text[2] == '2' && text[3] == '-'
      && text[4] == '3' && text[5] == '-' && text[6] == '4'
    ensures var e := Binary(Binary(Literal("1"), Binary(Literal("2"), Literal("3"), "-"), "-"), Literal("4"), "-");
      Parse(text, AsWritten) == Some(e) && !LeftAssociative(e)
  {
    Operand(text, 0, AsWritten);
    ThreeTerms(text, 2, AsWritten);
    var rest := Binary(Binary(Literal("2"), Literal("3"), "-"), Literal("4"), "-");
    AdditionStep(text, 0, 1, 7, Literal("1"), rest, AsWritten);
  }

  /** The corrected version reads `1-2-3-4` as `((1-2)-3)-4`. */
  lemma FourDifferencesCorrected(text: string)
    requires |text| == 7 && text[0] == '1' && text[1] == '-' && text[2] == '2' && text[3] == '-'
      && text[4] == '3' && text[5] == '-' && text[6] == '4'
    ensures var e := Binary(Binary(Binary(Literal("1"), Literal("2"), "-"), Literal("3"), "-"), Literal("4"), "-");
      Canonical(e) && Unparse(e) == text && Parse(text, Corrected) == Some(e)
  {
    var e := Binary(Binary(Binary(Literal("1"), Literal("2"), "-"), Literal("3"), "-"), Literal("4"), "-");
    ParseIsUnparseInverse(text, e);
  }

  /** `(1)*2+3` is the text of a canonical tree (see the corrected lemma
      below), but the source's version reads `(1)` alone as the left operand of a sum, meets `*` and gives up
      on the sum; it then reads the product `(1)*2` and leaves `+3` over. */
  lemma ParenthesisedFactorInSumAsWritten(text: string)
    requires |text| == 7 && text[0] == '(' && text[1] == '1' && text[2] == ')' && text[3] == '*'
      && text[4] == '2' && text[5] == '+' && text[6] == '3'
    ensures Parse(text, AsWritten) == None
  {
    AtomExpression(text, 1, AsWritten);
    ParenStep(text, 0, 3, Literal("1"), AsWritten);
    Operand(text, 4, AsWritten);
    MultiplicationStep(text, 0, 3, 5, Paren(Literal("1")), Literal("2"), AsWritten);
    NoAdditionAfter(text, 0, 3, Paren(Literal("1")), AsWritten);
    ExpressionWithoutAddition(text, 0, AsWritten);
  }

  /** `(1)*2+3` is the text of a canonical tree, which the corrected version reads whole. */
  lemma ParenthesisedFactorInSumCorrected(text: string)
    requires |text| == 7 && text[0] == '(' && text[1] == '1' && text[2] == ')' && text[3] == '*'
      && text[4] == '2' && text[5] == '+' && text[6] == '3'
    ensures var e := Binary(Binary(Paren(Literal("1")), Literal("2"), "*"), Literal("3"), "+");
      Canonical(e) && Unparse(e) == text && Parse(text, Corrected) == Some(e)
  {
    var e := Binary(Binary(Paren(Literal("1")), Literal("2"), "*"), Literal("3"), "+");
    ParseIsUnparseInverse(text, e);
  }

  /** The dump Test 9 expects for the tree of `(((x)))`. */
  lemma NestedParenthesesDump()
    ensures Dump(Paren(Paren(Paren(Variable("x"))))) == "Paren(Paren(Paren(Variable(x))))"
  {
  }
}
