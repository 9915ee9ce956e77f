/** What the parser promises: a parse covers exactly the text of the tree it
    returns, and the corrected version reads back every tree that respects
    precedence and left associativity, so that on those trees it is the
    inverse of `Unparse`. */
module ParserFacts {
  import opened Expressions
  import opened SimpleParser

  /** The trees a parser for this grammar should produce. */
  predicate Canonical(e: Expr) {
    WellFormed(e) && LeftAssociative(e)
  }

  /** Position `j` does not continue an expression whose operators have
      precedence `level` or more: the text ends, or no such operator follows. */
  predicate Ends(text: string, j: nat, level: nat) {
    j >= |text| || !((text[j] in "+-" && level <= 1) || (text[j] in "*/" && level <= 2))
  }

  /** What a successful parse promises beyond its bounds: the tree is
      well-formed and is exactly the text it consumed, its root obeys
      precedence and left associativity, and in the corrected version every
      node does. */
  predicate Sound(text: string, index: nat, r: Option<ParseResult>, version: Version) {
    r.Some? ==>
      index <= r.value.index <= |text| &&
      WellFormed(r.value.expression) &&
      Unparse(r.value.expression) == text[index..r.value.index] &&
      RootOrdered(r.value.expression) &&
      (version == Corrected ==> LeftAssociative(r.value.expression))
  }

  /** Combining two well-formed trees with an operator of the class gives a
      well-formed tree. */
  lemma CombineWellFormed(version: Version, l: Expr, op: string, r: Expr, operators: string)
    requires operators in {"+-", "*/"} && InClass(op, operators)
    requires WellFormed(l) && WellFormed(r)
    ensures WellFormed(Combine(version, l, op, r, operators))
  {
  }

  /** Combining operands that bind at least as tightly as the class keeps the
      root ordered. */
  lemma CombineOrdered(version: Version, l: Expr, op: string, r: Expr, operators: string)
    requires operators in {"+-", "*/"} && InClass(op, operators)
    requires RootOrdered(l) && RootOrdered(r)
    requires Precedence(l) >= ClassPrecedence(operators) && Precedence(r) >= ClassPrecedence(operators)
    ensures var e := Combine(version, l, op, r, operators);
      RootOrdered(e) && Precedence(e) == ClassPrecedence(operators)
  {
  }

  /** The graft keeps every node ordered: grafting onto a left-associative
      right operand gives a left-associative tree. */
  lemma {:induction false} GraftLeftAssociative(l: Expr, op: string, r: Expr, operators: string)
    requires operators in {"+-", "*/"} && InClass(op, operators)
    requires LeftAssociative(l) && LeftAssociative(r)
    requires Precedence(l) >= ClassPrecedence(operators) && Precedence(r) >= ClassPrecedence(operators)
    ensures LeftAssociative(Graft(l, op, r, operators))
    ensures Precedence(Graft(l, op, r, operators)) == ClassPrecedence(operators)
    decreases r
  {
    if r.Binary? && InClass(r.op, operators) {
      GraftLeftAssociative(l, op, r.first, operators);
    }
  }

  /** The step shared by `ParseAddition` and `ParseMultiplication`: a left
      operand, the operator after it and a right operand after that make one
      sound parse of the whole stretch. */
  lemma CombineSound(text: string, index: nat, left: ParseResult, right: ParseResult, version: Version, operators: string)
    requires operators in {"+-", "*/"}
    requires left.index < |text| && text[left.index] in operators
    requires Sound(text, index, Some(left), version) && Sound(text, left.index + 1, Some(right), version)
    requires Precedence(left.expression) >= ClassPrecedence(operators)
    requires Precedence(right.expression) >= ClassPrecedence(operators)
    ensures Sound(text, index, Some(ParseResult(Combine(version, left.expression, [text[left.index]], right.expression, operators), right.index)), version)
  {
    var op := [text[left.index]];
    assert text[index..left.index] + op + text[left.index + 1..right.index] == text[index..right.index];
    CombineOrdered(version, left.expression, op, right.expression, operators);
    CombineWellFormed(version, left.expression, op, right.expression, operators);
    if version == Corrected {
      GraftLeftAssociative(left.expression, op, right.expression, operators);
    }
  }

  lemma {:induction false} ParenSound(text: string, index: nat, version: Version)
    ensures Sound(text, index, ParseParenExpression(text, index, version), version)
    decreases |text| - index, 1
  {
    if index < |text| && text[index] == '(' {
      ExpressionSound(text, index + 1, version);
      var inner := ParseExpression(text, index + 1, version);
      if inner.Some? && inner.value.index < |text| && text[inner.value.index] == ')' {
        assert "(" + text[index + 1..inner.value.index] + ")" == text[index..inner.value.index + 1];
      }
    }
  }

  lemma {:induction false} FactorSound(text: string, index: nat, version: Version)
    ensures Sound(text, index, ParseNonAdditionNorMultiplication(text, index, version), version)
    decreases |text| - index, 2
  {
    ParenSound(text, index, version);
  }

  /** A successful multiplication is a factor, `*` or `/`, and a non-additive operand. */
  lemma MultiplicationParts(text: string, i: nat, version: Version)
    requires ParseMultiplication(text, i, version).Some?
    ensures var left := ParseNonAdditionNorMultiplication(text, i, version);
      left.Some? && left.value.index < |text| && text[left.value.index] in "*/" &&
      var right := ParseNonAddition(text, left.value.index + 1, version);
      right.Some? &&
      ParseMultiplication(text, i, version).value ==
        ParseResult(Combine(version, left.value.expression, [text[left.value.index]], right.value.expression, "*/"), right.value.index)
  {
  }

  lemma {:induction false} MultiplicationSound(text: string, index: nat, version: Version)
    ensures Sound(text, index, ParseMultiplication(text, index, version), version)
    decreases |text| - index, 3
  {
    if ParseMultiplication(text, index, version).Some? {
      MultiplicationParts(text, index, version);
      FactorSound(text, index, version);
      var left := ParseNonAdditionNorMultiplication(text, index, version).value;
      NonAdditionSound(text, left.index + 1, version);
      var right := ParseNonAddition(text, left.index + 1, version).value;
      CombineSound(text, index, left, right, version, "*/");
    }
  }

  lemma {:induction false} NonAdditionSound(text: string, index: nat, version: Version)
    ensures Sound(text, index, ParseNonAddition(text, index, version), version)
    decreases |text| - index, 4
  {
    ParenSound(text, index, version);
    MultiplicationSound(text, index, version);
  }

  /** A successful addition is a non-additive operand, `+` or `-`, and an expression. */
  lemma AdditionParts(text: string, i: nat, version: Version)
    requires ParseAddition(text, i, version).Some?
    ensures var left := ParseNonAddition(text, i, version);
      left.Some? && left.value.index < |text| && text[left.value.index] in "+-" &&
      var right := ParseExpression(text, left.value.index + 1, version);
      right.Some? &&
      ParseAddition(text, i, version).value ==
        ParseResult(Combine(version, left.value.expression, [text[left.value.index]], right.value.expression, "+-"), right.value.index)
  {
  }

  lemma {:induction false} AdditionSound(text: string, index: nat, version: Version)
    ensures Sound(text, index, ParseAddition(text, index, version), version)
    decreases |text| - index, 5
  {
    if ParseAddition(text, index, version).Some? {
      AdditionParts(text, index, version);
      NonAdditionSound(text, index, version);
      var left := ParseNonAddition(text, index, version).value;
      ExpressionSound(text, left.index + 1, version);
      var right := ParseExpression(text, left.index + 1, version).value;
      CombineSound(text, index, left, right, version, "+-");
    }
  }

  /** Every successful parse is sound. */
  lemma {:induction false} ExpressionSound(text: string, index: nat, version: Version)
    ensures Sound(text, index, ParseExpression(text, index, version), version)
    decreases |text| - index, 6
  {
    AdditionSound(text, index, version);
    MultiplicationSound(text, index, version);
    ParenSound(text, index, version);
  }

  /** A parsed text is the unparsing of its tree, the tree is well-formed,
      its root obeys precedence and left associativity, and in the corrected
      version every node does. */
  lemma ParseSound(text: string, version: Version)
    ensures Parse(text, version).Some? ==>
      var e := Parse(text, version).value;
      Unparse(e) == text && WellFormed(e) && RootOrdered(e) && (version == Corrected ==> LeftAssociative(e))
  {
    ExpressionSound(text, 0, version);
    assert text[0..|text|] == text;
  }

  /** A chain of operations of one class, taken apart at its leftmost operand. */
  datatype Spine = Spine(head: Expr, op: string, rest: Expr)

  /** The inverse of `Graft`: the leftmost operand of the chain, the operator
      after it, and the chain of everything else. */
  function Ungraft(e: Expr, operators: string): (s: Spine)
    requires e.Binary?
    ensures Unparse(s.head) + s.op + Unparse(s.rest) == Unparse(e)
    decreases e
  {
    if e.first.Binary? && InClass(e.first.op, operators) then
      var s := Ungraft(e.first, operators);
      var rest := Binary(s.rest, e.second, e.op);
      assert Unparse(s.head) + s.op + Unparse(rest) == Unparse(e);
      Spine(s.head, s.op, rest)
    else
      Spine(e.first, e.op, e.second)
  }

  /** Taking a canonical chain apart gives a head that binds more tightly
      than the chain's operators, one operator of the class and a canonical
      rest; grafting them together again gives the chain back. */
  lemma {:induction false} UngraftParts(e: Expr, operators: string)
    requires operators in {"+-", "*/"}
    requires Canonical(e) && e.Binary? && InClass(e.op, operators)
    ensures var s := Ungraft(e, operators);
      Graft(s.head, s.op, s.rest, operators) == e &&
      InClass(s.op, operators) &&
      Canonical(s.head) && Canonical(s.rest) &&
      Precedence(s.head) > ClassPrecedence(operators) && Precedence(s.rest) >= ClassPrecedence(operators)
    decreases e
  {
    if e.first.Binary? && InClass(e.first.op, operators) {
      UngraftParts(e.first, operators);
    }
  }

  lemma SplitSlice(text: string, i: nat, j: nat, x: string, op: string, y: string)
    requires i <= j <= |text| && text[i..j] == x + op + y && |op| == 1
    ensures i + |x| < j
    ensures text[i..i + |x|] == x && text[i + |x|] == op[0] && text[i + |x| + 1..j] == y
  {
    var m := i + |x|;
    assert text[i..m] == text[i..j][..|x|];
    assert text[m] == text[i..j][|x|];
    assert text[m + 1..j] == text[i..j][|x| + 1..];
  }

  lemma ParenSlice(text: string, i: nat, j: nat, x: string)
    requires i <= j <= |text| && text[i..j] == "(" + x + ")"
    ensures i + 1 < j && text[i] == '(' && text[j - 1] == ')' && text[i + 1..j - 1] == x
  {
    var w := text[i..j];
    assert |w| == |x| + 2;
    assert w[0] == '(' && w[|w| - 1] == ')' && w[1..|w| - 1] == x;
    assert text[i] == w[0] && text[j - 1] == w[|w| - 1];
    forall k | 0 <= k < |x|
      ensures text[i + 1..j - 1][k] == x[k]
    {
      assert text[i + 1 + k] == w[1 + k];
    }
  }

  /** One successful round of `ParseMultiplication`. */
  lemma MultiplicationStep(text: string, i: nat, m: nat, j: nat, left: Expr, right: Expr, version: Version)
    requires i < m < |text| && (text[m] == '*' || text[m] == '/')
    requires ParseNonAdditionNorMultiplication(text, i, version) == Some(ParseResult(left, m))
    requires ParseNonAddition(text, m + 1, version) == Some(ParseResult(right, j))
    ensures ParseMultiplication(text, i, version) == Some(ParseResult(Combine(version, left, [text[m]], right, "*/"), j))
  {
  }

  /** A successful `ParseParenExpression`. */
  lemma ParenStep(text: string, i: nat, j: nat, inner: Expr, version: Version)
    requires i + 1 < j <= |text| && text[i] == '(' && text[j - 1] == ')'
    requires ParseExpression(text, i + 1, version) == Some(ParseResult(inner, j - 1))
    ensures ParseParenExpression(text, i, version) == Some(ParseResult(Paren(inner), j))
  {
  }

  /** One successful round of `ParseAddition`. */
  lemma AdditionStep(text: string, i: nat, m: nat, j: nat, left: Expr, right: Expr, version: Version)
    requires i < m < |text| && (text[m] == '+' || text[m] == '-')
    requires ParseNonAddition(text, i, version) == Some(ParseResult(left, m))
    requires ParseExpression(text, m + 1, version) == Some(ParseResult(right, j))
    ensures ParseAddition(text, i, version) == Some(ParseResult(Combine(version, left, [text[m]], right, "+-"), j))
  {
    assert i < |text|;
    assert ParseNonAddition(text, i, version).value.index == m;
  }

  /** A digit or a letter is a factor of one character. */
  lemma FactorAt(text: string, i: nat, version: Version)
    requires i < |text| && (IsDigit(text[i]) || IsLetter(text[i]))
    ensures ParseParenExpression(text, i, version) == None
    ensures ParseNonAdditionNorMultiplication(text, i, version) ==
      Some(ParseResult(if IsDigit(text[i]) then Literal([text[i]]) else Variable([text[i]]), i + 1))
  {
    assert text[i..i + 1] == [text[i]];
  }

  /** A factor followed by no `*` or `/` is the whole non-additive operand. */
  lemma NoMultiplicationAfter(text: string, i: nat, j: nat, f: Expr, version: Version)
    requires ParseNonAdditionNorMultiplication(text, i, version) == Some(ParseResult(f, j))
    requires j >= |text| || (text[j] != '*' && text[j] != '/')
    ensures ParseMultiplication(text, i, version) == None
    ensures ParseNonAddition(text, i, version) == Some(ParseResult(f, j))
  {
  }

  /** A multiplication is the whole non-additive operand, unless the source's
      version finds a parenthesised expression at the same place first. */
  lemma NonAdditionIsMultiplication(text: string, i: nat, version: Version)
    requires ParseMultiplication(text, i, version).Some?
    requires version == Corrected || ParseParenExpression(text, i, version).None?
    ensures ParseNonAddition(text, i, version) == ParseMultiplication(text, i, version)
  {
  }

  /** An operand followed by no `+` or `-` is not the start of a sum. */
  lemma NoAdditionAfter(text: string, i: nat, j: nat, f: Expr, version: Version)
    requires ParseNonAddition(text, i, version) == Some(ParseResult(f, j))
    requires j >= |text| || (text[j] != '+' && text[j] != '-')
    ensures ParseAddition(text, i, version) == None
  {
  }

  /** Where no sum starts, an expression is a multiplication if one starts,
      and a factor otherwise. */
  lemma ExpressionWithoutAddition(text: string, i: nat, version: Version)
    requires ParseAddition(text, i, version) == None
    ensures ParseExpression(text, i, version) ==
      if ParseMultiplication(text, i, version).Some? then ParseMultiplication(text, i, version)
      else ParseNonAdditionNorMultiplication(text, i, version)
  {
  }

  /** A parenthesised tree is read back from its text. */
  lemma {:induction false} ParenComplete(text: string, i: nat, j: nat, e: Expr)
    requires i <= j <= |text| && text[i..j] == Unparse(e)
    requires Canonical(e) && e.Paren?
    ensures ParseParenExpression(text, i, Corrected) == Some(ParseResult(e, j))
    decreases j - i, 0
  {
    ParenSlice(text, i, j, Unparse(e.operand));
    ExpressionComplete(text, i + 1, j - 1, e.operand);
    ParenStep(text, i, j, e.operand, Corrected);
  }

  /** A literal, variable or parenthesised tree is read back from its text. */
  lemma {:induction false} FactorComplete(text: string, i: nat, j: nat, e: Expr)
    requires i <= j <= |text| && text[i..j] == Unparse(e)
    requires Canonical(e) && Precedence(e) == 3
    ensures ParseNonAdditionNorMultiplication(text, i, Corrected) == Some(ParseResult(e, j))
    decreases j - i, 1
  {
    if e.Paren? {
      ParenComplete(text, i, j, e);
    } else {
      assert text[i] == text[i..j][0];
    }
  }

  /** A factor followed by no `*` or `/` is not the start of a multiplication. */
  lemma {:induction false} MultiplicationFails(text: string, i: nat, j: nat, e: Expr)
    requires i <= j <= |text| && text[i..j] == Unparse(e)
    requires Canonical(e) && Precedence(e) == 3 && Ends(text, j, 2)
    ensures ParseMultiplication(text, i, Corrected) == None
    decreases j - i, 2
  {
    FactorComplete(text, i, j, e);
  }

  /** A chain of multiplications and divisions is read back from its text. */
  lemma {:induction false} MultiplicationComplete(text: string, i: nat, j: nat, e: Expr)
    requires i <= j <= |text| && text[i..j] == Unparse(e)
    requires Canonical(e) && Precedence(e) == 2 && Ends(text, j, 2)
    ensures ParseMultiplication(text, i, Corrected) == Some(ParseResult(e, j))
    decreases j - i, 3
  {
    var s := Ungraft(e, "*/");
    UngraftParts(e, "*/");
    SplitSlice(text, i, j, Unparse(s.head), s.op, Unparse(s.rest));
    var m := i + |Unparse(s.head)|;
    FactorComplete(text, i, m, s.head);
    NonAdditionComplete(text, m + 1, j, s.rest);
    assert [text[m]] == s.op;
    assert Combine(Corrected, s.head, s.op, s.rest, "*/") == e;
    MultiplicationStep(text, i, m, j, s.head, s.rest, Corrected);
  }

  /** Anything but a sum is read back by `ParseNonAddition`. */
  lemma {:induction false} NonAdditionComplete(text: string, i: nat, j: nat, e: Expr)
    requires i <= j <= |text| && text[i..j] == Unparse(e)
    requires Canonical(e) && Precedence(e) >= 2 && Ends(text, j, 2)
    ensures ParseNonAddition(text, i, Corrected) == Some(ParseResult(e, j))
    decreases j - i, 4
  {
    if Precedence(e) == 2 {
      MultiplicationComplete(text, i, j, e);
    } else {
      MultiplicationFails(text, i, j, e);
      FactorComplete(text, i, j, e);
    }
  }

  /** A tree that is not a sum, followed by no operator, is not the start of a sum. */
  lemma {:induction false} AdditionFails(text: string, i: nat, j: nat, e: Expr)
    requires i <= j <= |text| && text[i..j] == Unparse(e)
    requires Canonical(e) && Precedence(e) >= 2 && Ends(text, j, 1)
    ensures ParseAddition(text, i, Corrected) == None
    decreases j - i, 5
  {
    NonAdditionComplete(text, i, j, e);
  }

  /** A chain of additions and subtractions is read back from its text. */
  lemma {:induction false} AdditionComplete(text: string, i: nat, j: nat, e: Expr)
    requires i <= j <= |text| && text[i..j] == Unparse(e)
    requires Canonical(e) && Precedence(e) == 1 && Ends(text, j, 1)
    ensures ParseAddition(text, i, Corrected) == Some(ParseResult(e, j))
    decreases j - i, 6
  {
    var s := Ungraft(e, "+-");
    UngraftParts(e, "+-");
    SplitSlice(text, i, j, Unparse(s.head), s.op, Unparse(s.rest));
    var m := i + |Unparse(s.head)|;
    NonAdditionComplete(text, i, m, s.head);
    ExpressionComplete(text, m + 1, j, s.rest);
    assert [text[m]] == s.op;
    assert Combine(Corrected, s.head, s.op, s.rest, "+-") == e;
    AdditionStep(text, i, m, j, s.head, s.rest, Corrected);
  }

  /** Every canonical tree followed by no operator is read back by `ParseExpression`. */
  lemma {:induction false} ExpressionComplete(text: string, i: nat, j: nat, e: Expr)
    requires i <= j <= |text| && text[i..j] == Unparse(e)
    requires Canonical(e) && Ends(text, j, 1)
    ensures ParseExpression(text, i, Corrected) == Some(ParseResult(e, j))
    decreases j - i, 7
  {
    if Precedence(e) == 1 {
      AdditionComplete(text, i, j, e);
    } else {
      AdditionFails(text, i, j, e);
      if Precedence(e) == 2 {
        MultiplicationComplete(text, i, j, e);
      } else {
        MultiplicationFails(text, i, j, e);
        FactorComplete(text, i, j, e);
      }
    }
  }

  /** The corrected parser and `Unparse` are inverse to each other: a text
      parses to a tree exactly when the tree is canonical and the text is its
      unparsing. */
  lemma ParseIsUnparseInverse(text: string, e: Expr)
    ensures Parse(text, Corrected) == Some(e) <==> Canonical(e) && Unparse(e) == text
  {
    ParseSound(text, Corrected);
    if Canonical(e) && Unparse(e) == text {
      assert text[0..|text|] == text;
      ExpressionComplete(text, 0, |text|, e);
    }
  }
}
