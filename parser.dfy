/** The recursive-descent parser for one-character literals and variables,
    `+ - * /` and parentheses. Each function tries to read one kind of
    expression at `index` and returns the tree and the index just past it, or
    `None` where the source returns `null`.

    Every function takes a `Version`. `AsWritten` is the source. `Corrected`
    differs in two places: the left operand of an addition or multiplication is
    grafted onto the left end of the whole chain of the right operand instead
    of being rotated in one level deep, and a non-additive operand tries a
    multiplication before a parenthesised expression. */
module SimpleParser {
  import opened Expressions

  datatype Option<T> = None | Some(value: T)

  datatype ParseResult = ParseResult(expression: Expr, index: nat)

  datatype Version = AsWritten | Corrected

  predicate InClass(op: string, operators: string) {
    |op| == 1 && op[0] in operators
  }

  /** The precedence of the operators a parsing function reads. */
  function ClassPrecedence(operators: string): nat {
    if operators == "+-" then 1 else 2
  }

  /** The source's rotation: when the right operand is itself an operation of
      the same class, the left operand and that operation's first operand
      become a new left operand. */
  function RotateOnce(l: Expr, op: string, r: Expr, operators: string): (e: Expr)
    ensures Unparse(e) == Unparse(l) + op + Unparse(r)
    ensures e.Binary? && e.op == (if r.Binary? && InClass(r.op, operators) then r.op else op)
  {
    if r.Binary? && InClass(r.op, operators) then
      assert Unparse(l) + op + Unparse(r.first) + r.op + Unparse(r.second) == Unparse(l) + op + Unparse(r);
      Binary(Binary(l, r.first, op), r.second, r.op)
    else
      Binary(l, r, op)
  }

  /** The rotation applied all the way down the left spine of the right operand. */
  function Graft(l: Expr, op: string, r: Expr, operators: string): (e: Expr)
    ensures Unparse(e) == Unparse(l) + op + Unparse(r)
    ensures WellFormed(l) && WellFormed(r) && InClass(op, operators) && operators in {"+-", "*/"} ==> WellFormed(e)
    ensures e.Binary? && e.op == (if r.Binary? && InClass(r.op, operators) then r.op else op)
    decreases r
  {
    if r.Binary? && InClass(r.op, operators) then
      var left := Graft(l, op, r.first, operators);
      assert Unparse(left) + r.op + Unparse(r.second) == Unparse(l) + op + Unparse(r);
      Binary(left, r.second, r.op)
    else
      Binary(l, r, op)
  }

  function Combine(version: Version, l: Expr, op: string, r: Expr, operators: string): (e: Expr)
    ensures Unparse(e) == Unparse(l) + op + Unparse(r)
    ensures e.Binary?
  {
    match version
    case AsWritten => RotateOnce(l, op, r, operators)
    case Corrected => Graft(l, op, r, operators)
  }

  /** What every successful parse satisfies: it consumes at least one
      character and stays inside the text. */
  predicate Parsed(text: string, index: nat, r: Option<ParseResult>) {
    r.Some? ==> index < r.value.index <= |text|
  }

  function ParseLiteral(text: string, index: nat): (r: Option<ParseResult>)
    ensures r.Some? <==> index < |text| && IsDigit(text[index])
    ensures r.Some? ==> r.value == ParseResult(Literal(text[index..index + 1]), index + 1)
    ensures Parsed(text, index, r)
  {
    if index >= |text| || !IsDigit(text[index]) then None
    else
      assert [text[index]] == text[index..index + 1];
      Some(ParseResult(Literal([text[index]]), index + 1))
  }

  function ParseVariable(text: string, index: nat): (r: Option<ParseResult>)
    ensures r.Some? <==> index < |text| && IsLetter(text[index])
    ensures r.Some? ==> r.value == ParseResult(Variable(text[index..index + 1]), index + 1)
    ensures Parsed(text, index, r)
  {
    if index >= |text| || !IsLetter(text[index]) then None
    else
      assert [text[index]] == text[index..index + 1];
      Some(ParseResult(Variable([text[index]]), index + 1))
  }

  function ParseParenExpression(text: string, index: nat, version: Version): (r: Option<ParseResult>)
    ensures Parsed(text, index, r)
    ensures r.Some? ==> r.value.expression.Paren? && text[index] == '(' && text[r.value.index - 1] == ')'
    decreases |text| - index, 1
  {
    if index >= |text| || text[index] != '(' then None
    else
      match ParseExpression(text, index + 1, version)
      case None => None
      case Some(inner) =>
        if inner.index >= |text| || text[inner.index] != ')' then None
        else Some(ParseResult(Paren(inner.expression), inner.index + 1))
  }

  function ParseMultiplication(text: string, index: nat, version: Version): (r: Option<ParseResult>)
    ensures Parsed(text, index, r)
    ensures r.Some? ==> r.value.expression.Binary? && IsMultiplicativeOp(r.value.expression.op)
    decreases |text| - index, 3
  {
    if index >= |text| then None
    else
      match ParseNonAdditionNorMultiplication(text, index, version)
      case None => None
      case Some(left) =>
        if left.index >= |text| then None
        else
          var op := text[left.index];
          if op != '*' && op != '/' then None
          else
            match ParseNonAddition(text, left.index + 1, version)
            case None => None
            case Some(right) =>
              Some(ParseResult(Combine(version, left.expression, [op], right.expression, "*/"), right.index))
  }

  function ParseAddition(text: string, index: nat, version: Version): (r: Option<ParseResult>)
    ensures Parsed(text, index, r)
    ensures r.Some? ==> r.value.expression.Binary? && IsAdditiveOp(r.value.expression.op)
    decreases |text| - index, 5
  {
    if index >= |text| then None
    else
      match ParseNonAddition(text, index, version)
      case None => None
      case Some(left) =>
        if left.index >= |text| then None
        else
          var op := text[left.index];
          if op != '+' && op != '-' then None
          else
            match ParseExpression(text, left.index + 1, version)
            case None => None
            case Some(right) =>
              Some(ParseResult(Combine(version, left.expression, [op], right.expression, "+-"), right.index))
  }

  function ParseNonAddition(text: string, index: nat, version: Version): (r: Option<ParseResult>)
    ensures Parsed(text, index, r)
    ensures r.Some? ==> Precedence(r.value.expression) >= 2
    decreases |text| - index, 4
  {
    var paren := ParseParenExpression(text, index, version);
    var multiplication := ParseMultiplication(text, index, version);
    if version == AsWritten && paren.Some? then paren
    else if multiplication.Some? then multiplication
    else if paren.Some? then paren
    else
      var literal := ParseLiteral(text, index);
      if literal.Some? then literal
      else ParseVariable(text, index)
  }

  function ParseNonAdditionNorMultiplication(text: string, index: nat, version: Version): (r: Option<ParseResult>)
    ensures Parsed(text, index, r)
    ensures r.Some? ==> !r.value.expression.Binary?
    decreases |text| - index, 2
  {
    var paren := ParseParenExpression(text, index, version);
    if paren.Some? then paren
    else
      var literal := ParseLiteral(text, index);
      if literal.Some? then literal
      else ParseVariable(text, index)
  }

  function ParseExpression(text: string, index: nat, version: Version): (r: Option<ParseResult>)
    ensures Parsed(text, index, r)
    decreases |text| - index, 6
  {
    var addition := ParseAddition(text, index, version);
    if addition.Some? then addition
    else
      var multiplication := ParseMultiplication(text, index, version);
      if multiplication.Some? then multiplication
      else
        var paren := ParseParenExpression(text, index, version);
        if paren.Some? then paren
        else
          var literal := ParseLiteral(text, index);
          if literal.Some? then literal
          else ParseVariable(text, index)
  }

  /** A whole text is an expression when one expression covers all of it. */
  function Parse(text: string, version: Version): (r: Option<Expr>)
    ensures r.Some? <==> ParseExpression(text, 0, version).Some? && ParseExpression(text, 0, version).value.index == |text|
  {
    var result := ParseExpression(text, 0, version);
    if result.None? || result.value.index != |text| then None
    else Some(result.value.expression)
  }
}
