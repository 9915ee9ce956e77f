/** The expression tree of the arithmetic parser: literals, variables, binary
    operations and parenthesised expressions, with the printed form the dump
    visitor writes and the source text a tree stands for. */
module Expressions {

  datatype Expr =
    | Literal(value: string)
    | Variable(name: string)
    | Binary(first: Expr, second: Expr, op: string)
    | Paren(operand: Expr)

  /** ASCII digits; the source asks `char.IsDigit`, which also accepts other Unicode digits. */
  predicate IsDigit(c: char) {
    '0' <= c <= '9'
  }

  /** ASCII letters; the source asks `char.IsLetter`, which also accepts other Unicode letters. */
  predicate IsLetter(c: char) {
    'a' <= c <= 'z' || 'A' <= c <= 'Z'
  }

  predicate IsAdditiveOp(op: string) {
    |op| == 1 && op[0] in "+-"
  }

  predicate IsMultiplicativeOp(op: string) {
    |op| == 1 && op[0] in "*/"
  }

  /** The trees the parser builds: one-character literals, variables and operators. */
  predicate WellFormed(e: Expr) {
    match e
    case Literal(v) => |v| == 1 && IsDigit(v[0])
    case Variable(n) => |n| == 1 && IsLetter(n[0])
    case Binary(a, b, op) => WellFormed(a) && WellFormed(b) && (IsAdditiveOp(op) || IsMultiplicativeOp(op))
    case Paren(x) => WellFormed(x)
  }

  /** The source text a tree stands for. */
  function Unparse(e: Expr): string {
    match e
    case Literal(v) => v
    case Variable(n) => n
    case Binary(a, b, op) => Unparse(a) + op + Unparse(b)
    case Paren(x) => "(" + Unparse(x) + ")"
  }

  /** How tightly the root of a tree binds: 1 for `+ -`, 2 for `* /`, 3 for the rest. */
  function Precedence(e: Expr): nat {
    if e.Binary? && IsAdditiveOp(e.op) then 1
    else if e.Binary? && IsMultiplicativeOp(e.op) then 2
    else 3
  }

  /** The root obeys precedence and left associativity: its left operand binds
      at least as tightly as it does, its right operand strictly more tightly. */
  predicate RootOrdered(e: Expr) {
    e.Binary? ==> Precedence(e.first) >= Precedence(e) && Precedence(e.second) > Precedence(e)
  }

  /** Every operator node of the tree, at any depth, obeys precedence and left associativity. */
  predicate LeftAssociative(e: Expr) {
    match e
    case Literal(_) => true
    case Variable(_) => true
    case Binary(a, b, _) => RootOrdered(e) && LeftAssociative(a) && LeftAssociative(b)
    case Paren(x) => LeftAssociative(x)
  }

  /** The printed form of a tree. */
  function Dump(e: Expr): string {
    match e
    case Literal(v) => "Literal(" + v + ")"
    case Variable(n) => "Variable(" + n + ")"
    case Binary(a, b, op) => "Binary(" + Dump(a) + op + Dump(b) + ")"
    case Paren(x) => "Paren(" + Dump(x) + ")"
  }

  /** The first character of a dump names the constructor. */
  lemma DumpHead(e: Expr)
    ensures |Dump(e)| > 0
    ensures Dump(e)[0] == (match e
                           case Literal(_) => 'L'
                           case Variable(_) => 'V'
                           case Binary(_, _, _) => 'B'
                           case Paren(_) => 'P')
  {
  }

  lemma DropPrefix(p: string, x: string, y: string)
    requires p + x == p + y
    ensures x == y
  {
    assert x == (p + x)[|p|..];
    assert y == (p + y)[|p|..];
  }

  lemma Regroup(p: string, a: string, b: string, c: string, d: string, s: string)
    ensures p + a + b + c + d + s == p + (a + (b + (c + (d + s))))
  {
  }

  lemma Regroup3(p: string, a: string, b: string, s: string)
    ensures p + a + b + s == p + (a + (b + s))
  {
  }

  /** A leaf's dump is a fixed word around one character. */
  lemma LeafPrefix(w: string, v: string, v': string, s: string, t: string)
    requires |v| == 1 && |v'| == 1
    requires w + v + ")" + s == w + v' + ")" + t
    ensures v == v' && s == t
  {
    var x := w + v + ")" + s;
    assert x[|w|] == v[0] && x[|w|] == v'[0];
    assert s == x[|w| + 2..] && t == x[|w| + 2..];
  }

  lemma ParenSplit(y: Expr, z: Expr, s: string, t: string)
    requires Dump(Paren(y)) + s == Dump(Paren(z)) + t
    ensures Dump(y) + (")" + s) == Dump(z) + (")" + t)
  {
    Regroup3("Paren(", Dump(y), ")", s);
    Regroup3("Paren(", Dump(z), ")", t);
    DropPrefix("Paren(", Dump(y) + (")" + s), Dump(z) + (")" + t));
  }

  lemma BinarySplit(a1: Expr, a2: Expr, op: string, b1: Expr, b2: Expr, op': string, s: string, t: string)
    requires Dump(Binary(a1, a2, op)) + s == Dump(Binary(b1, b2, op')) + t
    ensures Dump(a1) + (op + (Dump(a2) + (")" + s))) == Dump(b1) + (op' + (Dump(b2) + (")" + t)))
  {
    Regroup("Binary(", Dump(a1), op, Dump(a2), ")", s);
    Regroup("Binary(", Dump(b1), op', Dump(b2), ")", t);
    DropPrefix("Binary(", Dump(a1) + (op + (Dump(a2) + (")" + s))), Dump(b1) + (op' + (Dump(b2) + (")" + t))));
  }

  /** A dump can be read back: no dump of a well-formed tree is a prefix of a
      different one, and what follows is determined too. */
  lemma {:induction false} DumpPrefix(a: Expr, b: Expr, s: string, t: string)
    requires WellFormed(a) && WellFormed(b)
    requires Dump(a) + s == Dump(b) + t
    ensures a == b && s == t
    decreases a
  {
    DumpHead(a);
    DumpHead(b);
    assert (Dump(a) + s)[0] == Dump(a)[0] && (Dump(b) + t)[0] == Dump(b)[0];
    match a
    case Literal(v) =>
      LeafPrefix("Literal(", v, b.value, s, t);
    case Variable(n) =>
      LeafPrefix("Variable(", n, b.name, s, t);
    case Paren(y) =>
      ParenSplit(y, b.operand, s, t);
      DumpPrefix(y, b.operand, ")" + s, ")" + t);
      DropPrefix(")", s, t);
    case Binary(a1, a2, op) =>
      BinarySplit(a1, a2, op, b.first, b.second, b.op, s, t);
      DumpPrefix(a1, b.first, op + (Dump(a2) + (")" + s)), b.op + (Dump(b.second) + (")" + t)));
      assert op == (op + (Dump(a2) + (")" + s)))[..1] && b.op == (b.op + (Dump(b.second) + (")" + t)))[..1];
      DropPrefix(op, Dump(a2) + (")" + s), Dump(b.second) + (")" + t));
      DumpPrefix(a2, b.second, ")" + s, ")" + t);
      DropPrefix(")", s, t);
  }

  /** Different well-formed trees have different dumps. */
  lemma DumpInjective(a: Expr, b: Expr)
    requires WellFormed(a) && WellFormed(b)
    ensures Dump(a) == Dump(b) <==> a == b
  {
    if Dump(a) == Dump(b) {
      assert Dump(a) + [] == Dump(a) && Dump(b) + [] == Dump(b);
      DumpPrefix(a, b, [], []);
    }
  }
}
