/** The visitor that prints a tree into a growing buffer. The source's
    double dispatch (`expression.Accept(visitor)` calling back the
    `Visit` overload for the expression's class) becomes `Accept`, which
    selects the `Visit` method by the constructor of the tree. */
module DumpVisitors {
  import opened Expressions

  class DumpVisitor {
    var builder: string

    constructor ()
      ensures builder == ""
    {
      builder := "";
    }

    method VisitLiteral(e: Expr)
      requires e.Literal?
      modifies this
      ensures builder == old(builder) + Dump(e)
    {
      builder := builder + "Literal(" + e.value + ")";
    }

    method VisitVariable(e: Expr)
      requires e.Variable?
      modifies this
      ensures builder == old(builder) + Dump(e)
    {
      builder := builder + "Variable(" + e.name + ")";
    }

    method VisitBinary(e: Expr)
      requires e.Binary?
      modifies this
      ensures builder == old(builder) + Dump(e)
      decreases e, 0
    {
      builder := builder + "Binary(";
      Accept(e.first);
      builder := builder + e.op;
      Accept(e.second);
      builder := builder + ")";
    }

    method VisitParen(e: Expr)
      requires e.Paren?
      modifies this
      ensures builder == old(builder) + Dump(e)
      decreases e, 0
    {
      builder := builder + "Paren(";
      Accept(e.operand);
      builder := builder + ")";
    }

    /** Appends the dump of `e` to what the visitor has written so far. */
    method Accept(e: Expr)
      modifies this
      ensures builder == old(builder) + Dump(e)
      decreases e, 1
    {
      match e
      case Literal(_) => VisitLiteral(e);
      case Variable(_) => VisitVariable(e);
      case Binary(_, _, _) => VisitBinary(e);
      case Paren(_) => VisitParen(e);
    }

    function ToString(): string
      reads this
    {
      builder
    }
  }

  /** A fresh visitor accepted by `e` holds the dump of `e`. */
  method DumpOf(e: Expr) returns (s: string)
    ensures s == Dump(e)
  {
    var visitor := new DumpVisitor();
    visitor.Accept(e);
    s := visitor.ToString();
  }

  /** The dump of the tree for `1+2`, built by hand. */
  method DumpOnePlusTwo() returns (s: string)
    ensures s == "Binary(Literal(1)+Literal(2))"
  {
    s := DumpOf(Binary(Literal("1"), Literal("2"), "+"));
  }
}
