/**
 * The postfix (reverse Polish) printer of test.py: each operator follows its
 * operands, separated by single spaces, and a grouping is marked by a
 * trailing `group`. Literals print as in the prefix printer, under the
 * same nil test; test.py's printer is `Postfix(e, show, EqualsZero)`.
 */
module Rpn {
  import opened LoxAst
  import opened PyStr
  import opened AstPrinter

  /** What the postfix printer makes of a tree. */
  function Postfix(e: Expr, show: real -> string, test: NilTest): string
    requires Printable(e)
  {
    match e
    case Literal(lit) => LiteralPrint(lit, show, test)
    case Grouping(x) => Postfix(x, show, test) + " " + "group"
    case Unary(op, x) => Postfix(x, show, test) + " " + op.lexeme
    case Binary(l, op, r) => Postfix(l, show, test) + " " + Postfix(r, show, test) + " " + op.lexeme
  }

  /** The words of a tree in post-order: the children's words, then the node's own. */
  function PostOrder(e: Expr, show: real -> string, test: NilTest): (words: seq<string>)
    requires Printable(e)
    ensures |words| >= 1
  {
    match e
    case Literal(lit) => [LiteralPrint(lit, show, test)]
    case Grouping(x) => PostOrder(x, show, test) + ["group"]
    case Unary(op, x) => PostOrder(x, show, test) + [op.lexeme]
    case Binary(l, op, r) => PostOrder(l, show, test) + PostOrder(r, show, test) + [op.lexeme]
  }

  // ----- what the postfix printer guarantees -----

  /** The postfix text is the post-order list of words joined by single spaces. */
  lemma {:induction false} PostfixIsPostOrder(e: Expr, show: real -> string, test: NilTest)
    requires Printable(e)
    ensures Postfix(e, show, test) == Join(PostOrder(e, show, test), " ")
  {
    match e
    case Literal(lit) =>
    case Grouping(x) =>
      PostfixIsPostOrder(x, show, test);
      JoinSnoc(PostOrder(x, show, test), "group", " ");
    case Unary(op, x) =>
      PostfixIsPostOrder(x, show, test);
      JoinSnoc(PostOrder(x, show, test), op.lexeme, " ");
    case Binary(l, op, r) =>
      PostfixIsPostOrder(l, show, test);
      PostfixIsPostOrder(r, show, test);
      JoinAppend(PostOrder(l, show, test), PostOrder(r, show, test), " ");
      JoinSnoc(PostOrder(l, show, test) + PostOrder(r, show, test), op.lexeme, " ");
  }

  /**
   * The two printers print the same characters: the prefix one adds, for each
   * operator node, one pair of parentheses and two spaces.
   */
  lemma {:induction false} SameCharacters(e: Expr, show: real -> string, test: NilTest, c: char)
    requires Printable(e)
    ensures c == '(' || c == ')' ==> Count(Prefix(e, show, test), c) == Count(Postfix(e, show, test), c) + Nodes(e)
    ensures c == ' ' ==> Count(Prefix(e, show, test), c) == Count(Postfix(e, show, test), c) + 2 * Nodes(e)
    ensures c != '(' && c != ')' && c != ' ' ==> Count(Prefix(e, show, test), c) == Count(Postfix(e, show, test), c)
  {
    match e
    case Literal(lit) =>
    case Grouping(x) =>
      SameCharacters(x, show, test, c);
      FramedCount("group", Prefix(x, show, test), c);
      SpacedCount(Postfix(x, show, test), "group", c);
    case Unary(op, x) =>
      SameCharacters(x, show, test, c);
      FramedCount(op.lexeme, Prefix(x, show, test), c);
      SpacedCount(Postfix(x, show, test), op.lexeme, c);
    case Binary(l, op, r) =>
      SameCharacters(l, show, test, c);
      SameCharacters(r, show, test, c);
      SpacedCount(Prefix(l, show, test), Prefix(r, show, test), c);
      FramedCount(op.lexeme, Prefix(l, show, test) + " " + Prefix(r, show, test), c);
      SpacedCount(Postfix(l, show, test), Postfix(r, show, test), c);
      SpacedCount(Postfix(l, show, test) + " " + Postfix(r, show, test), op.lexeme, c);
  }

  /** Without nil-like literals test.py's printer as written and the intended one print the same text. */
  lemma {:induction false} PostfixPrintersAgree(e: Expr, show: real -> string)
    requires Printable(e) && NoNilLike(e)
    ensures Postfix(e, show, EqualsZero) == Postfix(e, show, IsNone)
  {
    match e
    case Literal(lit) =>
    case Grouping(x) =>
      PostfixPrintersAgree(x, show);
    case Unary(op, x) =>
      PostfixPrintersAgree(x, show);
    case Binary(l, op, r) =>
      PostfixPrintersAgree(l, show);
      PostfixPrintersAgree(r, show);
  }

  /** As written, test.py prints `0 + nil` as `nil None +`; the intended printer gives `0.0 nil +`. */
  lemma PostfixZeroPlusNil(plus: Token, show: real -> string)
    requires plus.lexeme == "+" && show(0.0) == "0.0"
    ensures Postfix(Binary(Literal(LitNumber(0.0)), plus, Literal(LitNil)), show, EqualsZero) == "nil None +"
    ensures Postfix(Binary(Literal(LitNumber(0.0)), plus, Literal(LitNil)), show, IsNone) == "0.0 nil +"
  {
  }
}
