/**
 * The prefix printer of pylox/ast_printer.py: every operator node becomes a
 * parenthesised list `( name child ... )` whose parts are separated by single
 * spaces. Python's `str` of a float is the parameter `show`.
 *
 * Literals print through `visit_literal_expr`, whose nil test is a parameter:
 * `EqualsZero` is the source's `value == 0`, which the printers use as
 * written; `IsNone` is the intended test.
 *
 * The printer only knows the node kinds of its own `.ast` module: literals,
 * groupings, unary and binary expressions (`Printable`).
 */
module AstPrinter {
  import opened LoxAst
  import opened PyStr

  /** The expression kinds the printers visit. */
  predicate Printable(e: Expr)
  {
    match e
    case Literal(_) => true
    case Grouping(x) => Printable(x)
    case Unary(_, x) => Printable(x)
    case Binary(l, _, r) => Printable(l) && Printable(r)
    case _ => false
  }

  /**
   * `visit_literal_expr` as written: `"nil" if expr.value == 0 else str(expr.value)`.
   * Python's `==` makes `False` and `0.0` equal to `0`, while `None` is not.
   */
  function LiteralTextAsWritten(lit: Lit, show: real -> string): string
  {
    match lit
    case LitNil => "None"
    case LitBool(b) => if b then "True" else "nil"
    case LitNumber(n) => if n == 0.0 then "nil" else show(n)
    case LitString(s) => s
  }

  /** `visit_literal_expr` as intended: `nil` exactly for the nil literal, `str` for everything else. */
  function LiteralText(lit: Lit, show: real -> string): string
  {
    match lit
    case LitNil => "nil"
    case LitBool(b) => if b then "True" else "False"
    case LitNumber(n) => show(n)
    case LitString(s) => s
  }

  /** The as-written test prints `false` and `0` as `nil`, and the nil literal as `None`. */
  lemma NilTestConfusesValues(show: real -> string)
    ensures LiteralTextAsWritten(LitBool(false), show) == "nil"
    ensures LiteralTextAsWritten(LitNumber(0.0), show) == "nil"
    ensures LiteralTextAsWritten(LitNil, show) == "None"
  {
  }

  /** With the intended test, `nil` is printed for the nil literal and for no other non-string literal. */
  lemma NilPrintedOnlyForNil(lit: Lit, show: real -> string)
    requires forall x :: show(x) != "nil"
    requires !lit.LitString?
    ensures LiteralText(lit, show) == "nil" <==> lit == LitNil
  {
  }

  /** The test `visit_literal_expr` applies before printing `nil`. */
  datatype NilTest = EqualsZero | IsNone

  /** A literal's text under the given nil test. */
  function LiteralPrint(lit: Lit, show: real -> string, test: NilTest): string
  {
    match test
    case EqualsZero => LiteralTextAsWritten(lit, show)
    case IsNone => LiteralText(lit, show)
  }

  /** The literals Python's `value == 0` mistakes for `nil`, together with nil itself, which it misses. */
  predicate NilLike(lit: Lit)
  {
    lit == LitNil || lit == LitBool(false) || lit == LitNumber(0.0)
  }

  /** The two tests print a literal alike exactly when it is not nil-like (given `str(0.0)` is not `nil`). */
  lemma TestsAgreeOnLiteral(lit: Lit, show: real -> string)
    requires show(0.0) != "nil"
    ensures LiteralPrint(lit, show, EqualsZero) == LiteralPrint(lit, show, IsNone) <==> !NilLike(lit)
  {
  }

  /** The name `__parenthesize` puts first in an operator node's list. */
  function NodeName(e: Expr): string
    requires e.Grouping? || e.Unary? || e.Binary?
  {
    if e.Grouping? then "group" else e.op.lexeme
  }

  /** The children `__parenthesize` visits, in order. */
  function Children(e: Expr): (cs: seq<Expr>)
    requires e.Grouping? || e.Unary? || e.Binary?
    ensures forall c :: c in cs ==> c < e
  {
    match e
    case Grouping(x) => [x]
    case Unary(_, x) => [x]
    case Binary(l, _, r) => [l, r]
  }

  /** What the printer makes of a tree: `( name child... )`, the parts separated by one space. */
  function Prefix(e: Expr, show: real -> string, test: NilTest): string
    requires Printable(e)
  {
    match e
    case Literal(lit) => LiteralPrint(lit, show, test)
    case Grouping(x) => Framed("group", Prefix(x, show, test))
    case Unary(op, x) => Framed(op.lexeme, Prefix(x, show, test))
    case Binary(l, op, r) => Framed(op.lexeme, Prefix(l, show, test) + " " + Prefix(r, show, test))
  }

  /** An operator node's text: its name and its children's texts inside a pair of parentheses. */
  function Framed(name: string, inside: string): string
  {
    "(" + " " + name + " " + inside + " " + ")"
  }

  /** Operator nodes in a tree: each prints one pair of parentheses. */
  function Nodes(e: Expr): nat
  {
    match e
    case Grouping(x) => 1 + Nodes(x)
    case Unary(_, x) => 1 + Nodes(x)
    case Binary(l, _, r) => 1 + Nodes(l) + Nodes(r)
    case _ => 0
  }

  /** No literal text and no operator lexeme in the tree holds a parenthesis. */
  predicate NoParens(e: Expr, show: real -> string, test: NilTest)
    requires Printable(e)
  {
    match e
    case Literal(lit) => '(' !in LiteralPrint(lit, show, test) && ')' !in LiteralPrint(lit, show, test)
    case Grouping(x) => NoParens(x, show, test)
    case Unary(op, x) => '(' !in op.lexeme && ')' !in op.lexeme && NoParens(x, show, test)
    case Binary(l, op, r) => '(' !in op.lexeme && ')' !in op.lexeme && NoParens(l, show, test) && NoParens(r, show, test)
  }

  /** No literal of the tree is nil-like. */
  predicate NoNilLike(e: Expr)
  {
    match e
    case Literal(lit) => !NilLike(lit)
    case Grouping(x) => NoNilLike(x)
    case Unary(_, x) => NoNilLike(x)
    case Binary(l, _, r) => NoNilLike(l) && NoNilLike(r)
    case _ => true
  }

  // ----- what the printer guarantees -----

  /** `" ".join` of four parts. */
  lemma JoinFour(a: string, b: string, c: string, d: string)
    ensures Join([a, b, c, d], " ") == a + " " + b + " " + c + " " + d
  {
    assert Join([d], " ") == d;
    assert [c, d][1..] == [d];
    assert Join([c, d], " ") == c + " " + d;
    assert [b, c, d][1..] == [c, d];
    assert Join([b, c, d], " ") == b + " " + (c + " " + d);
    assert [a, b, c, d][1..] == [b, c, d];
    assert Join([a, b, c, d], " ") == a + " " + (b + " " + (c + " " + d));
  }

  /** `" ".join` of five parts. */
  lemma JoinFive(a: string, b: string, c: string, d: string, e: string)
    ensures Join([a, b, c, d, e], " ") == a + " " + b + " " + (c + " " + d) + " " + e
  {
    JoinFour(b, c, d, e);
    assert [a, b, c, d, e][1..] == [b, c, d, e];
    assert Join([a, b, c, d, e], " ") == a + " " + (b + " " + c + " " + d + " " + e);
    assert b + " " + c + " " + d + " " + e == b + " " + (c + " " + d) + " " + e;
  }

  /** Parentheses balance: one pair per operator node, unless a lexeme or a literal itself holds one. */
  lemma {:induction false} ParensBalance(e: Expr, show: real -> string, test: NilTest)
    requires Printable(e) && NoParens(e, show, test)
    ensures Count(Prefix(e, show, test), '(') == Nodes(e)
    ensures Count(Prefix(e, show, test), ')') == Nodes(e)
  {
    match e
    case Literal(lit) =>
      CountAbsent(LiteralPrint(lit, show, test), '(');
      CountAbsent(LiteralPrint(lit, show, test), ')');
    case Grouping(x) =>
      ParensBalance(x, show, test);
      FramedParens("group", Prefix(x, show, test));
    case Unary(op, x) =>
      ParensBalance(x, show, test);
      FramedParens(op.lexeme, Prefix(x, show, test));
    case Binary(l, op, r) =>
      ParensBalance(l, show, test);
      ParensBalance(r, show, test);
      SpacedParens(Prefix(l, show, test), Prefix(r, show, test));
      FramedParens(op.lexeme, Prefix(l, show, test) + " " + Prefix(r, show, test));
  }

  /** Without nil-like literals the printer as written and the intended one print the same text. */
  lemma {:induction false} PrintersAgree(e: Expr, show: real -> string)
    requires Printable(e) && NoNilLike(e)
    ensures Prefix(e, show, EqualsZero) == Prefix(e, show, IsNone)
  {
    match e
    case Literal(lit) =>
    case Grouping(x) =>
      PrintersAgree(x, show);
    case Unary(op, x) =>
      PrintersAgree(x, show);
    case Binary(l, op, r) =>
      PrintersAgree(l, show);
      PrintersAgree(r, show);
  }

  /** As written, `0 + nil` prints as `( + nil None )`; the intended printer gives `( + 0.0 nil )`. */
  lemma ZeroPlusNil(plus: Token, show: real -> string)
    requires plus.lexeme == "+" && show(0.0) == "0.0"
    ensures Prefix(Binary(Literal(LitNumber(0.0)), plus, Literal(LitNil)), show, EqualsZero) == "( + nil None )"
    ensures Prefix(Binary(Literal(LitNumber(0.0)), plus, Literal(LitNil)), show, IsNone) == "( + 0.0 nil )"
  {
  }

  /** The frame `( name ... )` adds one parenthesis of each kind to what a parenthesis-free name and the inside hold. */
  lemma FramedParens(name: string, inside: string)
    requires '(' !in name && ')' !in name
    ensures Count(Framed(name, inside), '(') == Count(inside, '(') + 1
    ensures Count(Framed(name, inside), ')') == Count(inside, ')') + 1
  {
    CountAbsent(name, '(');
    CountAbsent(name, ')');
    FramedCount(name, inside, '(');
    FramedCount(name, inside, ')');
  }

  /** Two texts side by side, separated by a space, hold the parentheses of both. */
  lemma SpacedParens(a: string, b: string)
    ensures Count(a + " " + b, '(') == Count(a, '(') + Count(b, '(')
    ensures Count(a + " " + b, ')') == Count(a, ')') + Count(b, ')')
  {
    SpacedCount(a, b, '(');
    SpacedCount(a, b, ')');
  }

  /** A space: counted once if it is the character counted. */
  function Space(c: char): nat
  {
    if c == ' ' then 1 else 0
  }

  /** Characters of `a + " " + b`. */
  lemma SpacedCount(a: string, b: string, c: char)
    ensures Count(a + " " + b, c) == Count(a, c) + Space(c) + Count(b, c)
  {
    CountAppend(a, " ", c);
    CountAppend(a + " ", b, c);
  }

  /** Characters of `( name inside )`: those of the name and the inside, two parentheses and three spaces. */
  lemma FramedCount(name: string, inside: string, c: char)
    ensures Count(Framed(name, inside), c) ==
      Count(name, c) + Count(inside, c) + 3 * Space(c) + (if c == '(' then 1 else 0) + (if c == ')' then 1 else 0)
  {
    CountAppend("(" + " ", name, c);
    CountAppend("(" + " " + name, " ", c);
    CountAppend("(" + " " + name + " ", inside, c);
    CountAppend("(" + " " + name + " " + inside, " ", c);
    CountAppend("(" + " " + name + " " + inside + " ", ")", c);
  }

  /** The list `__parenthesize` builds for an operator node, joined with spaces, is the node's text. */
  lemma JoinedParts(e: Expr, parts: seq<string>, show: real -> string, test: NilTest)
    requires Printable(e) && (e.Grouping? || e.Unary? || e.Binary?)
    requires |parts| == |Children(e)| + 3 && parts[0] == "(" && parts[1] == NodeName(e) && parts[|parts| - 1] == ")"
    requires forall k :: 0 <= k < |Children(e)| ==> parts[2 + k] == Prefix(Children(e)[k], show, test)
    ensures Join(parts, " ") == Prefix(e, show, test)
  {
    match e
    case Grouping(x) =>
      assert parts == ["(", "group", Prefix(x, show, test), ")"];
      JoinFour("(", "group", Prefix(x, show, test), ")");
    case Unary(op, x) =>
      assert parts == ["(", op.lexeme, Prefix(x, show, test), ")"];
      JoinFour("(", op.lexeme, Prefix(x, show, test), ")");
    case Binary(l, op, r) =>
      assert parts[2] == Prefix(l, show, test) && parts[3] == Prefix(r, show, test);
      assert parts == ["(", op.lexeme, Prefix(l, show, test), Prefix(r, show, test), ")"];
      JoinFive("(", op.lexeme, Prefix(l, show, test), Prefix(r, show, test), ")");
  }

  /**
   * The visitor itself: `accept` on each child from `__parenthesize`'s loop,
   * the parts collected in a list and joined with spaces. Literals print
   * with the source's `value == 0` test.
   */
  method PrintTree(e: Expr, show: real -> string) returns (s: string)
    requires Printable(e)
    ensures s == Prefix(e, show, EqualsZero)
    decreases e
  {
    if e.Literal? {
      return LiteralTextAsWritten(e.literal, show);
    }
    var name := NodeName(e);
    var children := Children(e);
    var parts := ["(", name];
    for i := 0 to |children|
      invariant |parts| == 2 + i && parts[0] == "(" && parts[1] == name
      invariant forall k :: 0 <= k < i ==> parts[2 + k] == Prefix(children[k], show, EqualsZero)
    {
      assert children[i] in children;
      var text := PrintTree(children[i], show);
      parts := parts + [text];
    }
    parts := parts + [")"];
    JoinedParts(e, parts, show, EqualsZero);
    s := Join(parts, " ");
  }
}
