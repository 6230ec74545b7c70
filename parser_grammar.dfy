/**
 * Precedence and associativity of the grammar in pylox/parser.py, stated as a
 * round trip: every tree the grammar can produce is parsed back from its tokens
 * written out in infix order.
 */
module ParserGrammar {
  import opened Wrappers
  import opened LoxAst
  import opened Parser

  /** The binary level an operator kind belongs to, or -1. */
  function BinaryLevel(kind: TokenType): int
  {
    match kind
    case EqualEqual | BangEqual => 0
    case Less | LessEqual | Greater | GreaterEqual => 1
    case Plus | Minus => 2
    case Star | Slash => 3
    case _ => -1
  }

  /** Each operator kind belongs to exactly one binary level; EOF to none. */
  lemma OperatorLevel(kind: TokenType, level: nat)
    requires level < 4
    ensures kind in Operators(level) <==> BinaryLevel(kind) == level
    ensures BinaryLevel(Eof) == -1
  {
  }

  /** How tightly an expression binds: its binary level, 4 for unary, 5 for a literal or a grouping. */
  function Prec(e: Expr): int
  {
    match e
    case Binary(_, op, _) => BinaryLevel(op.kind)
    case Unary(_, _) => 4
    case Literal(_) => 5
    case Grouping(_) => 5
    case _ => -1
  }

  /**
   * The trees the grammar can produce: binary nodes whose left operand binds at
   * least as tightly as the operator and whose right operand binds more tightly
   * (left associativity), unary nodes over a unary or primary operand.
   */
  predicate WellFormed(e: Expr)
  {
    match e
    case Literal(_) => true
    case Grouping(x) => WellFormed(x)
    case Unary(op, r) => op.kind in UnaryOperators && Prec(r) >= 4 && WellFormed(r)
    case Binary(l, op, r) =>
      && 0 <= BinaryLevel(op.kind)
      && Prec(l) >= BinaryLevel(op.kind) && Prec(r) > BinaryLevel(op.kind)
      && WellFormed(l) && WellFormed(r)
    case _ => false
  }

  const NoPosition: SourcePosition := SourcePosition(0, 0, 0)

  /** A token the parser turns into this literal. */
  function LiteralToken(lit: Lit): Token
  {
    match lit
    case LitNil => Token(Nil, "nil", NoPosition, LitNil)
    case LitBool(b) => if b then Token(True, "true", NoPosition, LitNil) else Token(False, "false", NoPosition, LitNil)
    case LitNumber(_) => Token(Number, "", NoPosition, lit)
    case LitString(_) => Token(String, "", NoPosition, lit)
  }

  /** The tokens of an expression written out in infix order, with parentheses for groupings. */
  function Flatten(e: Expr): seq<Token>
  {
    match e
    case Literal(lit) => [LiteralToken(lit)]
    case Grouping(x) => [Token(LeftParen, "(", NoPosition, LitNil)] + Flatten(x) + [Token(RightParen, ")", NoPosition, LitNil)]
    case Unary(op, r) => [op] + Flatten(r)
    case Binary(l, op, r) => Flatten(l) + [op] + Flatten(r)
    case _ => []
  }

  /** The number of tokens `Flatten(e)` has. */
  function Size(e: Expr): nat
  {
    match e
    case Literal(_) => 1
    case Grouping(x) => Size(x) + 2
    case Unary(_, r) => 1 + Size(r)
    case Binary(l, _, r) => Size(l) + 1 + Size(r)
    case _ => 0
  }

  /** The written-out expression sits in `ts` from `pos` on, and a token follows it. */
  predicate At(ts: seq<Token>, pos: nat, e: Expr)
    decreases e
  {
    pos + Size(e) < |ts| &&
    match e
    case Literal(lit) => ts[pos] == LiteralToken(lit)
    case Grouping(x) => ts[pos].kind == LeftParen && At(ts, pos + 1, x) && ts[pos + 1 + Size(x)].kind == RightParen
    case Unary(op, r) => ts[pos] == op && At(ts, pos + 1, r)
    case Binary(l, op, r) => At(ts, pos, l) && ts[pos + Size(l)] == op && At(ts, pos + Size(l) + 1, r)
    case _ => false
  }

  lemma {:induction false} FlattenSize(e: Expr)
    ensures |Flatten(e)| == Size(e)
  {
    match e
    case Literal(_) =>
    case Grouping(x) => FlattenSize(x);
    case Unary(_, r) => FlattenSize(r);
    case Binary(l, _, r) => FlattenSize(l); FlattenSize(r);
    case _ =>
  }

  /** Wherever the written-out expression stands in a token list, with a token after it, the expression is at that position. */
  lemma {:induction false} FlattenAt(ts: seq<Token>, pos: nat, e: Expr)
    requires WellFormed(e) && |Flatten(e)| == Size(e) && pos + Size(e) < |ts|
    requires forall i :: 0 <= i < Size(e) ==> ts[pos + i] == Flatten(e)[i]
    ensures At(ts, pos, e)
    decreases e, 1
  {
    match e
    case Literal(lit) =>
      assert ts[pos + 0] == Flatten(e)[0];
    case Grouping(x) =>
      GroupingFlattenAt(ts, pos, x);
    case Unary(op, r) =>
      UnaryFlattenAt(ts, pos, op, r);
    case Binary(l, op, r) =>
      BinaryFlattenAt(ts, pos, l, op, r);
  }

  lemma {:induction false} GroupingFlattenAt(ts: seq<Token>, pos: nat, x: Expr)
    requires WellFormed(x) && |Flatten(Grouping(x))| == Size(Grouping(x)) && pos + Size(Grouping(x)) < |ts|
    requires forall i :: 0 <= i < Size(Grouping(x)) ==> ts[pos + i] == Flatten(Grouping(x))[i]
    ensures At(ts, pos, Grouping(x))
    decreases Grouping(x), 0
  {
    var e := Grouping(x);
    FlattenSize(x);
    forall i | 0 <= i < Size(x)
      ensures ts[pos + 1 + i] == Flatten(x)[i]
    {
      assert ts[pos + (1 + i)] == Flatten(e)[1 + i];
    }
    FlattenAt(ts, pos + 1, x);
    assert ts[pos + 0] == Flatten(e)[0];
    assert ts[pos + (1 + Size(x))] == Flatten(e)[1 + Size(x)];
  }

  lemma {:induction false} UnaryFlattenAt(ts: seq<Token>, pos: nat, op: Token, r: Expr)
    requires WellFormed(r) && |Flatten(Unary(op, r))| == Size(Unary(op, r)) && pos + Size(Unary(op, r)) < |ts|
    requires forall i :: 0 <= i < Size(Unary(op, r)) ==> ts[pos + i] == Flatten(Unary(op, r))[i]
    ensures At(ts, pos, Unary(op, r))
    decreases Unary(op, r), 0
  {
    var e := Unary(op, r);
    FlattenSize(r);
    forall i | 0 <= i < Size(r)
      ensures ts[pos + 1 + i] == Flatten(r)[i]
    {
      assert ts[pos + (1 + i)] == Flatten(e)[1 + i];
    }
    FlattenAt(ts, pos + 1, r);
    assert ts[pos + 0] == Flatten(e)[0];
  }

  lemma {:induction false} BinaryFlattenAt(ts: seq<Token>, pos: nat, l: Expr, op: Token, r: Expr)
    requires WellFormed(l) && WellFormed(r)
    requires |Flatten(Binary(l, op, r))| == Size(Binary(l, op, r)) && pos + Size(Binary(l, op, r)) < |ts|
    requires forall i :: 0 <= i < Size(Binary(l, op, r)) ==> ts[pos + i] == Flatten(Binary(l, op, r))[i]
    ensures At(ts, pos, Binary(l, op, r))
    decreases Binary(l, op, r), 0
  {
    var e := Binary(l, op, r);
    FlattenSize(l);
    FlattenSize(r);
    forall i | 0 <= i < Size(l)
      ensures ts[pos + i] == Flatten(l)[i]
    {
      assert ts[pos + i] == Flatten(e)[i];
    }
    FlattenAt(ts, pos, l);
    forall i | 0 <= i < Size(r)
      ensures ts[pos + Size(l) + 1 + i] == Flatten(r)[i]
    {
      assert ts[pos + (Size(l) + 1 + i)] == Flatten(e)[Size(l) + 1 + i];
    }
    FlattenAt(ts, pos + Size(l) + 1, r);
    assert ts[pos + Size(l)] == Flatten(e)[Size(l)];
  }

  /**
   * A binary level parses a well-formed expression that binds at least as
   * tightly as the level, and then goes on looping from it, as long as what
   * follows is not an operator of a tighter level.
   */
  lemma {:induction false} BinaryRoundTrip(ts: seq<Token>, pos: nat, e: Expr, level: nat)
    requires Terminated(ts) && level < 4
    requires WellFormed(e) && Prec(e) >= level && At(ts, pos, e) && pos + Size(e) <= FirstEof(ts)
    requires BinaryLevel(ts[pos + Size(e)].kind) <= level
    ensures ParseBinary(ts, pos, level) == ParseLoop(ts, level, e, pos + Size(e))
    decreases e, 5 - level, 2
  {
    if Prec(e) > level {
      TighterRoundTrip(ts, pos, e, level);
    } else {
      SameLevelRoundTrip(ts, pos, e, level);
    }
  }

  /** The case of `BinaryRoundTrip` where the expression binds more tightly than the level: it is the first operand. */
  lemma {:induction false} TighterRoundTrip(ts: seq<Token>, pos: nat, e: Expr, level: nat)
    requires Terminated(ts) && level < 4
    requires WellFormed(e) && Prec(e) > level && At(ts, pos, e) && pos + Size(e) <= FirstEof(ts)
    requires BinaryLevel(ts[pos + Size(e)].kind) <= level
    ensures ParseBinary(ts, pos, level) == ParseLoop(ts, level, e, pos + Size(e))
    decreases e, 5 - level, 1
  {
    OperandRoundTrip(ts, pos, e, level + 1);
    OperandThenLoop(ts, pos, level, e, pos + Size(e));
  }

  /** The case of `BinaryRoundTrip` where the expression is an operator of the level itself. */
  lemma {:induction false} SameLevelRoundTrip(ts: seq<Token>, pos: nat, e: Expr, level: nat)
    requires Terminated(ts) && level < 4
    requires WellFormed(e) && Prec(e) == level && At(ts, pos, e) && pos + Size(e) <= FirstEof(ts)
    requires BinaryLevel(ts[pos + Size(e)].kind) <= level
    ensures ParseBinary(ts, pos, level) == ParseLoop(ts, level, e, pos + Size(e))
    decreases e, 5 - level, 1
  {
    var Binary(l, op, r) := e;
    var mid := pos + Size(l);
    var end := mid + 1 + Size(r);
    assert At(ts, pos, l) && ts[mid] == op && At(ts, mid + 1, r);
    OperandRoundTrip(ts, mid + 1, r, level + 1);
    BinaryRoundTrip(ts, pos, l, level);
    LevelStep(ts, level, l, mid, r, end);
    assert Binary(l, ts[mid], r) == e && end == pos + Size(e);
  }

  /** An operator of the level, then an operand of the next one: the loop takes one step. */
  lemma LevelStep(ts: seq<Token>, level: nat, acc: Expr, mid: nat, r: Expr, end: nat)
    requires Terminated(ts) && mid < end <= FirstEof(ts) && level < 4
    requires BinaryLevel(ts[mid].kind) == level
    requires ParseOperand(ts, mid + 1, level + 1) == POk(r, end)
    ensures ParseLoop(ts, level, acc, mid) == ParseLoop(ts, level, Binary(acc, ts[mid], r), end)
  {
    OperatorLevel(ts[mid].kind, level);
    LoopStep(ts, level, acc, mid, r, end);
  }

  /** The loop of a level stops before a token that is no operator of this level or a tighter one. */
  lemma LoopStopsBelow(ts: seq<Token>, level: nat, acc: Expr, end: nat)
    requires Terminated(ts) && end <= FirstEof(ts) && level < 4
    requires BinaryLevel(ts[end].kind) < level
    ensures ParseLoop(ts, level, acc, end) == POk(acc, end)
  {
    OperatorLevel(ts[end].kind, level);
    LoopStops(ts, level, acc, end);
  }

  /**
   * The operand of a level parses a well-formed expression that binds at least
   * as tightly as the level, and stops right after it when what follows is not
   * an operator of this level or a tighter one.
   */
  lemma {:induction false} OperandRoundTrip(ts: seq<Token>, pos: nat, e: Expr, level: nat)
    requires Terminated(ts) && level <= 4
    requires WellFormed(e) && Prec(e) >= level && At(ts, pos, e) && pos + Size(e) <= FirstEof(ts)
    requires BinaryLevel(ts[pos + Size(e)].kind) < level
    ensures ParseOperand(ts, pos, level) == POk(e, pos + Size(e))
    decreases e, 5 - level, 4
  {
    if level < 4 {
      BinaryOperandRoundTrip(ts, pos, e, level);
    } else {
      UnaryRoundTrip(ts, pos, e);
    }
  }

  /** The case of `OperandRoundTrip` below unary: the level's loop takes the expression and stops after it. */
  lemma {:induction false} BinaryOperandRoundTrip(ts: seq<Token>, pos: nat, e: Expr, level: nat)
    requires Terminated(ts) && level < 4
    requires WellFormed(e) && Prec(e) >= level && At(ts, pos, e) && pos + Size(e) <= FirstEof(ts)
    requires BinaryLevel(ts[pos + Size(e)].kind) < level
    ensures ParseBinary(ts, pos, level) == POk(e, pos + Size(e))
    decreases e, 5 - level, 3
  {
    BinaryRoundTrip(ts, pos, e, level);
    LoopStopsBelow(ts, level, e, pos + Size(e));
  }

  /** `__unary` parses a well-formed unary, literal or grouping and stops right after it. */
  lemma {:induction false} UnaryRoundTrip(ts: seq<Token>, pos: nat, e: Expr)
    requires Terminated(ts)
    requires WellFormed(e) && Prec(e) >= 4 && At(ts, pos, e) && pos + Size(e) <= FirstEof(ts)
    ensures ParseOperand(ts, pos, 4) == POk(e, pos + Size(e))
    decreases e, 0, 1
  {
    UnaryShapes(e);
    if e.Unary? {
      PrefixRoundTrip(ts, pos, e);
    } else if e.Literal? {
      LiteralStep(ts, pos, e.literal);
    } else {
      GroupingRoundTrip(ts, pos, e);
    }
  }

  /** What binds at least as tightly as unary is a unary, a literal or a grouping. */
  lemma UnaryShapes(e: Expr)
    requires WellFormed(e) && Prec(e) >= 4
    ensures e.Unary? || e.Literal? || e.Grouping?
  {
  }

  /** A `!` or `-` in front of a well-formed operand of `__unary`. */
  lemma {:induction false} PrefixRoundTrip(ts: seq<Token>, pos: nat, e: Expr)
    requires Terminated(ts) && e.Unary?
    requires WellFormed(e) && At(ts, pos, e) && pos + Size(e) <= FirstEof(ts)
    ensures ParseOperand(ts, pos, 4) == POk(e, pos + Size(e))
    decreases e, 0, 0
  {
    var Unary(op, r) := e;
    UnaryRoundTrip(ts, pos + 1, r);
    UnaryStep(ts, pos, r, pos + 1 + Size(r));
  }

  /** A `!` or `-` in front of an operand `__unary` parses. */
  lemma UnaryStep(ts: seq<Token>, pos: nat, r: Expr, end: nat)
    requires Terminated(ts) && pos < FirstEof(ts) && Matches(ts, pos, UnaryOperators)
    requires ParseOperand(ts, pos + 1, 4) == POk(r, end)
    ensures ParseOperand(ts, pos, 4) == POk(Unary(ts[pos], r), end)
  {
  }

  /** A parenthesised expression is parsed by `__primary`. */
  lemma {:induction false} GroupingRoundTrip(ts: seq<Token>, pos: nat, e: Expr)
    requires Terminated(ts) && e.Grouping?
    requires WellFormed(e) && At(ts, pos, e) && pos + Size(e) <= FirstEof(ts)
    ensures ParseOperand(ts, pos, 4) == POk(e, pos + Size(e))
    decreases e, 0, 0
  {
    var x := e.expression;
    OperandRoundTrip(ts, pos + 1, x, 0);
    GroupingStep(ts, pos, x, pos + 1 + Size(x));
  }

  /** `(`, an expression, `)`. */
  lemma GroupingStep(ts: seq<Token>, pos: nat, x: Expr, close: nat)
    requires Terminated(ts) && close < FirstEof(ts) && pos < close
    requires ts[pos].kind == LeftParen && ts[close].kind == RightParen
    requires ParseOperand(ts, pos + 1, 0) == POk(x, close)
    ensures ParseOperand(ts, pos, 4) == POk(Grouping(x), close + 1)
  {
    assert ParseOperand(ts, pos, 4) == ParseUnary(ts, pos) == ParsePrimary(ts, pos) == ParseGroup(ts, pos + 1);
    assert ParseOperand(ts, pos + 1, 0) == ParseBinary(ts, pos + 1, 0);
  }

  /** A literal token is parsed by `__primary`. */
  lemma LiteralStep(ts: seq<Token>, pos: nat, lit: Lit)
    requires Terminated(ts) && pos < FirstEof(ts) && ts[pos] == LiteralToken(lit)
    ensures ParseOperand(ts, pos, 4) == POk(Literal(lit), pos + 1)
  {
    assert ParseOperand(ts, pos, 4) == ParseUnary(ts, pos) == ParsePrimary(ts, pos);
  }

  const EofToken: Token := Token(Eof, "", NoPosition, LitNil)

  /**
   * Every tree the grammar can produce comes back from its written-out tokens:
   * precedence and left associativity are exactly what `WellFormed` says.
   */
  lemma ParseFlatten(e: Expr)
    requires WellFormed(e)
    ensures ParseTokens(Flatten(e) + [EofToken]) == Some(e)
  {
    var ts := Flatten(e) + [EofToken];
    FlattenedAt(e);
    FlattenedFirstEof(e);
    ParseWhole(ts, e);
  }

  /** A token list that holds exactly one well-formed expression before its first EOF parses to it. */
  lemma ParseWhole(ts: seq<Token>, e: Expr)
    requires Terminated(ts) && WellFormed(e) && At(ts, 0, e) && FirstEof(ts) == Size(e)
    ensures ParseTokens(ts) == Some(e)
  {
    WellFormedPrec(e);
    OperandRoundTrip(ts, 0, e, 0);
    assert ParseOperand(ts, 0, 0) == ParseBinary(ts, 0, 0);
  }

  /** A well-formed expression binds at some level of the grammar. */
  lemma WellFormedPrec(e: Expr)
    requires WellFormed(e)
    ensures 0 <= Prec(e) <= 5
  {
  }

  /** The written-out expression sits at the start of its own token list. */
  lemma FlattenedAt(e: Expr)
    requires WellFormed(e)
    ensures Size(e) < |Flatten(e) + [EofToken]| && At(Flatten(e) + [EofToken], 0, e)
  {
    FlattenSize(e);
    FlattenPrefix(Flatten(e), [EofToken]);
    FlattenAt(Flatten(e) + [EofToken], 0, e);
  }

  lemma FlattenPrefix(a: seq<Token>, b: seq<Token>)
    ensures forall i :: 0 <= i < |a| ==> (a + b)[0 + i] == a[i]
  {
  }

  /** The EOF appended after the written-out expression is the first one. */
  lemma FlattenedFirstEof(e: Expr)
    requires WellFormed(e)
    ensures FirstEof(Flatten(e) + [EofToken]) == Size(e)
  {
    var ts := Flatten(e) + [EofToken];
    FlattenSize(e);
    FlattenNoEof(e);
    BeforeFirstEof(ts);
    FlattenPrefix(Flatten(e), [EofToken]);
  }

  /** No token of a well-formed written-out expression is EOF. */
  lemma {:induction false} FlattenNoEof(e: Expr)
    requires WellFormed(e)
    ensures forall i :: 0 <= i < |Flatten(e)| ==> Flatten(e)[i].kind != Eof
  {
    match e
    case Literal(lit) =>
    case Grouping(x) =>
      FlattenNoEof(x);
    case Unary(op, r) =>
      FlattenNoEof(r);
    case Binary(l, op, r) =>
      FlattenNoEof(l);
      FlattenNoEof(r);
  }

  /** `a op b op c`, both operators on one level, groups to the left. */
  lemma LeftAssociative(a: Expr, op1: Token, b: Expr, op2: Token, c: Expr)
    requires Prec(a) == Prec(b) == Prec(c) == 5
    requires WellFormed(a) && WellFormed(b) && WellFormed(c)
    requires 0 <= BinaryLevel(op1.kind) == BinaryLevel(op2.kind)
    ensures ParseTokens(Flatten(a) + [op1] + Flatten(b) + [op2] + Flatten(c) + [EofToken])
         == Some(Binary(Binary(a, op1, b), op2, c))
  {
    ParseFlatten(Binary(Binary(a, op1, b), op2, c));
  }

  /**
   * In `a op1 b op2 c` the operator of the tighter level takes `b`; on a tie
   * the left one does.
   */
  lemma Precedence(a: Expr, op1: Token, b: Expr, op2: Token, c: Expr)
    requires Prec(a) == Prec(b) == Prec(c) == 5
    requires WellFormed(a) && WellFormed(b) && WellFormed(c)
    requires 0 <= BinaryLevel(op1.kind) && 0 <= BinaryLevel(op2.kind)
    ensures var ts := Flatten(a) + [op1] + Flatten(b) + [op2] + Flatten(c) + [EofToken];
      && (BinaryLevel(op1.kind) < BinaryLevel(op2.kind) ==> ParseTokens(ts) == Some(Binary(a, op1, Binary(b, op2, c))))
      && (BinaryLevel(op1.kind) >= BinaryLevel(op2.kind) ==> ParseTokens(ts) == Some(Binary(Binary(a, op1, b), op2, c)))
  {
    if BinaryLevel(op1.kind) < BinaryLevel(op2.kind) {
      var e := Binary(a, op1, Binary(b, op2, c));
      assert Flatten(e) == Flatten(a) + [op1] + Flatten(b) + [op2] + Flatten(c);
      ParseFlatten(e);
    } else {
      ParseFlatten(Binary(Binary(a, op1, b), op2, c));
    }
  }

  /** `!` and `-` nest to the right: `op1 op2 x` is `Unary(op1, Unary(op2, x))`. */
  lemma UnaryNests(op1: Token, op2: Token, x: Expr)
    requires op1.kind in UnaryOperators && op2.kind in UnaryOperators
    requires WellFormed(x) && Prec(x) == 5
    ensures ParseTokens([op1, op2] + Flatten(x) + [EofToken]) == Some(Unary(op1, Unary(op2, x)))
  {
    var e := Unary(op1, Unary(op2, x));
    assert Flatten(e) == [op1, op2] + Flatten(x);
    ParseFlatten(e);
  }

}
