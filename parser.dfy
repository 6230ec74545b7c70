/**
 * The recursive-descent expression parser of pylox/parser.py:
 *
 *   expression  -> equality
 *   equality    -> comparison ( ( "!=" | "==" ) comparison )*
 *   comparison  -> term ( ( ">" | ">=" | "<" | "<=" ) term )*
 *   term        -> factor ( ( "-" | "+" ) factor )*
 *   factor      -> unary ( ( "/" | "*" ) unary )*
 *   unary       -> ( "!" | "-" ) unary | primary
 *   primary     -> NUMBER | STRING | "true" | "false" | "nil" | "(" expression ")"
 *
 * The four binary levels are numbered 0 (equality) to 3 (factor); level 4 is
 * unary. `ParseBinary`, `ParseLoop`, `ParseUnary` and `ParsePrimary` say what
 * each production does to a token list and a cursor; the `Parser` class mirrors
 * the Python class and its methods are proved to do exactly that. A raised
 * `ParseError` is an `Option` that is `None`, the report handed to the error
 * reporter being appended to `reports`.
 */
module Parser {
  import opened Wrappers
  import opened LoxAst
  import opened Errors

  /** The operator kinds each binary level matches; `__match` tries them one after another. */
  function Operators(level: nat): set<TokenType>
  {
    if level == 0 then {EqualEqual, BangEqual}
    else if level == 1 then {Less, LessEqual, Greater, GreaterEqual}
    else if level == 2 then {Plus, Minus}
    else if level == 3 then {Star, Slash}
    else {}
  }

  const UnaryOperators: set<TokenType> := {Bang, Minus}

  /** A token list as the lexer hands it over: it ends with EOF. */
  predicate Terminated(ts: seq<Token>)
  {
    |ts| > 0 && ts[|ts| - 1].kind == Eof
  }

  /** What `__check` answers for each kind in `types` combined by `__match`. */
  predicate Matches(ts: seq<Token>, pos: nat, types: set<TokenType>)
    requires pos < |ts|
  {
    ts[pos].kind != Eof && ts[pos].kind in types
  }

  /** The index of the first EOF token: the cursor never moves past it. */
  function FirstEof(ts: seq<Token>): (n: nat)
    requires Terminated(ts)
    ensures n < |ts| && ts[n].kind == Eof
  {
    EofFrom(ts, 0)
  }

  /** No token before the first EOF is an EOF. */
  lemma BeforeFirstEof(ts: seq<Token>)
    requires Terminated(ts)
    ensures forall i :: 0 <= i < FirstEof(ts) ==> ts[i].kind != Eof
  {
    BeforeEofFrom(ts, 0);
  }

  function EofFrom(ts: seq<Token>, i: nat): (n: nat)
    requires Terminated(ts) && i < |ts|
    ensures i <= n < |ts| && ts[n].kind == Eof
    decreases |ts| - i
  {
    if ts[i].kind == Eof then i else EofFrom(ts, i + 1)
  }

  lemma {:induction false} BeforeEofFrom(ts: seq<Token>, i: nat)
    requires Terminated(ts) && i < |ts|
    ensures forall k :: i <= k < EofFrom(ts, i) ==> ts[k].kind != Eof
    decreases |ts| - i
  {
    if ts[i].kind != Eof {
      BeforeEofFrom(ts, i + 1);
    }
  }

  /** The outcome of a production: the tree and where the cursor stands after it, or the error raised at a token. */
  datatype Parsed = POk(expr: Expr, next: nat) | PErr(at: nat, message: string)

  /** Where the cursor stands once the production returns or raises. */
  function End(r: Parsed): nat
  {
    if r.POk? then r.next else r.at
  }

  /** The tree a production hands back, `None` when it raised a `ParseError`. */
  function Outcome(r: Parsed): Option<Expr>
  {
    if r.POk? then Some(r.expr) else None
  }

  /** The report `__error` hands over when the production raised at a token of `ts`. */
  function ErrorReports(ts: seq<Token>, r: Parsed): seq<Report>
  {
    if r.PErr? && r.at < |ts| then [Report(ts[r.at].position, r.message)] else []
  }

  const ExpectExpression: string := "Expect expression."
  const ExpectParen: string := "Expect ')' after expression."

  // ----- the productions as functions of the token list and the cursor -----

  /** `__binary_expression(operand, Operators(level))`: an operand, then the loop over operators of this level. */
  function ParseBinary(ts: seq<Token>, pos: nat, level: nat): (r: Parsed)
    requires Terminated(ts) && pos <= FirstEof(ts) && level < 4
    ensures pos <= End(r) <= FirstEof(ts) && (r.POk? ==> pos < r.next)
    decreases |ts| - pos, 10 - 2 * level
  {
    var left := ParseOperand(ts, pos, level + 1);
    if left.PErr? then left
    else
      var r := ParseLoop(ts, level, left.expr, left.next);
      r
  }

  /** The operand of level `level - 1`: the next binary level, or `unary` below factor. */
  function ParseOperand(ts: seq<Token>, pos: nat, level: nat): (r: Parsed)
    requires Terminated(ts) && pos <= FirstEof(ts) && level <= 4
    ensures pos <= End(r) <= FirstEof(ts) && (r.POk? ==> pos < r.next)
    decreases |ts| - pos, 11 - 2 * level
  {
    if level == 4 then ParseUnary(ts, pos) else ParseBinary(ts, pos, level)
  }

  /** The `while self.__match(operator_types)` loop, `acc` being the expression built so far. */
  function ParseLoop(ts: seq<Token>, level: nat, acc: Expr, pos: nat): (r: Parsed)
    requires Terminated(ts) && pos <= FirstEof(ts) && level < 4
    ensures pos <= End(r) <= FirstEof(ts)
    decreases |ts| - pos, 0
  {
    if !Matches(ts, pos, Operators(level)) then POk(acc, pos)
    else
      var right := ParseOperand(ts, pos + 1, level + 1);
      if right.PErr? then right
      else
        var r := ParseLoop(ts, level, Binary(acc, ts[pos], right.expr), right.next);
        r
  }

  /** `__unary`: `!` and `-` nest to the right over a primary. */
  function ParseUnary(ts: seq<Token>, pos: nat): (r: Parsed)
    requires Terminated(ts) && pos <= FirstEof(ts)
    ensures pos <= End(r) <= FirstEof(ts) && (r.POk? ==> pos < r.next)
    decreases |ts| - pos, 2
  {
    if Matches(ts, pos, UnaryOperators) then
      var right := ParseUnary(ts, pos + 1);
      if right.PErr? then right else POk(Unary(ts[pos], right.expr), right.next)
    else ParsePrimary(ts, pos)
  }

  /** `__primary`. */
  function ParsePrimary(ts: seq<Token>, pos: nat): (r: Parsed)
    requires Terminated(ts) && pos <= FirstEof(ts)
    ensures pos <= End(r) <= FirstEof(ts) && (r.POk? ==> pos < r.next)
    decreases |ts| - pos, 1
  {
    if Matches(ts, pos, {False}) then POk(Literal(LitBool(false)), pos + 1)
    else if Matches(ts, pos, {True}) then POk(Literal(LitBool(true)), pos + 1)
    else if Matches(ts, pos, {Nil}) then POk(Literal(LitNil), pos + 1)
    else if Matches(ts, pos, {Number, String}) then POk(Literal(ts[pos].literal), pos + 1)
    else if Matches(ts, pos, {LeftParen}) then ParseGroup(ts, pos + 1)
    else PErr(pos, ExpectExpression)
  }

  /** The grouping branch of `__primary` after its `(`: an expression, then `)`. */
  function ParseGroup(ts: seq<Token>, pos: nat): (r: Parsed)
    requires Terminated(ts) && pos <= FirstEof(ts)
    ensures pos <= End(r) <= FirstEof(ts) && (r.POk? ==> pos < r.next)
    decreases |ts| - pos, 13
  {
    var inner := ParseBinary(ts, pos, 0);
    if inner.PErr? then inner
    else if Matches(ts, inner.next, {RightParen}) then POk(Grouping(inner.expr), inner.next + 1)
    else PErr(inner.next, ExpectParen)
  }

  /** `parse`: the expression, or `None` when a `ParseError` was raised. */
  function ParseTokens(ts: seq<Token>): Option<Expr>
    requires Terminated(ts)
  {
    var r := ParseBinary(ts, 0, 0);
    if r.POk? then Some(r.expr) else None
  }

  // ----- one step of each production -----

  /** A binary level whose operand parses `e` goes on looping from `e`. */
  lemma OperandThenLoop(ts: seq<Token>, pos: nat, level: nat, e: Expr, end: nat)
    requires Terminated(ts) && pos <= FirstEof(ts) && level < 4
    requires ParseOperand(ts, pos, level + 1) == POk(e, end)
    ensures ParseBinary(ts, pos, level) == ParseLoop(ts, level, e, end)
  {
  }

  /** A binary level raises what its first operand raises. */
  lemma OperandFails(ts: seq<Token>, pos: nat, level: nat)
    requires Terminated(ts) && pos <= FirstEof(ts) && level < 4
    requires ParseOperand(ts, pos, level + 1).PErr?
    ensures ParseBinary(ts, pos, level) == ParseOperand(ts, pos, level + 1)
  {
  }

  /** The loop raises what the operand after an operator raises. */
  lemma LoopFails(ts: seq<Token>, level: nat, acc: Expr, mid: nat)
    requires Terminated(ts) && mid < FirstEof(ts) && level < 4
    requires Matches(ts, mid, Operators(level))
    requires ParseOperand(ts, mid + 1, level + 1).PErr?
    ensures ParseLoop(ts, level, acc, mid) == ParseOperand(ts, mid + 1, level + 1)
  {
  }

  /** One turn of the loop: an operator of the level, then an operand. */
  lemma LoopStep(ts: seq<Token>, level: nat, acc: Expr, mid: nat, r: Expr, end: nat)
    requires Terminated(ts) && mid < FirstEof(ts) && level < 4
    requires Matches(ts, mid, Operators(level))
    requires ParseOperand(ts, mid + 1, level + 1) == POk(r, end)
    ensures ParseLoop(ts, level, acc, mid) == ParseLoop(ts, level, Binary(acc, ts[mid], r), end)
  {
  }

  /** The loop stops before anything that is not an operator of its level. */
  lemma LoopStops(ts: seq<Token>, level: nat, acc: Expr, end: nat)
    requires Terminated(ts) && end <= FirstEof(ts) && level < 4
    requires !Matches(ts, end, Operators(level))
    ensures ParseLoop(ts, level, acc, end) == POk(acc, end)
  {
  }

  // ----- the Parser class -----

  class Parser {
    const tokens: seq<Token>
    var current: nat
    /** The (position, message) pairs handed to `error_reporter.report_parser`, in order. */
    var reports: seq<Report>

    /** The cursor is on a token and has never stepped over an EOF token. */
    ghost predicate Valid()
      reads this
    {
      Terminated(tokens) && current <= FirstEof(tokens)
    }

    constructor (tokens: seq<Token>)
      requires Terminated(tokens)
      ensures Valid() && this.tokens == tokens && current == 0 && reports == []
    {
      this.tokens := tokens;
      current := 0;
      reports := [];
    }

    /** `parse`. */
    method Parse() returns (e: Option<Expr>)
      requires Valid() && current == 0
      modifies this`current, this`reports
      ensures Valid()
      ensures e == Outcome(ParseBinary(tokens, 0, 0)) && current == End(ParseBinary(tokens, 0, 0))
      ensures reports == old(reports) + ErrorReports(tokens, ParseBinary(tokens, 0, 0))
      ensures e == ParseTokens(tokens)
      ensures e.None? <==> |reports| == |old(reports)| + 1
    {
      e := Expression();
    }

    /** `__expression`, which is `__equality`. */
    method Expression() returns (e: Option<Expr>)
      requires Valid()
      modifies this`current, this`reports
      ensures Valid()
      ensures e == Outcome(ParseBinary(tokens, old(current), 0)) && current == End(ParseBinary(tokens, old(current), 0))
      ensures reports == old(reports) + ErrorReports(tokens, ParseBinary(tokens, old(current), 0))
      decreases |tokens| - current, 20
    {
      e := BinaryExpression(0);
    }

    /**
     * `__binary_expression` at one of the four binary levels: `__equality`,
     * `__comparision`, `__term` and `__factor` call it with `Operators(level)`.
     */
    method BinaryExpression(level: nat) returns (e: Option<Expr>)
      requires Valid() && level < 4
      modifies this`current, this`reports
      ensures Valid()
      ensures e == Outcome(ParseBinary(tokens, old(current), level)) && current == End(ParseBinary(tokens, old(current), level))
      ensures reports == old(reports) + ErrorReports(tokens, ParseBinary(tokens, old(current), level))
      decreases |tokens| - current, 18 - 4 * level
    {
      ghost var start := current;
      var left := Operand(level + 1);
      if left.None? {
        OperandFails(tokens, start, level);
        return None;
      }
      OperandThenLoop(tokens, start, level, left.value, current);
      e := OperatorLoop(level, left.value);
    }

    /** The `while self.__match(operator_types)` loop of `__binary_expression`, from the left operand `left`. */
    method OperatorLoop(level: nat, left: Expr) returns (e: Option<Expr>)
      requires Valid() && level < 4
      modifies this`current, this`reports
      ensures Valid()
      ensures e == Outcome(ParseLoop(tokens, level, left, old(current))) && current == End(ParseLoop(tokens, level, left, old(current)))
      ensures reports == old(reports) + ErrorReports(tokens, ParseLoop(tokens, level, left, old(current)))
      decreases |tokens| - current, 17 - 4 * level
    {
      ghost var spec := ParseLoop(tokens, level, left, current);
      var expr := left;
      var operators := Operators(level);
      while true
        invariant current <= FirstEof(tokens) && reports == old(reports)
        invariant ParseLoop(tokens, level, expr, current) == spec
        decreases |tokens| - current
      {
        ghost var mid := current;
        var matched, operator, right := OperatorThenOperand(level, operators);
        if !matched {
          LoopStops(tokens, level, expr, mid);
          break;
        }
        if right.None? {
          LoopFails(tokens, level, expr, mid);
          return None;
        }
        LoopStep(tokens, level, expr, mid, right.value, current);
        expr := Binary(expr, operator, right.value);
      }
      e := Some(expr);
    }

    /** One turn of the loop: `__match` on the level's operators and, when one matched, the operand after it. */
    method OperatorThenOperand(level: nat, operators: set<TokenType>) returns (matched: bool, operator: Token, right: Option<Expr>)
      requires Valid() && level < 4 && operators == Operators(level)
      modifies this`current, this`reports
      ensures Valid()
      ensures matched <==> Matches(tokens, old(current), operators)
      ensures !matched ==> current == old(current) && reports == old(reports)
      ensures matched ==>
        && operator == tokens[old(current)]
        && right == Outcome(ParseOperand(tokens, old(current) + 1, level + 1))
        && current == End(ParseOperand(tokens, old(current) + 1, level + 1))
        && reports == old(reports) + ErrorReports(tokens, ParseOperand(tokens, old(current) + 1, level + 1))
      ensures matched && right.Some? ==> ParseOperand(tokens, old(current) + 1, level + 1) == POk(right.value, current)
      ensures matched && right.None? ==> ParseOperand(tokens, old(current) + 1, level + 1).PErr?
      decreases |tokens| - current, 16 - 4 * level
    {
      matched := Match(operators);
      if matched {
        operator := Previous();
        right := Operand(level + 1);
      } else {
        operator, right := tokens[current], None;
      }
    }

    /** The operand a level passes to `__binary_expression`. */
    method Operand(level: nat) returns (e: Option<Expr>)
      requires Valid() && level <= 4
      modifies this`current, this`reports
      ensures Valid()
      ensures e == Outcome(ParseOperand(tokens, old(current), level)) && current == End(ParseOperand(tokens, old(current), level))
      ensures reports == old(reports) + ErrorReports(tokens, ParseOperand(tokens, old(current), level))
      decreases |tokens| - current, 19 - 4 * level
    {
      if level == 4 {
        e := Unary();
      } else {
        e := BinaryExpression(level);
      }
    }

    /** `__unary`. */
    method Unary() returns (e: Option<Expr>)
      requires Valid()
      modifies this`current, this`reports
      ensures Valid()
      ensures e == Outcome(ParseUnary(tokens, old(current))) && current == End(ParseUnary(tokens, old(current)))
      ensures reports == old(reports) + ErrorReports(tokens, ParseUnary(tokens, old(current)))
      decreases |tokens| - current, 2
    {
      var matched := Match(UnaryOperators);
      if matched {
        var operator := Previous();
        var right := Unary();
        if right.None? {
          return None;
        }
        return Some(Expr.Unary(operator, right.value));
      }
      e := Primary();
    }

    /** `__primary`. */
    method Primary() returns (e: Option<Expr>)
      requires Valid()
      modifies this`current, this`reports
      ensures Valid()
      ensures e == Outcome(ParsePrimary(tokens, old(current))) && current == End(ParsePrimary(tokens, old(current)))
      ensures reports == old(reports) + ErrorReports(tokens, ParsePrimary(tokens, old(current)))
      decreases |tokens| - current, 1
    {
      var matched := Match({False});
      if matched {
        return Some(Literal(LitBool(false)));
      }
      matched := Match({True});
      if matched {
        return Some(Literal(LitBool(true)));
      }
      matched := Match({Nil});
      if matched {
        return Some(Literal(LitNil));
      }
      matched := Match({Number, String});
      if matched {
        return Some(Literal(Previous().literal));
      }
      matched := Match({LeftParen});
      if matched {
        e := Group();
        return;
      }
      Error(Peek(), ExpectExpression);
      e := None;
    }

    /** The grouping branch of `__primary`, once its `(` is consumed. */
    method Group() returns (e: Option<Expr>)
      requires Valid()
      modifies this`current, this`reports
      ensures Valid()
      ensures e == Outcome(ParseGroup(tokens, old(current))) && current == End(ParseGroup(tokens, old(current)))
      ensures reports == old(reports) + ErrorReports(tokens, ParseGroup(tokens, old(current)))
      decreases |tokens| - current, 21
    {
      var inner := Expression();
      if inner.None? {
        return None;
      }
      var closing := Consume(RightParen, ExpectParen);
      if closing.None? {
        return None;
      }
      return Some(Grouping(inner.value));
    }

    /** `__error`: hand the token's position and the message to the reporter. */
    method Error(token: Token, message: string)
      modifies this`reports
      ensures reports == old(reports) + [Report(token.position, message)]
    {
      reports := reports + [Report(token.position, message)];
    }

    /** `__consume`: the current token if it has kind `kind`, else the reported error. */
    method Consume(kind: TokenType, message: string) returns (t: Option<Token>)
      requires Valid()
      modifies this`current, this`reports
      ensures Valid()
      ensures Matches(tokens, old(current), {kind}) ==>
        t == Some(tokens[old(current)]) && current == old(current) + 1 && reports == old(reports)
      ensures !Matches(tokens, old(current), {kind}) ==>
        t == None && current == old(current) && reports == old(reports) + [Report(tokens[current].position, message)]
    {
      if Check(kind) {
        var token := Advance();
        return Some(token);
      }
      Error(Peek(), message);
      t := None;
    }

    /** `__peek`. */
    function Peek(): Token
      reads this
      requires Valid()
    {
      tokens[current]
    }

    /** `__previous`: `tokens[current - 1]`, which Python reads as the last token when `current` is 0. */
    function Previous(): Token
      reads this
      requires Valid()
    {
      if current == 0 then tokens[|tokens| - 1] else tokens[current - 1]
    }

    /** `__is_at_end`. */
    function IsAtEnd(): bool
      reads this
      requires Valid()
    {
      Peek().kind == Eof
    }

    /** `__advance`: move on unless the cursor is on EOF, and return the token passed over. */
    method Advance() returns (t: Token)
      requires Valid()
      modifies this`current
      ensures Valid()
      ensures current == if old(tokens[current].kind) == Eof then old(current) else old(current) + 1
      ensures t == Previous()
    {
      if !IsAtEnd() {
        current := current + 1;
      }
      t := Previous();
    }

    /** `__check`: never true on EOF, whatever kind is asked for. */
    function Check(kind: TokenType): (r: bool)
      reads this
      requires Valid()
      ensures r <==> kind != Eof && tokens[current].kind == kind
    {
      if IsAtEnd() then false else Peek().kind == kind
    }

    /** `__match`: consume one token exactly when its kind is one of `types`. */
    method Match(types: set<TokenType>) returns (matched: bool)
      requires Valid()
      modifies this`current
      ensures Valid()
      ensures matched <==> Matches(tokens, old(current), types)
      ensures current == if matched then old(current) + 1 else old(current)
    {
      var rest := types;
      while rest != {}
        invariant current == old(current) && rest <= types
        invariant forall k :: k in types - rest ==> !Check(k)
        decreases |rest|
      {
        var kind :| kind in rest;
        if Check(kind) {
          var _ := Advance();
          return true;
        }
        rest := rest - {kind};
      }
      if tokens[current].kind in types {
        assert tokens[current].kind in types - rest;
      }
      return false;
    }
  }
}
