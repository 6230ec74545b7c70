/**
 * The tree-walking evaluator of pylox/interpreter.py: literals, groupings,
 * unary and binary operators, the ternary operator, expression and print
 * statements, and `interpret`'s loop over the statements.
 *
 * Evaluation is a function from an expression to a `Value` or the exception
 * raised instead. Python's `float(s)`, used by `+` to coerce a string, is the
 * parameter `toNumber`: `None` where Python raises `ValueError`.
 * `interpret` catches only the `RuntimeError` class declared in
 * pylox/interpreter.py; anything else escapes it.
 */
module Interpreter {
  import opened Wrappers
  import opened LoxAst
  import opened Errors
  import opened Objects

  /** The expression kinds pylox/expr.py defines and the interpreter visits. */
  predicate Evaluable(e: Expr)
  {
    match e
    case Literal(_) => true
    case Grouping(x) => Evaluable(x)
    case Unary(_, x) => Evaluable(x)
    case Binary(l, _, r) => Evaluable(l) && Evaluable(r)
    case Ternary(c, t, f) => Evaluable(c) && Evaluable(t) && Evaluable(f)
    case _ => false
  }

  /** The statement kinds pylox/stmt.py defines and the interpreter visits. */
  predicate Executable(s: Stmt)
  {
    match s
    case ExpressionStmt(x) => Evaluable(x)
    case PrintStmt(x) => Evaluable(x)
    case _ => false
  }

  const OperandMessage: string := "Operand must be a number."
  const OperandsMessage: string := "Both operands mus be numbers."
  const PlusMessage: string := "Both operands have to be strings or numbers"
  const DivisionMessage: string := "Do not divide by zero!"

  function ConversionMessage(s: string): string
  {
    "Cannot convert '" + s + "' to number."
  }

  /** A literal's Python value. */
  function FromLiteral(lit: Lit): Value
  {
    match lit
    case LitNil => VNil
    case LitBool(b) => VBool(b)
    case LitNumber(n) => VNumber(n)
    case LitString(s) => VString(s)
  }

  /** `__is_truthy`: `None` and `False` are false, everything else is true. */
  predicate IsTruthy(v: Value)
  {
    match v
    case VNil => false
    case VBool(b) => b
    case _ => true
  }

  /**
   * `__is_equal`, Python's `==`: a `bool` compares as the number 0 or 1,
   * objects compare by identity, values of unrelated types are unequal.
   */
  predicate IsEqual(a: Value, b: Value)
  {
    match (a, b)
    case (VBool(x), VNumber(n)) => n == if x then 1.0 else 0.0
    case (VNumber(n), VBool(x)) => n == if x then 1.0 else 0.0
    case _ => a == b
  }

  /**
   * The operators that first pass `__check_number_operands`, applied to two
   * numbers; `/` then raises on a zero divisor.
   */
  function NumericOp(op: Token, x: real, y: real): Result<Value>
  {
    match op.kind
    case Greater => Ok(VBool(x > y))
    case GreaterEqual => Ok(VBool(x >= y))
    case Less => Ok(VBool(x < y))
    case LessEqual => Ok(VBool(x <= y))
    case Minus => Ok(VNumber(x - y))
    case Star => Ok(VNumber(x * y))
    case Slash => if y == 0.0 then Err(InterpreterRuntimeError(op, DivisionMessage)) else Ok(VNumber(x / y))
    case _ => Ok(VNil)
  }

  /** `+`: strings concatenate, numbers add, a string beside a number is converted, anything else raises. */
  function Add(op: Token, l: Value, r: Value, toNumber: string -> Option<real>): Result<Value>
  {
    if l.VString? && r.VString? then Ok(VString(l.text + r.text))
    else if l.VNumber? && r.VNumber? then Ok(VNumber(l.number + r.number))
    else if l.VNumber? && r.VString? then
      (match toNumber(r.text)
       case None => Err(InterpreterRuntimeError(op, ConversionMessage(r.text)))
       case Some(x) => Ok(VNumber(l.number + x)))
    else if l.VString? && r.VNumber? then
      (match toNumber(l.text)
       case None => Err(InterpreterRuntimeError(op, ConversionMessage(l.text)))
       case Some(x) => Ok(VNumber(x + r.number)))
    else Err(InterpreterRuntimeError(op, PlusMessage))
  }

  /** `visit_unary_expr` once the operand is evaluated; an operator it does not know gives `None`. */
  function UnaryOp(op: Token, right: Value): Result<Value>
  {
    match op.kind
    case Minus => if right.VNumber? then Ok(VNumber(-right.number)) else Err(InterpreterRuntimeError(op, OperandMessage))
    case Bang => Ok(VBool(!IsTruthy(right)))
    case _ => Ok(VNil)
  }

  /** `visit_binary_expr` once both operands are evaluated; an operator it does not know gives `None`. */
  function BinaryOp(op: Token, l: Value, r: Value, toNumber: string -> Option<real>): Result<Value>
  {
    match op.kind
    case EqualEqual => Ok(VBool(IsEqual(l, r)))
    case BangEqual => Ok(VBool(!IsEqual(l, r)))
    case Plus => Add(op, l, r, toNumber)
    case Greater | GreaterEqual | Less | LessEqual | Minus | Star | Slash =>
      if l.VNumber? && r.VNumber? then NumericOp(op, l.number, r.number)
      else Err(InterpreterRuntimeError(op, OperandsMessage))
    case _ => Ok(VNil)
  }

  /** `evaluate`: operands left to right, the first exception raised ending the evaluation. */
  function Evaluate(e: Expr, toNumber: string -> Option<real>): Result<Value>
    requires Evaluable(e)
  {
    match e
    case Literal(lit) => Ok(FromLiteral(lit))
    case Grouping(x) => Evaluate(x, toNumber)
    case Unary(op, x) =>
      (match Evaluate(x, toNumber)
       case Err(err) => Err(err)
       case Ok(v) => UnaryOp(op, v))
    case Binary(l, op, r) =>
      (match Evaluate(l, toNumber)
       case Err(err) => Err(err)
       case Ok(lv) =>
         match Evaluate(r, toNumber)
         case Err(err) => Err(err)
         case Ok(rv) => BinaryOp(op, lv, rv, toNumber))
    case Ternary(c, t, f) =>
      match Evaluate(c, toNumber)
      case Err(err) => Err(err)
      case Ok(cv) => if IsTruthy(cv) then Evaluate(t, toNumber) else Evaluate(f, toNumber)
  }

  /** `execute`: the values a statement prints, or the exception it raises. */
  function Execute(s: Stmt, toNumber: string -> Option<real>): Result<seq<Value>>
    requires Executable(s)
  {
    match s
    case ExpressionStmt(x) =>
      (match Evaluate(x, toNumber)
       case Err(err) => Err(err)
       case Ok(_) => Ok([]))
    case PrintStmt(x) =>
      match Evaluate(x, toNumber)
      case Err(err) => Err(err)
      case Ok(v) => Ok([v])
  }

  /** What a run of `interpret` leaves: what was printed, what was reported, and an exception that escaped. */
  datatype Outcome = Outcome(printed: seq<Value>, reports: seq<Report>, escaped: Option<Raised>)

  /**
   * `interpret`: the statements in order; the first interpreter `RuntimeError`
   * is reported and ends the run, any other exception ends it by escaping.
   */
  function Run(stmts: seq<Stmt>, toNumber: string -> Option<real>): Outcome
    requires forall s :: s in stmts ==> Executable(s)
  {
    if stmts == [] then Outcome([], [], None)
    else
      match Execute(stmts[0], toNumber)
      case Ok(out) =>
        var rest := Run(stmts[1..], toNumber);
        rest.(printed := out + rest.printed)
      case Err(InterpreterRuntimeError(token, message)) => Outcome([], [Report(token.position, message)], None)
      case Err(other) => Outcome([], [], Some(other))
  }

  // ----- what evaluation guarantees -----

  /** Only `nil` and `false` are falsy: zero and the empty string are truthy. */
  lemma Falsy(v: Value)
    ensures !IsTruthy(v) <==> v == VNil || v == VBool(false)
    ensures IsTruthy(VNumber(0.0)) && IsTruthy(VString(""))
  {
  }

  /** `!` is the negation of truthiness, and `!!x` is its truthiness. */
  lemma NotNegatesTruthiness(bang: Token, x: Expr, toNumber: string -> Option<real>)
    requires bang.kind == Bang && Evaluable(x) && Evaluate(x, toNumber).Ok?
    ensures Evaluate(Unary(bang, x), toNumber) == Ok(VBool(!IsTruthy(Evaluate(x, toNumber).value)))
    ensures Evaluate(Unary(bang, Unary(bang, x)), toNumber) == Ok(VBool(IsTruthy(Evaluate(x, toNumber).value)))
  {
  }

  /** Unary `-` takes numbers only. */
  lemma NegateNeedsNumber(minus: Token, v: Value)
    requires minus.kind == Minus
    ensures UnaryOp(minus, v).Ok? <==> v.VNumber?
    ensures v.VNumber? ==> UnaryOp(minus, v) == Ok(VNumber(-v.number))
    ensures !v.VNumber? ==> UnaryOp(minus, v) == Err(InterpreterRuntimeError(minus, OperandMessage))
  {
  }

  /** Python's `==` on values is an equivalence that also relates `True` to `1.0` and `False` to `0.0`. */
  lemma EqualityLaws(a: Value, b: Value, c: Value)
    ensures IsEqual(a, a)
    ensures IsEqual(a, b) <==> IsEqual(b, a)
    ensures IsEqual(a, b) && IsEqual(b, c) && !a.VBool? && !c.VBool? ==> IsEqual(a, c)
    ensures IsEqual(VBool(true), VNumber(1.0)) && IsEqual(VBool(false), VNumber(0.0))
    ensures !IsEqual(VNil, VBool(false)) && !IsEqual(VString(""), VNumber(0.0))
  {
  }

  /** `!=` always answers the opposite of `==`, and raises exactly what `==` raises. */
  lemma BangEqualNegatesEqual(l: Expr, eq: Token, ne: Token, r: Expr, toNumber: string -> Option<real>)
    requires eq.kind == EqualEqual && ne.kind == BangEqual && Evaluable(l) && Evaluable(r)
    ensures var a := Evaluate(Binary(l, eq, r), toNumber);
      var b := Evaluate(Binary(l, ne, r), toNumber);
      && (a.Ok? <==> b.Ok?)
      && (a.Ok? ==> a.value.VBool? && b.value == VBool(!a.value.boolValue))
      && (a.Err? ==> a == b)
  {
  }

  /** Comparisons, `-` and `*` take numbers only, and then apply the number operation. */
  lemma NumericOperators(op: Token, l: Value, r: Value, toNumber: string -> Option<real>)
    requires op.kind in {Greater, GreaterEqual, Less, LessEqual, Minus, Star}
    ensures BinaryOp(op, l, r, toNumber).Ok? <==> l.VNumber? && r.VNumber?
    ensures !(l.VNumber? && r.VNumber?) ==> BinaryOp(op, l, r, toNumber) == Err(InterpreterRuntimeError(op, OperandsMessage))
    ensures l.VNumber? && r.VNumber? ==> BinaryOp(op, l, r, toNumber) == NumericOp(op, l.number, r.number)
  {
  }

  /** Comparisons give booleans and `-`, `*` numbers, never an error. */
  lemma NumericResults(op: Token, x: real, y: real)
    requires op.kind in {Greater, GreaterEqual, Less, LessEqual, Minus, Star}
    ensures NumericOp(op, x, y).Ok?
    ensures op.kind in {Greater, GreaterEqual, Less, LessEqual} <==> NumericOp(op, x, y).value.VBool?
  {
  }

  lemma PlusCases(op: Token, l: Value, r: Value, toNumber: string -> Option<real>)
    requires op.kind == Plus
    ensures BinaryOp(op, l, r, toNumber).Ok? <==>
      || (l.VString? && r.VString?)
      || (l.VNumber? && r.VNumber?)
      || (l.VNumber? && r.VString? && toNumber(r.text).Some?)
      || (l.VString? && r.VNumber? && toNumber(l.text).Some?)
    ensures l.VString? && r.VString? ==> BinaryOp(op, l, r, toNumber) == Ok(VString(l.text + r.text))
    ensures l.VNumber? && r.VNumber? ==> BinaryOp(op, l, r, toNumber) == Ok(VNumber(l.number + r.number))
    ensures l.VNumber? && r.VString? && toNumber(r.text).Some? ==>
      BinaryOp(op, l, r, toNumber) == Ok(VNumber(l.number + toNumber(r.text).value))
    ensures l.VString? && r.VNumber? && toNumber(l.text).Some? ==>
      BinaryOp(op, l, r, toNumber) == Ok(VNumber(toNumber(l.text).value + r.number))
    ensures l.VNumber? && r.VString? && toNumber(r.text).None? ==>
      BinaryOp(op, l, r, toNumber) == Err(InterpreterRuntimeError(op, ConversionMessage(r.text)))
    ensures l.VString? && r.VNumber? && toNumber(l.text).None? ==>
      BinaryOp(op, l, r, toNumber) == Err(InterpreterRuntimeError(op, ConversionMessage(l.text)))
    ensures !(l.VString? || l.VNumber?) || !(r.VString? || r.VNumber?) ==>
      BinaryOp(op, l, r, toNumber) == Err(InterpreterRuntimeError(op, PlusMessage))
    ensures BinaryOp(op, l, r, toNumber).Ok? && !(l.VString? && r.VString?) ==> BinaryOp(op, l, r, toNumber).value.VNumber?
  {
  }

  /** `/` by zero raises instead of producing a value; otherwise it divides. */
  lemma Division(op: Token, x: real, y: real, toNumber: string -> Option<real>)
    requires op.kind == Slash
    ensures y == 0.0 ==> BinaryOp(op, VNumber(x), VNumber(y), toNumber) == Err(InterpreterRuntimeError(op, DivisionMessage))
    ensures y != 0.0 ==> BinaryOp(op, VNumber(x), VNumber(y), toNumber) == Ok(VNumber(x / y))
  {
  }

  /** The ternary evaluates its condition, then exactly one branch: the other one may even raise. */
  lemma TernaryOneBranch(c: Expr, t: Expr, f: Expr, toNumber: string -> Option<real>)
    requires Evaluable(c) && Evaluable(t) && Evaluable(f)
    ensures var cond := Evaluate(c, toNumber);
      && (cond.Err? ==> Evaluate(Ternary(c, t, f), toNumber) == cond)
      && (cond.Ok? && IsTruthy(cond.value) ==> Evaluate(Ternary(c, t, f), toNumber) == Evaluate(t, toNumber))
      && (cond.Ok? && !IsTruthy(cond.value) ==> Evaluate(Ternary(c, t, f), toNumber) == Evaluate(f, toNumber))
  {
    var e := Ternary(c, t, f);
    assert Evaluate(e, toNumber) == match Evaluate(c, toNumber)
      case Err(err) => Err(err)
      case Ok(cv) => if IsTruthy(cv) then Evaluate(t, toNumber) else Evaluate(f, toNumber);
  }

  /** A binary expression evaluates its left operand first: an exception there is the result. */
  lemma LeftOperandFirst(l: Expr, op: Token, r: Expr, toNumber: string -> Option<real>)
    requires Evaluable(l) && Evaluable(r) && Evaluate(l, toNumber).Err?
    ensures Evaluate(Binary(l, op, r), toNumber) == Evaluate(l, toNumber)
  {
  }

  /** Statements that all succeed print what they print, in order. */
  function PrintedBy(stmts: seq<Stmt>, toNumber: string -> Option<real>): seq<Value>
    requires forall s :: s in stmts ==> Executable(s) && Execute(s, toNumber).Ok?
  {
    if stmts == [] then [] else Execute(stmts[0], toNumber).value + PrintedBy(stmts[1..], toNumber)
  }

  /**
   * The run stops at the first interpreter `RuntimeError`: what came before is
   * printed, that error is reported once, and later statements never run.
   */
  lemma {:induction false} StopsAtFirstError(stmts: seq<Stmt>, k: nat, toNumber: string -> Option<real>)
    requires forall s :: s in stmts ==> Executable(s)
    requires k < |stmts| && forall i :: 0 <= i < k ==> Execute(stmts[i], toNumber).Ok?
    requires Execute(stmts[k], toNumber).Err? && Execute(stmts[k], toNumber).error.InterpreterRuntimeError?
    ensures var e := Execute(stmts[k], toNumber).error;
      Run(stmts, toNumber) == Outcome(PrintedBy(stmts[..k], toNumber), [Report(e.token.position, e.message)], None)
  {
    if k > 0 {
      StopsAtFirstError(stmts[1..], k - 1, toNumber);
      assert stmts[1..][..k - 1] == stmts[..k][1..];
    }
  }

  /** One statement of `interpret`'s loop: how the rest of the run from `i` continues. */
  lemma RunStep(stmts: seq<Stmt>, i: nat, toNumber: string -> Option<real>)
    requires forall s :: s in stmts ==> Executable(s)
    requires i < |stmts|
    ensures Execute(stmts[i], toNumber).Ok? ==>
      var rest := Run(stmts[i + 1..], toNumber);
      Run(stmts[i..], toNumber) == rest.(printed := Execute(stmts[i], toNumber).value + rest.printed)
    ensures Execute(stmts[i], toNumber).Err? ==>
      var e := Execute(stmts[i], toNumber).error;
      Run(stmts[i..], toNumber) ==
        if e.InterpreterRuntimeError? then Outcome([], [Report(e.token.position, e.message)], None)
        else Outcome([], [], Some(e))
  {
    assert stmts[i..][0] == stmts[i] && stmts[i..][1..] == stmts[i + 1..];
  }

  /** A run reports at most one runtime error. */
  lemma {:induction false} ReportsAtMostOnce(stmts: seq<Stmt>, toNumber: string -> Option<real>)
    requires forall s :: s in stmts ==> Executable(s)
    ensures |Run(stmts, toNumber).reports| <= 1
    ensures Run(stmts, toNumber).escaped.Some? ==> Run(stmts, toNumber).reports == []
  {
    if stmts != [] && Execute(stmts[0], toNumber).Ok? {
      ReportsAtMostOnce(stmts[1..], toNumber);
    }
  }

  // ----- the interpreter object -----

  /** `Interpreter`: what it has printed and what it has handed to the error reporter. */
  class Interpreter {
    const toNumber: string -> Option<real>
    var output: seq<Value>
    var reports: seq<Report>

    constructor (toNumber: string -> Option<real>)
      ensures this.toNumber == toNumber && output == [] && reports == []
    {
      this.toNumber := toNumber;
      output := [];
      reports := [];
    }

    /** `execute`, with `visit_print_stmt` appending to the output. */
    method ExecuteStmt(s: Stmt) returns (raised: Option<Raised>)
      requires Executable(s)
      modifies this`output
      ensures match Execute(s, toNumber)
        case Ok(out) => raised.None? && output == old(output) + out
        case Err(e) => raised == Some(e) && output == old(output)
    {
      var v := Evaluate(s.expression, toNumber);
      if v.Err? {
        return Some(v.error);
      }
      if s.PrintStmt? {
        output := output + [v.value];
      }
      return None;
    }

    /** `interpret`: run the statements until one raises. */
    method Interpret(stmts: seq<Stmt>) returns (escaped: Option<Raised>)
      requires forall s :: s in stmts ==> Executable(s)
      modifies this`output, this`reports
      ensures var run := Run(stmts, toNumber);
        && output == old(output) + run.printed
        && reports == old(reports) + run.reports
        && escaped == run.escaped
    {
      ghost var printed: seq<Value> := [];
      var i := 0;
      assert stmts[0..] == stmts;
      while i < |stmts|
        invariant i <= |stmts| && reports == old(reports) && output == old(output) + printed
        invariant var rest := Run(stmts[i..], toNumber);
          Run(stmts, toNumber) == Outcome(printed + rest.printed, rest.reports, rest.escaped)
      {
        RunStep(stmts, i, toNumber);
        var raised := ExecuteStmt(stmts[i]);
        if raised.Some? {
          if raised.value.InterpreterRuntimeError? {
            reports := reports + [Report(raised.value.token.position, raised.value.message)];
            return None;
          }
          return raised;
        }
        printed := printed + Execute(stmts[i], toNumber).value;
        i := i + 1;
      }
      assert stmts[i..] == [];
      return None;
    }
  }
}
