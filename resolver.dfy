/**
 * The static resolver of pylox/resolver.py: a stack of lexical scopes, each a
 * dictionary from names to `VarState`, walked over the syntax tree.
 *
 * Global names (declared while the stack is empty) are left alone. A local
 * name gets a slot equal to the number of entries its scope already had; a
 * use of a local records `(depth, slot)` for the node through
 * `Interpreter.resolve`, modelled as the map `bindings` keyed by the node's id.
 * The three reports (duplicate declaration, read inside its own initializer,
 * unused local) are appended to `reports`.
 *
 * `ResolveExprF`, `ResolveStmtF` and their helpers say what each visit does to
 * a `RState`; the `Resolver` class mirrors the Python class and each of its
 * methods is proved to do exactly that.
 */
module Resolver {
  import opened Wrappers
  import opened LoxAst
  import opened Errors

  /** `VarState`: the declaring token, the two flags and the slot. */
  datatype VarState = VarState(token: Token, defined: bool, used: bool, localIndex: nat)

  /** One `dict[str, VarState]`: its keys in insertion order, and its entries. */
  datatype Scope = Scope(order: seq<string>, vars: map<string, VarState>)

  /** The `(depth, slot)` pair handed to `Interpreter.resolve`. */
  datatype Binding = Binding(depth: nat, slot: nat)

  /** Everything the resolver changes: the scope stack (innermost last), the bindings and the reports. */
  datatype RState = RState(scopes: seq<Scope>, bindings: map<nat, Binding>, reports: seq<Report>)

  const EmptyScope: Scope := Scope([], map[])

  const Fresh: RState := RState([], map[], [])

  const InitializerMessage: string := "Can't read local variable in its own initializer."

  function DuplicateMessage(name: string): string
  {
    "There is already a variable with name '" + name + "' in this scope."
  }

  function UnusedMessage(name: string): string
  {
    "Local variable '" + name + "' defined but never used."
  }

  /** A dictionary: each key once in the insertion order, and exactly the keys of the entries. */
  ghost predicate ScopeValid(s: Scope)
  {
    && (forall i, j :: 0 <= i < j < |s.order| ==> s.order[i] != s.order[j])
    && (forall k :: k in s.vars <==> k in s.order)
  }

  ghost predicate Wf(st: RState)
  {
    forall i :: 0 <= i < |st.scopes| ==> ScopeValid(st.scopes[i])
  }

  /** Two scope stacks of the same height whose scopes hold the same names in the same order. */
  ghost predicate SameShape(a: seq<Scope>, b: seq<Scope>)
  {
    |a| == |b| && forall i :: 0 <= i < |a| ==> a[i].order == b[i].order
  }

  /** Two stacks of the same height that agree on the names of every scope but the innermost. */
  ghost predicate SameOuterShape(a: seq<Scope>, b: seq<Scope>)
  {
    |a| == |b| && forall i :: 0 <= i < |a| - 1 ==> a[i].order == b[i].order
  }

  function Top(st: RState): Scope
    requires |st.scopes| > 0
  {
    st.scopes[|st.scopes| - 1]
  }

  /** The stack with its innermost scope replaced. */
  function WithTop(st: RState, s: Scope): RState
    requires |st.scopes| > 0
  {
    st.(scopes := st.scopes[..|st.scopes| - 1] + [s])
  }

  // ----- the scope operations -----

  /** `__begin_scope`: push an empty dictionary. */
  function BeginScopeF(st: RState): RState
  {
    st.(scopes := st.scopes + [EmptyScope])
  }

  /** The report `__end_scope` makes for one entry: one when it was never used. */
  function UnusedReport(name: string, vars: map<string, VarState>): seq<Report>
    requires name in vars
  {
    if vars[name].used then [] else [Report(vars[name].token.position, UnusedMessage(name))]
  }

  /** The reports for the entries named in `order`, in that order. */
  function UnusedReports(order: seq<string>, vars: map<string, VarState>): seq<Report>
    requires forall k :: k in order ==> k in vars
  {
    if order == [] then []
    else UnusedReports(order[..|order| - 1], vars) + UnusedReport(order[|order| - 1], vars)
  }

  /** `__end_scope`: pop the innermost scope and report each unused entry in insertion order. */
  function EndScopeF(st: RState): RState
    requires Wf(st) && |st.scopes| > 0
  {
    var top := Top(st);
    st.(scopes := st.scopes[..|st.scopes| - 1],
        reports := st.reports + UnusedReports(top.order, top.vars))
  }

  /**
   * `__declare`: nothing at global level; otherwise report a name the innermost
   * scope already holds, then (re)bind it, undefined and unused, to a slot equal
   * to the scope's size.
   */
  function DeclareF(st: RState, name: Token): RState
  {
    if |st.scopes| == 0 then st
    else
      var top := Top(st);
      var key := name.lexeme;
      var entry := VarState(name, false, false, |top.order|);
      if key in top.vars then
        WithTop(st, top.(vars := top.vars[key := entry]))
          .(reports := st.reports + [Report(name.position, DuplicateMessage(key))])
      else
        WithTop(st, Scope(top.order + [key], top.vars[key := entry]))
  }

  /** `__define`: nothing at global level; otherwise mark the innermost entry defined. */
  function DefineF(st: RState, name: Token): RState
    requires |st.scopes| > 0 ==> name.lexeme in Top(st).vars
  {
    if |st.scopes| == 0 then st
    else
      var top := Top(st);
      var entry := top.vars[name.lexeme];
      WithTop(st, top.(vars := top.vars[name.lexeme := entry.(defined := true)]))
  }

  /** How many scopes out from the innermost the nearest one holding `key` is. */
  function Nearest(scopes: seq<Scope>, key: string): (d: Option<nat>)
    ensures d.Some? ==> d.value < |scopes| && key in scopes[|scopes| - 1 - d.value].vars
  {
    if |scopes| == 0 then None
    else if key in scopes[|scopes| - 1].vars then Some(0)
    else
      match Nearest(scopes[..|scopes| - 1], key)
      case None => None
      case Some(d) => Some(d + 1)
  }

  /**
   * `__resolve_local`: bind node `id` to the depth and slot of the nearest entry
   * for the name and mark that entry used; nothing when no scope holds it.
   */
  function ResolveLocalF(st: RState, id: nat, name: Token): RState
  {
    match Nearest(st.scopes, name.lexeme)
    case None => st
    case Some(d) =>
      var k := |st.scopes| - 1 - d;
      var entry := st.scopes[k].vars[name.lexeme];
      var scope := st.scopes[k].(vars := st.scopes[k].vars[name.lexeme := entry.(used := true)]);
      st.(scopes := st.scopes[k := scope],
          bindings := st.bindings[id := Binding(d, entry.localIndex)])
  }

  // ----- the visits -----

  /** `visit_*_expr`, one case per node kind. */
  function ResolveExprF(st: RState, e: Expr): (r: RState)
    requires Wf(st)
    ensures Wf(r) && SameShape(r.scopes, st.scopes)
    decreases e, 1
  {
    match e
    case Literal(_) => st
    case Grouping(x) => ResolveExprF(st, x)
    case Unary(_, x) => ResolveExprF(st, x)
    case Binary(l, _, x) => ResolveExprF(ResolveExprF(st, l), x)
    case Logical(l, _, x) => ResolveExprF(ResolveExprF(st, l), x)
    case Ternary(c, t, f) => ResolveExprF(ResolveExprF(ResolveExprF(st, c), t), f)
    case Variable(id, name) => VariableF(st, id, name)
    case Assign(id, name, value) =>
      var valued := ResolveExprF(st, value);
      LocalStep(valued, id, name);
      ResolveLocalF(valued, id, name)
    case Call(callee, _, args) => ResolveExprF(ResolveArgsF(st, args), callee)
    case Get(obj, _) => ResolveExprF(st, obj)
    case Set(obj, _, value) => ResolveExprF(ResolveExprF(st, value), obj)
    case Function(params, body) => FunctionF(st, params, body)
  }

  /** `visit_variable_expr`: report a local read in its own initializer, then resolve the name. */
  function VariableF(st: RState, id: nat, name: Token): (r: RState)
    requires Wf(st)
    ensures Wf(r) && SameShape(r.scopes, st.scopes)
  {
    var checked :=
      if |st.scopes| > 0 && name.lexeme in Top(st).vars && !Top(st).vars[name.lexeme].defined
      then st.(reports := st.reports + [Report(name.position, InitializerMessage)])
      else st;
    LocalStep(checked, id, name);
    ResolveLocalF(checked, id, name)
  }

  /** `visit_function_expr`: the parameters and the body in a scope of their own. */
  function FunctionF(st: RState, params: seq<Token>, body: seq<Stmt>): (r: RState)
    requires Wf(st)
    ensures Wf(r) && SameShape(r.scopes, st.scopes)
    decreases Function(params, body), 0
  {
    var inner := ResolveStmtsF(DeclareParamsF(BeginScopeF(st), params), body);
    ScopeStep(st, inner);
    EndScopeF(inner)
  }

  /** The arguments of a call, left to right. */
  function ResolveArgsF(st: RState, args: seq<Expr>): (r: RState)
    requires Wf(st)
    ensures Wf(r) && SameShape(r.scopes, st.scopes)
    decreases args
  {
    if args == [] then st
    else ResolveExprF(ResolveArgsF(st, args[..|args| - 1]), args[|args| - 1])
  }

  /** Each parameter declared and defined in turn, in the innermost scope. */
  function DeclareParamsF(st: RState, params: seq<Token>): (r: RState)
    requires Wf(st)
    ensures Wf(r) && SameOuterShape(r.scopes, st.scopes)
  {
    if params == [] then st
    else
      DeclareDefineF(DeclareParamsF(st, params[..|params| - 1]), params[|params| - 1])
  }

  /** `__declare` then `__define`: the name bound, and marked defined, in the innermost scope. */
  function DeclareDefineF(st: RState, name: Token): (r: RState)
    requires Wf(st)
    ensures Wf(r) && SameOuterShape(r.scopes, st.scopes)
  {
    DeclaredStep(st, name);
    DefineF(DeclareF(st, name), name)
  }

  /** `visit_*_stmt`, one case per statement kind. */
  function ResolveStmtF(st: RState, s: Stmt): (r: RState)
    requires Wf(st)
    ensures Wf(r) && SameOuterShape(r.scopes, st.scopes)
    decreases s, 1
  {
    match s
    case ExpressionStmt(x) => ResolveExprF(st, x)
    case PrintStmt(x) => ResolveExprF(st, x)
    case VarStmt(name, init) => VarStmtF(st, name, init)
    case BlockStmt(body) => BlockStmtF(st, body)
    case IfStmt(c, t, f) =>
      var afterThen := ResolveStmtF(ResolveExprF(st, c), t);
      if f.Some? then ResolveStmtF(afterThen, f.value) else afterThen
    case WhileStmt(c, body) => ResolveStmtF(ResolveExprF(st, c), body)
    case BreakStmt(_) => st
    case ReturnStmt(_, value) => if value.Some? then ResolveExprF(st, value.value) else st
    case FunDefStmt(name, fun) => FunDefStmtF(st, name, fun)
    case ClassStmt(id, name, _) => ClassStmtF(st, id, name)
  }

  /** `visit_var_stmt`: declare the name, resolve the initializer, then define the name. */
  function VarStmtF(st: RState, name: Token, init: Option<Expr>): (r: RState)
    requires Wf(st)
    ensures Wf(r) && SameOuterShape(r.scopes, st.scopes)
    decreases VarStmt(name, init), 0
  {
    var declared := DeclareF(st, name);
    DeclaredStep(st, name);
    var initialized := if init.Some? then ResolveExprF(declared, init.value) else declared;
    StillDeclared(declared, initialized, name.lexeme);
    DefinedStep(initialized, name);
    DefineF(initialized, name)
  }

  /** `visit_block_stmt`: the statements in a scope of their own. */
  function BlockStmtF(st: RState, body: seq<Stmt>): (r: RState)
    requires Wf(st)
    ensures Wf(r) && SameShape(r.scopes, st.scopes)
    decreases BlockStmt(body), 0
  {
    var inner := ResolveStmtsF(BeginScopeF(st), body);
    ScopeStep(st, inner);
    EndScopeF(inner)
  }

  /** `visit_fundef_stmt`: the name declared and defined before the function is resolved, so it can recurse. */
  function FunDefStmtF(st: RState, name: Token, fun: Expr): (r: RState)
    requires Wf(st)
    ensures Wf(r) && SameOuterShape(r.scopes, st.scopes)
    decreases FunDefStmt(name, fun), 0
  {
    ResolveExprF(DeclareDefineF(st, name), fun)
  }

  /** `visit_class_stmt`: the class name declared, defined and resolved as a use; its methods are not visited. */
  function ClassStmtF(st: RState, id: nat, name: Token): (r: RState)
    requires Wf(st)
    ensures Wf(r) && SameOuterShape(r.scopes, st.scopes)
  {
    var defined := DeclareDefineF(st, name);
    LocalStep(defined, id, name);
    ResolveLocalF(defined, id, name)
  }

  /** `resolve_stmt_list`: the statements in order. */
  function ResolveStmtsF(st: RState, ss: seq<Stmt>): (r: RState)
    requires Wf(st)
    ensures Wf(r) && SameOuterShape(r.scopes, st.scopes)
    decreases ss
  {
    if ss == [] then st
    else ResolveStmtF(ResolveStmtsF(st, ss[..|ss| - 1]), ss[|ss| - 1])
  }

  // ----- structural facts the visits rely on -----

  /** `__declare` keeps the stack well formed, touches only the innermost scope, and leaves the name there. */
  lemma DeclaredStep(st: RState, name: Token)
    requires Wf(st)
    ensures var r := DeclareF(st, name);
      && Wf(r) && SameOuterShape(r.scopes, st.scopes)
      && (|r.scopes| > 0 ==> name.lexeme in Top(r).vars)
      && Wf(DefineF(r, name)) && SameOuterShape(DefineF(r, name).scopes, st.scopes)
  {
    var r := DeclareF(st, name);
    if |st.scopes| > 0 {
      assert ScopeValid(Top(st));
      assert ScopeValid(Top(r));
      assert forall i :: 0 <= i < |r.scopes| - 1 ==> r.scopes[i] == st.scopes[i];
    }
    DefinedStep(r, name);
  }

  /** A name new to the innermost scope is appended to it, defined, unused, in the next slot. */
  lemma FreshNameTop(st: RState, name: Token)
    requires Wf(st) && |st.scopes| > 0 && name.lexeme !in Top(st).vars
    ensures var r := DeclareDefineF(st, name);
      && |r.scopes| == |st.scopes|
      && Top(r) == Scope(Top(st).order + [name.lexeme],
                         Top(st).vars[name.lexeme := VarState(name, true, false, |Top(st).order|)])
  {
  }

  /** `__define` changes a flag only. */
  lemma DefinedStep(st: RState, name: Token)
    requires Wf(st) && (|st.scopes| > 0 ==> name.lexeme in Top(st).vars)
    ensures Wf(DefineF(st, name)) && SameShape(DefineF(st, name).scopes, st.scopes)
  {
    if |st.scopes| > 0 {
      var r := DefineF(st, name);
      assert ScopeValid(Top(st));
      assert ScopeValid(Top(r));
      assert forall i :: 0 <= i < |r.scopes| - 1 ==> r.scopes[i] == st.scopes[i];
    }
  }

  /** `__resolve_local` changes flags and bindings only. */
  lemma LocalStep(st: RState, id: nat, name: Token)
    requires Wf(st)
    ensures Wf(ResolveLocalF(st, id, name)) && SameShape(ResolveLocalF(st, id, name).scopes, st.scopes)
  {
    var r := ResolveLocalF(st, id, name);
    match Nearest(st.scopes, name.lexeme)
    case None =>
    case Some(d) =>
      var k := |st.scopes| - 1 - d;
      assert ScopeValid(st.scopes[k]);
      assert forall i :: 0 <= i < |st.scopes| && i != k ==> r.scopes[i] == st.scopes[i];
  }

  /** A scope pushed, worked in and popped again leaves the stack as it found it. */
  lemma ScopeStep(st: RState, inner: RState)
    requires Wf(st) && Wf(inner) && SameOuterShape(inner.scopes, BeginScopeF(st).scopes)
    ensures Wf(EndScopeF(inner)) && SameShape(EndScopeF(inner).scopes, st.scopes)
  {
    var r := EndScopeF(inner);
    assert forall i :: 0 <= i < |r.scopes| ==> r.scopes[i] == inner.scopes[i];
    assert forall i :: 0 <= i < |st.scopes| ==> BeginScopeF(st).scopes[i] == st.scopes[i];
  }

  /** Resolving an initializer does not remove the name just declared. */
  lemma StillDeclared(before: RState, after: RState, key: string)
    requires Wf(before) && Wf(after) && SameShape(after.scopes, before.scopes)
    requires |before.scopes| > 0 ==> key in Top(before).vars
    ensures |after.scopes| > 0 ==> key in Top(after).vars
  {
    if |after.scopes| > 0 {
      assert ScopeValid(Top(before)) && ScopeValid(Top(after));
      assert Top(after).order == Top(before).order;
    }
  }

  // ----- what the resolver guarantees -----

  /** `Nearest` finds the innermost scope holding the name, and only that one. */
  lemma {:induction false} NearestSpec(scopes: seq<Scope>, key: string, d: nat)
    ensures Nearest(scopes, key) == Some(d) <==>
      && d < |scopes|
      && key in scopes[|scopes| - 1 - d].vars
      && forall i :: |scopes| - 1 - d < i < |scopes| ==> key !in scopes[i].vars
  {
    if |scopes| > 0 && key !in scopes[|scopes| - 1].vars && d > 0 {
      var outer := scopes[..|scopes| - 1];
      NearestSpec(outer, key, d - 1);
      assert forall i :: 0 <= i < |outer| ==> outer[i] == scopes[i];
    }
  }

  /** `Nearest` finds nothing exactly when no scope holds the name. */
  lemma {:induction false} NearestNone(scopes: seq<Scope>, key: string)
    ensures Nearest(scopes, key).None? <==> forall j :: 0 <= j < |scopes| ==> key !in scopes[j].vars
  {
    if |scopes| > 0 && key !in scopes[|scopes| - 1].vars {
      var outer := scopes[..|scopes| - 1];
      NearestNone(outer, key);
      assert forall j :: 0 <= j < |outer| ==> outer[j] == scopes[j];
    }
  }

  /** A use of a name binds the node to the nearest scope holding it and marks that entry used. */
  lemma LocalBinding(st: RState, id: nat, name: Token, d: nat)
    requires d < |st.scopes| && name.lexeme in st.scopes[|st.scopes| - 1 - d].vars
    requires forall i :: |st.scopes| - 1 - d < i < |st.scopes| ==> name.lexeme !in st.scopes[i].vars
    ensures var k := |st.scopes| - 1 - d;
      var r := ResolveLocalF(st, id, name);
      && r.bindings == st.bindings[id := Binding(d, st.scopes[k].vars[name.lexeme].localIndex)]
      && name.lexeme in r.scopes[k].vars && r.scopes[k].vars[name.lexeme].used
      && r.reports == st.reports
  {
    NearestSpec(st.scopes, name.lexeme, d);
  }

  /** A name no scope holds is global: nothing is recorded and nothing changes. */
  lemma LocalUnbound(st: RState, id: nat, name: Token)
    requires forall j :: 0 <= j < |st.scopes| ==> name.lexeme !in st.scopes[j].vars
    ensures ResolveLocalF(st, id, name) == st
  {
    NearestNone(st.scopes, name.lexeme);
  }

  /** With no scope open, declarations, definitions and uses change nothing: top-level names stay global. */
  lemma TopLevelIsGlobal(st: RState, id: nat, name: Token)
    requires st.scopes == []
    ensures DeclareF(st, name) == st && DefineF(st, name) == st
    ensures ResolveExprF(st, Variable(id, name)) == st
    ensures ResolveStmtF(st, VarStmt(name, None)) == st
  {
    LocalUnbound(st, id, name);
  }

  /** A declaration reports exactly when the innermost scope already holds the name; outer scopes do not matter. */
  lemma DuplicateReported(st: RState, name: Token)
    requires Wf(st) && |st.scopes| > 0
    ensures var r := DeclareF(st, name);
      && (r.reports == st.reports + [Report(name.position, DuplicateMessage(name.lexeme))] <==> name.lexeme in Top(st).vars)
      && (r.reports == st.reports <==> name.lexeme !in Top(st).vars)
      && name.lexeme in Top(r).vars
      && Top(r).vars[name.lexeme] == VarState(name, false, false, |Top(st).order|)
  {
  }

  function Lexemes(params: seq<Token>): (names: seq<string>)
    ensures |names| == |params| && forall i :: 0 <= i < |params| ==> names[i] == params[i].lexeme
  {
    if params == [] then [] else Lexemes(params[..|params| - 1]) + [params[|params| - 1].lexeme]
  }

  /**
   * Parameters with distinct names, declared into a fresh scope, fill it in
   * order with slots 0, 1, 2, ..., each defined and not yet used.
   */
  lemma {:induction false} ParamSlots(st: RState, params: seq<Token>)
    requires Wf(st) && |st.scopes| > 0 && Top(st) == EmptyScope && DistinctNames(params)
    ensures var r := DeclareParamsF(st, params);
      && |r.scopes| > 0
      && Top(r).order == Lexemes(params)
      && forall i :: 0 <= i < |params| ==> Top(r).vars[params[i].lexeme] == VarState(params[i], true, false, i)
  {
    if params != [] {
      var n := |params| - 1;
      var init := params[..n];
      var p := params[n];
      ParamSlots(st, init);
      var before := DeclareParamsF(st, init);
      assert Lexemes(params) == Lexemes(init) + [p.lexeme];
      assert p.lexeme !in Top(before).order by {
        forall i | 0 <= i < |init| ensures Top(before).order[i] != p.lexeme {
          assert params[i].lexeme != params[n].lexeme;
        }
      }
      assert ScopeValid(Top(before));
      FreshNameTop(before, p);
      var r := DeclareParamsF(st, params);
      forall i | 0 <= i < |params|
        ensures Top(r).vars[params[i].lexeme] == VarState(params[i], true, false, i)
      {
        if i < n {
          assert params[i] == init[i];
          assert params[i].lexeme != p.lexeme;
        }
      }
    }
  }

  /** A read of a local that is declared but not yet defined in the innermost scope is reported, and only then. */
  lemma InitializerRead(st: RState, id: nat, name: Token)
    requires Wf(st)
    ensures var r := ResolveExprF(st, Variable(id, name));
      var inOwnInitializer :=
        |st.scopes| > 0 && name.lexeme in Top(st).vars && !Top(st).vars[name.lexeme].defined;
      && (inOwnInitializer ==> r.reports == st.reports + [Report(name.position, InitializerMessage)])
      && (!inOwnInitializer ==> r.reports == st.reports)
  {
    var checked :=
      if |st.scopes| > 0 && name.lexeme in Top(st).vars && !Top(st).vars[name.lexeme].defined
      then st.(reports := st.reports + [Report(name.position, InitializerMessage)])
      else st;
    LocalKeepsReports(checked, id, name);
  }

  lemma LocalKeepsReports(st: RState, id: nat, name: Token)
    ensures ResolveLocalF(st, id, name).reports == st.reports
  {
  }

  /** Ending a scope reports one message per entry never used, and nothing else. */
  lemma {:induction false} UnusedReportsExact(order: seq<string>, vars: map<string, VarState>, rep: Report)
    requires forall k :: k in order ==> k in vars
    ensures rep in UnusedReports(order, vars) <==>
      exists i :: (0 <= i < |order| && !vars[order[i]].used
        && rep == Report(vars[order[i]].token.position, UnusedMessage(order[i])))
  {
    if order != [] {
      var n := |order| - 1;
      var init := order[..n];
      UnusedReportsExact(init, vars, rep);
      assert UnusedReports(order, vars) == UnusedReports(init, vars) + UnusedReport(order[n], vars);
      if rep in UnusedReport(order[n], vars) {
        assert !vars[order[n]].used && rep == Report(vars[order[n]].token.position, UnusedMessage(order[n]));
      }
      if exists i :: (0 <= i < |order| && !vars[order[i]].used
        && rep == Report(vars[order[i]].token.position, UnusedMessage(order[i])))
      {
        var i :| 0 <= i < |order| && !vars[order[i]].used
          && rep == Report(vars[order[i]].token.position, UnusedMessage(order[i]));
        if i < n {
          assert init[i] == order[i];
        }
      }
    }
  }

  /**
   * A class statement in a local scope declares, defines and at once uses its
   * name, binding the node at depth 0, so ending the scope never reports it.
   */
  lemma ClassNeverUnused(st: RState, id: nat, name: Token, methods: seq<Stmt>)
    requires Wf(st) && |st.scopes| > 0
    ensures var r := ResolveStmtF(st, ClassStmt(id, name, methods));
      && |r.scopes| > 0 && name.lexeme in Top(r).vars
      && Top(r).vars[name.lexeme] == VarState(name, true, true, |Top(st).order|)
      && r.bindings == st.bindings[id := Binding(0, |Top(st).order|)]
      && UnusedReport(name.lexeme, Top(r).vars) == []
  {
    DeclaredStep(st, name);
    var defined := DefineF(DeclareF(st, name), name);
    LocalBinding(defined, id, name, 0);
  }

  // ----- the resolver object -----

  /** `Resolver`: the scope deque, the bindings it hands the interpreter, and its reports. */
  class Resolver {
    var scopes: seq<Scope>
    var bindings: map<nat, Binding>
    var reports: seq<Report>

    function State(): RState
      reads this
    {
      RState(scopes, bindings, reports)
    }

    constructor ()
      ensures State() == Fresh
    {
      scopes := [];
      bindings := map[];
      reports := [];
    }

    method BeginScope()
      modifies this
      ensures State() == BeginScopeF(old(State()))
    {
      scopes := scopes + [EmptyScope];
    }

    method EndScope()
      requires Wf(State()) && |scopes| > 0
      modifies this
      ensures State() == EndScopeF(old(State()))
    {
      var scope := scopes[|scopes| - 1];
      assert ScopeValid(scope);
      scopes := scopes[..|scopes| - 1];
      for i := 0 to |scope.order|
        invariant scopes == old(scopes)[..|old(scopes)| - 1] && bindings == old(bindings)
        invariant reports == old(reports) + UnusedReports(scope.order[..i], scope.vars)
      {
        var name := scope.order[i];
        var state := scope.vars[name];
        assert scope.order[..i + 1][..i] == scope.order[..i];
        if !state.used {
          reports := reports + [Report(state.token.position, UnusedMessage(name))];
        }
      }
      assert scope.order[..|scope.order|] == scope.order;
    }

    method Declare(name: Token)
      modifies this
      ensures State() == DeclareF(old(State()), name)
    {
      if |scopes| == 0 {
        return;
      }
      var scope := scopes[|scopes| - 1];
      if name.lexeme in scope.vars {
        reports := reports + [Report(name.position, DuplicateMessage(name.lexeme))];
      }
      var index := |scope.order|;
      var order := if name.lexeme in scope.vars then scope.order else scope.order + [name.lexeme];
      scopes := scopes[..|scopes| - 1]
        + [Scope(order, scope.vars[name.lexeme := VarState(name, false, false, index)])];
    }

    method Define(name: Token)
      requires |scopes| > 0 ==> name.lexeme in scopes[|scopes| - 1].vars
      modifies this
      ensures State() == DefineF(old(State()), name)
    {
      if |scopes| == 0 {
        return;
      }
      var scope := scopes[|scopes| - 1];
      var state := scope.vars[name.lexeme];
      scopes := scopes[..|scopes| - 1]
        + [scope.(vars := scope.vars[name.lexeme := state.(defined := true)])];
    }

    /** `__resolve_local`: walk the scopes from the innermost outwards. */
    method ResolveLocal(id: nat, name: Token)
      modifies this
      ensures State() == ResolveLocalF(old(State()), id, name)
    {
      var i := 0;
      while i < |scopes|
        invariant i <= |scopes| && State() == old(State())
        invariant forall k :: |scopes| - 1 - i < k < |scopes| ==> name.lexeme !in scopes[k].vars
      {
        var k := |scopes| - 1 - i;
        if name.lexeme in scopes[k].vars {
          NearestSpec(scopes, name.lexeme, i);
          var state := scopes[k].vars[name.lexeme];
          bindings := bindings[id := Binding(i, state.localIndex)];
          scopes := scopes[k := scopes[k].(vars := scopes[k].vars[name.lexeme := state.(used := true)])];
          return;
        }
        i := i + 1;
      }
      NearestNone(scopes, name.lexeme);
    }

    /** `resolve_expr` and the `visit_*_expr` methods. */
    method ResolveExpr(e: Expr)
      requires Wf(State())
      modifies this
      ensures State() == ResolveExprF(old(State()), e)
      decreases e, 1
    {
      match e
      case Literal(_) =>
      case Grouping(x) => ResolveExpr(x);
      case Unary(_, x) => ResolveExpr(x);
      case Binary(l, _, x) => ResolveExpr(l); ResolveExpr(x);
      case Logical(l, _, x) => ResolveExpr(l); ResolveExpr(x);
      case Ternary(c, t, f) => ResolveExpr(c); ResolveExpr(t); ResolveExpr(f);
      case Variable(id, name) => VisitVariableExpr(id, name);
      case Assign(id, name, value) =>
        ResolveExpr(value);
        ResolveLocal(id, name);
      case Call(callee, paren, args) => VisitCallExpr(callee, paren, args);
      case Get(obj, _) => ResolveExpr(obj);
      case Set(obj, _, value) => ResolveExpr(value); ResolveExpr(obj);
      case Function(params, body) => VisitFunctionExpr(params, body);
    }

    /** `visit_variable_expr`: report a local read in its own initializer, then resolve it. */
    method VisitVariableExpr(id: nat, name: Token)
      requires Wf(State())
      modifies this
      ensures State() == VariableF(old(State()), id, name)
    {
      if |scopes| > 0 && name.lexeme in scopes[|scopes| - 1].vars
        && !scopes[|scopes| - 1].vars[name.lexeme].defined
      {
        reports := reports + [Report(name.position, InitializerMessage)];
      }
      ResolveLocal(id, name);
    }

    /** `visit_call_expr`: the arguments left to right, then the callee. */
    method VisitCallExpr(callee: Expr, paren: Token, args: seq<Expr>)
      requires Wf(State())
      modifies this
      ensures State() == ResolveExprF(ResolveArgsF(old(State()), args), callee)
      decreases Call(callee, paren, args), 0
    {
      for i := 0 to |args|
        invariant Wf(State()) && State() == ResolveArgsF(old(State()), args[..i])
      {
        assert args[..i + 1][..i] == args[..i];
        ResolveExpr(args[i]);
      }
      assert args[..|args|] == args;
      ResolveExpr(callee);
    }

    /** `visit_function_expr`: the parameters live in a scope of their own around the body. */
    method VisitFunctionExpr(params: seq<Token>, body: seq<Stmt>)
      requires Wf(State())
      modifies this
      ensures State() == FunctionF(old(State()), params, body)
      decreases Function(params, body), 0
    {
      BeginScope();
      DeclareParams(params);
      ResolveStmts(body);
      ScopeStep(old(State()), State());
      EndScope();
    }

    /** The loop of `visit_function_expr` over the parameters. */
    method DeclareParams(params: seq<Token>)
      requires Wf(State())
      modifies this
      ensures State() == DeclareParamsF(old(State()), params)
    {
      for i := 0 to |params|
        invariant Wf(State()) && State() == DeclareParamsF(old(State()), params[..i])
      {
        assert params[..i + 1][..i] == params[..i];
        DeclaredStep(State(), params[i]);
        Declare(params[i]);
        Define(params[i]);
      }
      assert params[..|params|] == params;
    }

    /** `resolve_stmt` and the `visit_*_stmt` methods. */
    method ResolveStmt(s: Stmt)
      requires Wf(State())
      modifies this
      ensures State() == ResolveStmtF(old(State()), s)
      decreases s, 1
    {
      match s
      case ExpressionStmt(x) => ResolveExpr(x);
      case PrintStmt(x) => ResolveExpr(x);
      case VarStmt(name, init) => VisitVarStmt(name, init);
      case BlockStmt(body) => VisitBlockStmt(body);
      case IfStmt(c, t, f) =>
        ResolveExpr(c);
        ResolveStmt(t);
        if f.Some? {
          ResolveStmt(f.value);
        }
      case WhileStmt(c, body) => ResolveExpr(c); ResolveStmt(body);
      case BreakStmt(_) =>
      case ReturnStmt(_, value) =>
        if value.Some? {
          ResolveExpr(value.value);
        }
      case FunDefStmt(name, fun) => VisitFunDefStmt(name, fun);
      case ClassStmt(id, name, methods) => VisitClassStmt(id, name, methods);
    }

    method VisitVarStmt(name: Token, init: Option<Expr>)
      requires Wf(State())
      modifies this
      ensures State() == VarStmtF(old(State()), name, init)
      decreases VarStmt(name, init), 0
    {
      DeclaredStep(State(), name);
      Declare(name);
      ghost var declared := State();
      if init.Some? {
        ResolveExpr(init.value);
      }
      StillDeclared(declared, State(), name.lexeme);
      Define(name);
    }

    method VisitBlockStmt(body: seq<Stmt>)
      requires Wf(State())
      modifies this
      ensures State() == BlockStmtF(old(State()), body)
      decreases BlockStmt(body), 0
    {
      BeginScope();
      ResolveStmts(body);
      ScopeStep(old(State()), State());
      EndScope();
    }

    method VisitFunDefStmt(name: Token, fun: Expr)
      requires Wf(State())
      modifies this
      ensures State() == FunDefStmtF(old(State()), name, fun)
      decreases FunDefStmt(name, fun), 0
    {
      DeclaredStep(State(), name);
      Declare(name);
      Define(name);
      ResolveExpr(fun);
    }

    /** `visit_class_stmt`: the methods are not visited. */
    method VisitClassStmt(id: nat, name: Token, methods: seq<Stmt>)
      requires Wf(State())
      modifies this
      ensures State() == ClassStmtF(old(State()), id, name)
    {
      DeclaredStep(State(), name);
      Declare(name);
      Define(name);
      ResolveLocal(id, name);
    }

    /** `resolve_stmt_list`. */
    method ResolveStmts(ss: seq<Stmt>)
      requires Wf(State())
      modifies this
      ensures State() == ResolveStmtsF(old(State()), ss)
      decreases ss
    {
      for i := 0 to |ss|
        invariant Wf(State()) && State() == ResolveStmtsF(old(State()), ss[..i])
      {
        assert ss[..i + 1][..i] == ss[..i];
        ResolveStmt(ss[i]);
      }
      assert ss[..|ss|] == ss;
    }
  }
}
