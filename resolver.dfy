/**
 * The static resolver (src/Resolver.java). It walks the syntax tree once
 * before the interpreter runs and keeps a stack of scopes. Each scope maps a
 * name to "declared" (false) or "defined" (true). For every variable read,
 * assignment and `this` it records how many scopes lie between the use and the
 * binding, in the interpreter's side map. Names bound in no scope are globals
 * and get no entry.
 *
 * The specification is a set of pure functions over a `ResolveState` (the
 * scope stack, the two context flags and the interpreter's map). Each returns
 * the state reached and a verdict. A resolve error stops the walk and leaves
 * the state as it was at the throw: nothing is restored. The `Resolver` class
 * updates its fields in place, and each of its methods is proved to reach the
 * state, and return the verdict, of the matching function.
 */
module Resolvers {
  import opened Wrappers
  import opened Tokens
  import opened Ast
  import opened Diagnostics
  import opened Interpreters

  /** What kind of function body is being resolved (to reject a top-level `return`). */
  datatype FuncType = NoFunction | InFunction | InMethod

  /** Whether a class body is being resolved (to reject `this` outside classes). */
  datatype ClassType = NoClass | InClass

  /** The scope stack; the innermost scope is the last one. */
  type Scopes = seq<map<string, bool>>

  datatype ResolveState = ResolveState(
    scopes: Scopes,
    currentFunction: FuncType,
    currentClass: ClassType,
    /** the interpreter's distances, keyed by node id */
    distances: map<nat, nat>)

  /**
   * How a resolution ends. `Rejected` is a thrown resolve error. `Crashed` is a
   * host exception that no handler catches: the null statement the parser
   * leaves after a syntax error.
   */
  datatype Verdict =
    | Resolved
    | Rejected(at: Token, message: string)
    | Crashed(exception: string)

  datatype Step = Step(state: ResolveState, verdict: Verdict)

  const RedeclaredMessage := "Already variable with this name in this scope."
  const OwnInitializerMessage := "Can't read local variable in its own initializer"
  const TopLevelReturnMessage := "Can't return from top-level code."
  const ThisOutsideClassMessage := "Can't use this outside class"
  const NullStatement := "NullPointerException"

  /* ---------------- scopes ---------------- */

  function Top(scopes: Scopes): map<string, bool>
    requires |scopes| > 0
  {
    scopes[|scopes| - 1]
  }

  /** The innermost scope with `name` set to `flag`. */
  function SetTop(scopes: Scopes, name: string, flag: bool): (r: Scopes)
    requires |scopes| > 0
    ensures |r| == |scopes| && r[..|r| - 1] == scopes[..|scopes| - 1]
    ensures Top(r) == Top(scopes)[name := flag]
  {
    scopes[|scopes| - 1 := Top(scopes)[name := flag]]
  }

  function BeginScope(st: ResolveState): ResolveState
  {
    st.(scopes := st.scopes + [map[]])
  }

  function EndScope(st: ResolveState): ResolveState
    requires |st.scopes| > 0
  {
    st.(scopes := st.scopes[..|st.scopes| - 1])
  }

  /**
   * The number of scopes between the innermost one and the innermost scope
   * that binds `name`; None when no scope binds it (a global).
   */
  function Distance(scopes: Scopes, name: string): (d: Option<nat>)
    ensures d.Some? ==>
      && d.value < |scopes|
      && name in scopes[|scopes| - 1 - d.value]
      && forall k :: |scopes| - 1 - d.value < k < |scopes| ==> name !in scopes[k]
    ensures d.None? ==> forall k :: 0 <= k < |scopes| ==> name !in scopes[k]
    decreases |scopes|
  {
    if |scopes| == 0 then None
    else if name in Top(scopes) then Some(0)
    else match Distance(scopes[..|scopes| - 1], name)
      case None => None
      case Some(d) => Some(d + 1)
  }

  /** The converse: the innermost scope that binds `name` gives the distance. */
  lemma DistanceOfInnermost(scopes: Scopes, name: string, d: nat)
    requires d < |scopes| && name in scopes[|scopes| - 1 - d]
    requires forall k :: |scopes| - 1 - d < k < |scopes| ==> name !in scopes[k]
    ensures Distance(scopes, name) == Some(d)
  {
  }

  /** The side map after a use of `name` by node `id`: an entry only for a local. */
  function Stored(st: ResolveState, id: nat, name: string): ResolveState
  {
    match Distance(st.scopes, name)
    case None => st
    case Some(d) => st.(distances := st.distances[id := d])
  }

  /**
   * Marks `name` declared in the innermost scope. Redeclaring a name of that
   * scope is an error; in the global scope (no scope at all) nothing happens.
   */
  function DeclareIn(st: ResolveState, name: Token): (r: Step)
    ensures r.verdict.Rejected? <==> |st.scopes| > 0 && name.lexeme in Top(st.scopes)
    ensures r.verdict.Rejected? ==> r == Step(st, Rejected(name, RedeclaredMessage))
    ensures !r.verdict.Rejected? ==> r.verdict.Resolved? && r.state.distances == st.distances
    ensures !r.verdict.Rejected? && |st.scopes| == 0 ==> r.state == st
    ensures !r.verdict.Rejected? && |st.scopes| > 0 ==>
      r.state == st.(scopes := SetTop(st.scopes, name.lexeme, false))
  {
    if |st.scopes| == 0 then Step(st, Resolved)
    else if name.lexeme in Top(st.scopes) then Step(st, Rejected(name, RedeclaredMessage))
    else Step(st.(scopes := SetTop(st.scopes, name.lexeme, false)), Resolved)
  }

  /** Marks `name` defined in the innermost scope; nothing happens in the global scope. */
  function DefineIn(st: ResolveState, name: Token): ResolveState
  {
    if |st.scopes| == 0 then st
    else st.(scopes := SetTop(st.scopes, name.lexeme, true))
  }

  /* ---------------- expressions ---------------- */

  /**
   * Resolves an expression in the order the resolver visits it. Expressions
   * never change the scopes or the flags; only the side map grows.
   */
  function ResolveExpr(e: Expression, st: ResolveState): (r: Step)
    ensures r.state.scopes == st.scopes
    ensures r.state.currentFunction == st.currentFunction && r.state.currentClass == st.currentClass
    decreases e
  {
    match e
    case Assign(id, name, value) =>
      var a := ResolveExpr(value, st);
      if !a.verdict.Resolved? then a else Step(Stored(a.state, id, name.lexeme), Resolved)
    case Set(obj, _, value) =>
      var a := ResolveExpr(value, st);
      if !a.verdict.Resolved? then a else ResolveExpr(obj, a.state)
    case Ternary(cond, _, thenBranch, elseBranch) =>
      var a := ResolveExpr(elseBranch, st);
      if !a.verdict.Resolved? then a
      else
        var b := ResolveExpr(thenBranch, a.state);
        if !b.verdict.Resolved? then b else ResolveExpr(cond, b.state)
    case Binary(lhs, _, rhs) =>
      var a := ResolveExpr(lhs, st);
      if !a.verdict.Resolved? then a else ResolveExpr(rhs, a.state)
    case Unary(_, operand) => ResolveExpr(operand, st)
    case Call(callee, _, args) =>
      var a := ResolveExpr(callee, st);
      if !a.verdict.Resolved? then a else ResolveExprs(args, a.state)
    case Get(obj, _) => ResolveExpr(obj, st)
    case Logical(lhs, _, rhs) =>
      var a := ResolveExpr(lhs, st);
      if !a.verdict.Resolved? then a else ResolveExpr(rhs, a.state)
    case VarAccess(id, name) =>
      if |st.scopes| > 0 && name.lexeme in Top(st.scopes) && !Top(st.scopes)[name.lexeme] then
        Step(st, Rejected(name, OwnInitializerMessage))
      else Step(Stored(st, id, name.lexeme), Resolved)
    case Grouping(inner) => ResolveExpr(inner, st)
    case This(id, keyword) =>
      if st.currentClass == NoClass then Step(st, Rejected(keyword, ThisOutsideClassMessage))
      else Step(Stored(st, id, keyword.lexeme), Resolved)
    case Literal(_) => Step(st, Resolved)
  }

  /** Resolves expressions left to right, stopping at the first error. */
  function ResolveExprs(es: seq<Expression>, st: ResolveState): (r: Step)
    ensures r.state.scopes == st.scopes
    ensures r.state.currentFunction == st.currentFunction && r.state.currentClass == st.currentClass
    decreases es
  {
    if |es| == 0 then Step(st, Resolved)
    else
      var a := ResolveExpr(es[0], st);
      if !a.verdict.Resolved? then a else ResolveExprs(es[1..], a.state)
  }

  /* ---------------- statements ---------------- */

  /**
   * Resolves one statement. A statement that resolves leaves as many scopes
   * and the same flags as it found: blocks, functions and classes pop the scope
   * they push and restore the flags they set.
   */
  function ResolveStmt(s: Statement, st: ResolveState): (r: Step)
    ensures r.verdict.Resolved? ==> |r.state.scopes| == |st.scopes|
    ensures r.verdict.Resolved? ==>
      r.state.currentFunction == st.currentFunction && r.state.currentClass == st.currentClass
    decreases s
  {
    match s
    case Block(stmts) =>
      var a := ResolveStmts(stmts, BeginScope(st));
      if !a.verdict.Resolved? then a else Step(EndScope(a.state), Resolved)
    case VarDeclare(name, initializer) =>
      var a := DeclareIn(st, name);
      if !a.verdict.Resolved? then a
      else
        var b := if initializer.Some? then ResolveExpr(initializer.value, a.state) else a;
        if !b.verdict.Resolved? then b else Step(DefineIn(b.state, name), Resolved)
    case FuncPrototype(decl) =>
      var a := DeclareIn(st, decl.name);
      if !a.verdict.Resolved? then a else ResolveFunc(decl, InFunction, DefineIn(a.state, decl.name))
    case ClassDeclare(name, _, methods) =>
      var a := DeclareIn(st.(currentClass := InClass), name);
      if !a.verdict.Resolved? then a
      else
        var scoped := BeginScope(DefineIn(a.state, name));
        var b := ResolveMethodDecls(methods, scoped.(scopes := SetTop(scoped.scopes, "this", true)));
        if !b.verdict.Resolved? then b
        else Step(EndScope(b.state).(currentClass := st.currentClass), Resolved)
    case If(condition, thenBranch, elseBranch) =>
      var a := ResolveExpr(condition, st);
      if !a.verdict.Resolved? then a
      else
        var b := ResolveStmt(thenBranch, a.state);
        if !b.verdict.Resolved? || elseBranch.None? then b else ResolveStmt(elseBranch.value, b.state)
    case While(condition, body) =>
      var a := ResolveExpr(condition, st);
      if !a.verdict.Resolved? then a else ResolveStmt(body, a.state)
    case Return(keyword, returnVal) =>
      if st.currentFunction == NoFunction then Step(st, Rejected(keyword, TopLevelReturnMessage))
      else if returnVal.Some? then ResolveExpr(returnVal.value, st)
      else Step(st, Resolved)
    case Print(expr) => ResolveExpr(expr, st)
    case Expr(expr) => ResolveExpr(expr, st)
    case Missing => Step(st, Crashed(NullStatement))
  }

  /** Resolves a statement list in the current scope, stopping at the first error. */
  function ResolveStmts(ss: seq<Statement>, st: ResolveState): (r: Step)
    ensures r.verdict.Resolved? ==> |r.state.scopes| == |st.scopes|
    ensures r.verdict.Resolved? ==>
      r.state.currentFunction == st.currentFunction && r.state.currentClass == st.currentClass
    decreases ss
  {
    if |ss| == 0 then Step(st, Resolved)
    else
      var a := ResolveStmt(ss[0], st);
      if !a.verdict.Resolved? then a else ResolveStmts(ss[1..], a.state)
  }

  /** Declares and defines each parameter in the innermost scope. */
  function ResolveParams(params: seq<Token>, st: ResolveState): (r: Step)
    ensures r.verdict.Resolved? ==> |r.state.scopes| == |st.scopes|
    ensures r.state.currentFunction == st.currentFunction && r.state.currentClass == st.currentClass
    ensures r.state.distances == st.distances
    decreases |params|
  {
    if |params| == 0 then Step(st, Resolved)
    else
      var a := DeclareIn(st, params[0]);
      if !a.verdict.Resolved? then a else ResolveParams(params[1..], DefineIn(a.state, params[0]))
  }

  /**
   * Resolves a function: a new scope holds the parameters and encloses the
   * body, which is resolved as a list in that same scope.
   */
  function ResolveFunc(decl: FuncDecl, kind: FuncType, st: ResolveState): (r: Step)
    ensures r.verdict.Resolved? ==> |r.state.scopes| == |st.scopes|
    ensures r.verdict.Resolved? ==>
      r.state.currentFunction == st.currentFunction && r.state.currentClass == st.currentClass
    decreases decl
  {
    var scoped := BeginScope(st.(currentFunction := kind));
    var a := ResolveParams(decl.params, scoped);
    if !a.verdict.Resolved? then a
    else
      var b := ResolveStmts(decl.body, a.state);
      if !b.verdict.Resolved? then b
      else Step(EndScope(b.state).(currentFunction := st.currentFunction), Resolved)
  }

  /** Resolves the methods of a class, in order. */
  function ResolveMethodDecls(methods: seq<FuncDecl>, st: ResolveState): (r: Step)
    ensures r.verdict.Resolved? ==> |r.state.scopes| == |st.scopes|
    ensures r.verdict.Resolved? ==>
      r.state.currentFunction == st.currentFunction && r.state.currentClass == st.currentClass
    decreases methods
  {
    if |methods| == 0 then Step(st, Resolved)
    else
      var a := ResolveFunc(methods[0], InMethod, st);
      if !a.verdict.Resolved? then a else ResolveMethodDecls(methods[1..], a.state)
  }

  /* ---------------- properties of the specification ---------------- */

  /** The ids of the nodes the resolver may record a distance for, in `e`. */
  function NodeIds(e: Expression): set<nat>
    decreases e
  {
    match e
    case Assign(id, _, value) => {id} + NodeIds(value)
    case Set(obj, _, value) => NodeIds(obj) + NodeIds(value)
    case Ternary(cond, _, thenBranch, elseBranch) => NodeIds(cond) + NodeIds(thenBranch) + NodeIds(elseBranch)
    case Binary(lhs, _, rhs) => NodeIds(lhs) + NodeIds(rhs)
    case Unary(_, operand) => NodeIds(operand)
    case Call(callee, _, args) => NodeIds(callee) + NodeIdsOf(args)
    case Get(obj, _) => NodeIds(obj)
    case Logical(lhs, _, rhs) => NodeIds(lhs) + NodeIds(rhs)
    case VarAccess(id, _) => {id}
    case Grouping(inner) => NodeIds(inner)
    case This(id, _) => {id}
    case Literal(_) => {}
  }

  function NodeIdsOf(es: seq<Expression>): set<nat>
    decreases es
  {
    if |es| == 0 then {} else NodeIds(es[0]) + NodeIdsOf(es[1..])
  }

  /**
   * `after` keeps every entry of `before`, and every entry it adds or changes
   * belongs to one of `ids` and is a distance below `depth`.
   */
  ghost predicate RecordsWithin(before: map<nat, nat>, after: map<nat, nat>, ids: set<nat>, depth: nat)
  {
    && before.Keys <= after.Keys
    && forall k :: k in after && (k !in before || after[k] != before[k]) ==> k in ids && after[k] < depth
  }

  lemma RecordsWithinTrans(a: map<nat, nat>, b: map<nat, nat>, c: map<nat, nat>, ids1: set<nat>, ids2: set<nat>, depth: nat)
    requires RecordsWithin(a, b, ids1, depth) && RecordsWithin(b, c, ids2, depth)
    ensures RecordsWithin(a, c, ids1 + ids2, depth)
  {
  }

  /**
   * Resolving an expression records distances only for its own variable,
   * assignment and `this` nodes (never for a property name), each one a
   * valid index into the scope stack, and keeps every earlier entry.
   */
  lemma {:induction false} ExprRecordsOnlyItsNodes(e: Expression, st: ResolveState)
    ensures RecordsWithin(st.distances, ResolveExpr(e, st).state.distances, NodeIds(e), |st.scopes|)
    decreases e
  {
    match e
    case Assign(id, name, value) =>
      ExprRecordsOnlyItsNodes(value, st);
    case Set(obj, _, value) =>
      var a := ResolveExpr(value, st);
      ExprRecordsOnlyItsNodes(value, st);
      if a.verdict.Resolved? {
        ExprRecordsOnlyItsNodes(obj, a.state);
        RecordsWithinTrans(st.distances, a.state.distances, ResolveExpr(obj, a.state).state.distances, NodeIds(value), NodeIds(obj), |st.scopes|);
      }
    case Ternary(cond, _, thenBranch, elseBranch) =>
      var a := ResolveExpr(elseBranch, st);
      ExprRecordsOnlyItsNodes(elseBranch, st);
      if a.verdict.Resolved? {
        var b := ResolveExpr(thenBranch, a.state);
        ExprRecordsOnlyItsNodes(thenBranch, a.state);
        RecordsWithinTrans(st.distances, a.state.distances, b.state.distances, NodeIds(elseBranch), NodeIds(thenBranch), |st.scopes|);
        if b.verdict.Resolved? {
          ExprRecordsOnlyItsNodes(cond, b.state);
          RecordsWithinTrans(st.distances, b.state.distances, ResolveExpr(cond, b.state).state.distances,
            NodeIds(elseBranch) + NodeIds(thenBranch), NodeIds(cond), |st.scopes|);
        }
      }
    case Binary(lhs, _, rhs) =>
      var a := ResolveExpr(lhs, st);
      ExprRecordsOnlyItsNodes(lhs, st);
      if a.verdict.Resolved? {
        ExprRecordsOnlyItsNodes(rhs, a.state);
        RecordsWithinTrans(st.distances, a.state.distances, ResolveExpr(rhs, a.state).state.distances, NodeIds(lhs), NodeIds(rhs), |st.scopes|);
      }
    case Unary(_, operand) =>
      ExprRecordsOnlyItsNodes(operand, st);
    case Call(callee, _, args) =>
      var a := ResolveExpr(callee, st);
      ExprRecordsOnlyItsNodes(callee, st);
      if a.verdict.Resolved? {
        ExprsRecordOnlyTheirNodes(args, a.state);
        RecordsWithinTrans(st.distances, a.state.distances, ResolveExprs(args, a.state).state.distances, NodeIds(callee), NodeIdsOf(args), |st.scopes|);
      }
    case Get(obj, _) =>
      ExprRecordsOnlyItsNodes(obj, st);
    case Logical(lhs, _, rhs) =>
      var a := ResolveExpr(lhs, st);
      ExprRecordsOnlyItsNodes(lhs, st);
      if a.verdict.Resolved? {
        ExprRecordsOnlyItsNodes(rhs, a.state);
        RecordsWithinTrans(st.distances, a.state.distances, ResolveExpr(rhs, a.state).state.distances, NodeIds(lhs), NodeIds(rhs), |st.scopes|);
      }
    case VarAccess(_, _) =>
    case Grouping(inner) =>
      ExprRecordsOnlyItsNodes(inner, st);
    case This(_, _) =>
    case Literal(_) =>
  }

  lemma {:induction false} ExprsRecordOnlyTheirNodes(es: seq<Expression>, st: ResolveState)
    ensures RecordsWithin(st.distances, ResolveExprs(es, st).state.distances, NodeIdsOf(es), |st.scopes|)
    decreases es
  {
    if |es| > 0 {
      var a := ResolveExpr(es[0], st);
      ExprRecordsOnlyItsNodes(es[0], st);
      if a.verdict.Resolved? {
        ExprsRecordOnlyTheirNodes(es[1..], a.state);
        RecordsWithinTrans(st.distances, a.state.distances, ResolveExprs(es[1..], a.state).state.distances, NodeIds(es[0]), NodeIdsOf(es[1..]), |st.scopes|);
      }
    }
  }

  /** At the top level, with no scope open, an expression records nothing: every name is global. */
  lemma GlobalExprRecordsNothing(e: Expression, st: ResolveState)
    requires |st.scopes| == 0
    ensures ResolveExpr(e, st).state.distances == st.distances
  {
    var after := ResolveExpr(e, st).state.distances;
    ExprRecordsOnlyItsNodes(e, st);
    assert forall k :: k in after ==> k in st.distances && after[k] == st.distances[k];
  }

  /** Whether `e` mentions `this` anywhere. */
  predicate MentionsThis(e: Expression)
    decreases e
  {
    match e
    case Assign(_, _, value) => MentionsThis(value)
    case Set(obj, _, value) => MentionsThis(obj) || MentionsThis(value)
    case Ternary(cond, _, thenBranch, elseBranch) => MentionsThis(cond) || MentionsThis(thenBranch) || MentionsThis(elseBranch)
    case Binary(lhs, _, rhs) => MentionsThis(lhs) || MentionsThis(rhs)
    case Unary(_, operand) => MentionsThis(operand)
    case Call(callee, _, args) => MentionsThis(callee) || exists i :: 0 <= i < |args| && MentionsThis(args[i])
    case Get(obj, _) => MentionsThis(obj)
    case Logical(lhs, _, rhs) => MentionsThis(lhs) || MentionsThis(rhs)
    case VarAccess(_, _) => false
    case Grouping(inner) => MentionsThis(inner)
    case This(_, _) => true
    case Literal(_) => false
  }

  /** Outside a class, no expression that mentions `this` resolves. */
  lemma {:induction false} ThisOutsideClassRejected(e: Expression, st: ResolveState)
    requires st.currentClass == NoClass && MentionsThis(e)
    ensures !ResolveExpr(e, st).verdict.Resolved?
    decreases e
  {
    match e
    case Assign(_, _, value) => ThisOutsideClassRejected(value, st);
    case Set(obj, _, value) =>
      var a := ResolveExpr(value, st);
      if MentionsThis(value) { ThisOutsideClassRejected(value, st); }
      else if a.verdict.Resolved? { ThisOutsideClassRejected(obj, a.state); }
    case Ternary(cond, _, thenBranch, elseBranch) =>
      var a := ResolveExpr(elseBranch, st);
      if MentionsThis(elseBranch) { ThisOutsideClassRejected(elseBranch, st); }
      else if a.verdict.Resolved? {
        var b := ResolveExpr(thenBranch, a.state);
        if MentionsThis(thenBranch) { ThisOutsideClassRejected(thenBranch, a.state); }
        else if b.verdict.Resolved? { ThisOutsideClassRejected(cond, b.state); }
      }
    case Binary(lhs, _, rhs) =>
      var a := ResolveExpr(lhs, st);
      if MentionsThis(lhs) { ThisOutsideClassRejected(lhs, st); }
      else if a.verdict.Resolved? { ThisOutsideClassRejected(rhs, a.state); }
    case Unary(_, operand) => ThisOutsideClassRejected(operand, st);
    case Call(callee, _, args) =>
      var a := ResolveExpr(callee, st);
      if MentionsThis(callee) { ThisOutsideClassRejected(callee, st); }
      else if a.verdict.Resolved? {
        var i :| 0 <= i < |args| && MentionsThis(args[i]);
        ThisOutsideClassRejectedIn(args, i, a.state);
      }
    case Get(obj, _) => ThisOutsideClassRejected(obj, st);
    case Logical(lhs, _, rhs) =>
      var a := ResolveExpr(lhs, st);
      if MentionsThis(lhs) { ThisOutsideClassRejected(lhs, st); }
      else if a.verdict.Resolved? { ThisOutsideClassRejected(rhs, a.state); }
    case Grouping(inner) => ThisOutsideClassRejected(inner, st);
    case This(_, _) =>
  }

  lemma {:induction false} ThisOutsideClassRejectedIn(es: seq<Expression>, i: nat, st: ResolveState)
    requires st.currentClass == NoClass && i < |es| && MentionsThis(es[i])
    ensures !ResolveExprs(es, st).verdict.Resolved?
    decreases es
  {
    var a := ResolveExpr(es[0], st);
    if i == 0 {
      ThisOutsideClassRejected(es[0], st);
    } else if a.verdict.Resolved? {
      assert es[1..][i - 1] == es[i];
      ThisOutsideClassRejectedIn(es[1..], i - 1, a.state);
    }
  }

  /** Whether `s` holds a `return` that is not inside a function or method declaration. */
  predicate HasBareReturn(s: Statement)
    decreases s
  {
    match s
    case Return(_, _) => true
    case Block(stmts) => exists i :: 0 <= i < |stmts| && HasBareReturn(stmts[i])
    case If(_, thenBranch, elseBranch) => HasBareReturn(thenBranch) || (elseBranch.Some? && HasBareReturn(elseBranch.value))
    case While(_, body) => HasBareReturn(body)
    case _ => false
  }

  /** Outside every function, no statement holding a bare `return` resolves. */
  lemma {:induction false} TopLevelReturnRejected(s: Statement, st: ResolveState)
    requires st.currentFunction == NoFunction && HasBareReturn(s)
    ensures !ResolveStmt(s, st).verdict.Resolved?
    decreases s
  {
    match s
    case Return(_, _) =>
    case Block(stmts) =>
      var i :| 0 <= i < |stmts| && HasBareReturn(stmts[i]);
      TopLevelReturnRejectedIn(stmts, i, BeginScope(st));
    case If(condition, thenBranch, elseBranch) =>
      var a := ResolveExpr(condition, st);
      if a.verdict.Resolved? {
        var b := ResolveStmt(thenBranch, a.state);
        if HasBareReturn(thenBranch) { TopLevelReturnRejected(thenBranch, a.state); }
        else if b.verdict.Resolved? { TopLevelReturnRejected(elseBranch.value, b.state); }
      }
    case While(condition, body) =>
      var a := ResolveExpr(condition, st);
      if a.verdict.Resolved? { TopLevelReturnRejected(body, a.state); }
  }

  lemma {:induction false} TopLevelReturnRejectedIn(ss: seq<Statement>, i: nat, st: ResolveState)
    requires st.currentFunction == NoFunction && i < |ss| && HasBareReturn(ss[i])
    ensures !ResolveStmts(ss, st).verdict.Resolved?
    decreases ss
  {
    var a := ResolveStmt(ss[0], st);
    if i == 0 {
      TopLevelReturnRejected(ss[0], st);
    } else if a.verdict.Resolved? {
      assert ss[1..][i - 1] == ss[i];
      TopLevelReturnRejectedIn(ss[1..], i - 1, a.state);
    }
  }

  /** The names of the parameters. */
  function Names(params: seq<Token>): set<string>
  {
    set i | 0 <= i < |params| :: params[i].lexeme
  }

  /** No parameter repeats a name, and none reuses a name of `taken`. */
  ghost predicate FreshNames(params: seq<Token>, taken: set<string>)
  {
    && (forall i :: 0 <= i < |params| ==> params[i].lexeme !in taken)
    && (forall i, j :: 0 <= i < j < |params| ==> params[i].lexeme != params[j].lexeme)
  }

  /** The scope a function's parameters make: every name defined. */
  function ParamScope(params: seq<Token>): map<string, bool>
  {
    map name | name in Names(params) :: true
  }

  /**
   * Parameters resolve exactly when their names are distinct and new to the
   * innermost scope; they then end up defined there, and the outer scopes are
   * untouched. A repeated name is the redeclaration error at one of them.
   */
  lemma NamesCons(params: seq<Token>)
    requires |params| > 0
    ensures Names(params) == {params[0].lexeme} + Names(params[1..])
  {
    forall n | n in Names(params) ensures n in {params[0].lexeme} + Names(params[1..]) {
      var i :| 0 <= i < |params| && params[i].lexeme == n;
      if i > 0 { assert params[1..][i - 1] == params[i]; }
    }
  }

  lemma FreshNamesCons(params: seq<Token>, taken: set<string>)
    requires |params| > 0
    ensures FreshNames(params, taken) <==>
      params[0].lexeme !in taken && FreshNames(params[1..], taken + {params[0].lexeme})
  {
    var rest := params[1..];
    if params[0].lexeme !in taken && FreshNames(rest, taken + {params[0].lexeme}) {
      forall i, j | 0 <= i < j < |params| ensures params[i].lexeme != params[j].lexeme {
        assert rest[j - 1] == params[j];
        if i > 0 { assert rest[i - 1] == params[i]; }
      }
      forall i | 0 <= i < |params| ensures params[i].lexeme !in taken {
        if i > 0 { assert rest[i - 1] == params[i]; }
      }
    }
    if FreshNames(params, taken) {
      forall i | 0 <= i < |rest| ensures rest[i].lexeme !in taken + {params[0].lexeme} {
        assert rest[i] == params[i + 1];
      }
      forall i, j | 0 <= i < j < |rest| ensures rest[i].lexeme != rest[j].lexeme {
        assert rest[i] == params[i + 1] && rest[j] == params[j + 1];
      }
    }
  }

  lemma ParamScopeCons(params: seq<Token>, top: map<string, bool>)
    requires |params| > 0
    ensures top + ParamScope(params) == top[params[0].lexeme := true] + ParamScope(params[1..])
  {
    NamesCons(params);
  }

  /**
   * Parameters resolve exactly when their names are distinct and new to the
   * innermost scope; they then end up defined there, and the outer scopes are
   * untouched. A repeated name is the redeclaration error at one of them.
   */
  lemma {:induction false} ParamsBinding(params: seq<Token>, st: ResolveState)
    requires |st.scopes| > 0
    ensures var r := ResolveParams(params, st);
      && (r.verdict.Resolved? <==> FreshNames(params, Top(st.scopes).Keys))
      && (r.verdict.Resolved? ==>
        && r.state.scopes[..|st.scopes| - 1] == st.scopes[..|st.scopes| - 1]
        && Top(r.state.scopes) == Top(st.scopes) + ParamScope(params))
      && (!r.verdict.Resolved? ==>
        && r.verdict.Rejected? && r.verdict.message == RedeclaredMessage
        && exists i :: 0 <= i < |params| && r.verdict.at == params[i])
    decreases |params|
  {
    var r := ResolveParams(params, st);
    if |params| == 0 {
      assert Top(st.scopes) + ParamScope(params) == Top(st.scopes);
    } else {
      FreshNamesCons(params, Top(st.scopes).Keys);
      var a := DeclareIn(st, params[0]);
      if a.verdict.Resolved? {
        var next := DefineIn(a.state, params[0]);
        var top := Top(st.scopes)[params[0].lexeme := true];
        assert Top(next.scopes) == top && top.Keys == Top(st.scopes).Keys + {params[0].lexeme};
        assert r == ResolveParams(params[1..], next);
        ParamsBinding(params[1..], next);
        if r.verdict.Resolved? {
          ParamScopeCons(params, Top(st.scopes));
        } else {
          var i :| 0 <= i < |params[1..]| && r.verdict.at == params[1..][i];
          assert r.verdict.at == params[i + 1];
        }
      }
    }
  }

  /**
   * A function whose parameter names are distinct resolves its body in a new
   * innermost scope that binds exactly the parameters, with the function kind
   * set; repeated parameter names are rejected before the body is visited.
   */
  lemma FunctionBodyScope(decl: FuncDecl, kind: FuncType, st: ResolveState)
    ensures var r, body := ResolveFunc(decl, kind, st),
      ResolveStmts(decl.body, ResolveState(st.scopes + [ParamScope(decl.params)], kind, st.currentClass, st.distances));
      && (FreshNames(decl.params, {}) ==> r.verdict == body.verdict && r.state.distances == body.state.distances)
      && (!FreshNames(decl.params, {}) ==> r.verdict.Rejected? && r.verdict.message == RedeclaredMessage && r.state.distances == st.distances)
  {
    var scoped := BeginScope(st.(currentFunction := kind));
    var entered := ResolveState(st.scopes + [ParamScope(decl.params)], kind, st.currentClass, st.distances);
    var a := ResolveParams(decl.params, scoped);
    var r := ResolveFunc(decl, kind, st);
    ParamsBinding(decl.params, scoped);
    assert Top(scoped.scopes) == map[] && map[] + ParamScope(decl.params) == ParamScope(decl.params);
    if a.verdict.Resolved? {
      var n := |a.state.scopes|;
      assert a.state.scopes == a.state.scopes[..n - 1] + [a.state.scopes[n - 1]];
      assert a.state.scopes[..n - 1] == st.scopes;
      assert a.state.scopes == entered.scopes;
      assert a.state == entered;
      var b := ResolveStmts(decl.body, entered);
      assert r == if !b.verdict.Resolved? then b else Step(EndScope(b.state).(currentFunction := st.currentFunction), Resolved);
    } else {
      assert r == a;
    }
  }

  /**
   * `var a = a;` inside a local scope, for a name new to that scope, is the
   * own-initializer error: the name is declared but not yet defined.
   */
  lemma OwnInitializerRejected(name: Token, id: nat, use: Token, st: ResolveState)
    requires |st.scopes| > 0 && name.lexeme !in Top(st.scopes) && use.lexeme == name.lexeme
    ensures ResolveStmt(VarDeclare(name, Some(VarAccess(id, use))), st).verdict == Rejected(use, OwnInitializerMessage)
  {
    var a := DeclareIn(st, name);
    assert Top(a.state.scopes) == Top(st.scopes)[name.lexeme := false];
  }

  /**
   * In a method body, `this` names the class scope just outside the
   * parameters, unless a parameter is itself called `this`.
   */
  lemma ThisInMethod(outer: Scopes, params: seq<Token>, id: nat, keyword: Token, fn: FuncType, distances: map<nat, nat>)
    requires keyword.lexeme == "this" && "this" !in Names(params)
    ensures var scopes := outer + [map["this" := true], ParamScope(params)];
      ResolveExpr(Expression.This(id, keyword), ResolveState(scopes, fn, InClass, distances))
        == Step(ResolveState(scopes, fn, InClass, distances[id := 1]), Resolved)
  {
    var scopes := outer + [map["this" := true], ParamScope(params)];
    var enclosing := outer + [map["this" := true]];
    assert scopes[..|scopes| - 1] == enclosing;
    assert "this" !in Top(scopes);
    assert Distance(enclosing, "this") == Some(0);
  }

  /* ---------------- the resolver ---------------- */

  class Resolver {
    /** the interpreter whose side map receives the distances */
    const interpreter: Interpreter
    /** the diagnostics collector a resolve error is reported to */
    const err: Error
    var scopeStack: Scopes
    var currentFunction: FuncType
    var currentClass: ClassType

    /** The fields, with the interpreter's side map, as a specification state. */
    ghost function State(): ResolveState
      reads this, interpreter
    {
      ResolveState(scopeStack, currentFunction, currentClass, interpreter.localVar)
    }

    constructor (interpreter: Interpreter, err: Error)
      ensures this.interpreter == interpreter && this.err == err
      ensures scopeStack == [] && currentFunction == NoFunction && currentClass == NoClass
    {
      this.interpreter := interpreter;
      this.err := err;
      scopeStack := [];
      currentFunction := NoFunction;
      currentClass := NoClass;
    }

    /**
     * Resolves a program. A resolve error ends the walk and is reported once;
     * a host exception escapes unreported.
     */
    method Run(program: seq<Statement>) returns (verdict: Verdict)
      modifies this, interpreter`localVar, err
      ensures var r := ResolveStmts(program, old(State())); State() == r.state && verdict == r.verdict
      ensures verdict.Rejected? ==>
        err.output == old(err.output) + [Format(verdict.at.line, Where(verdict.at), verdict.message)] && err.errStatus
      ensures !verdict.Rejected? ==> err.output == old(err.output) && err.errStatus == old(err.errStatus)
    {
      verdict := ResolveStatements(program);
      if verdict.Rejected? {
        err.ReportToken(verdict.at, verdict.message);
      }
    }

    /* ---------------- scope helpers ---------------- */

    method BeginScope()
      modifies this`scopeStack
      ensures scopeStack == old(scopeStack) + [map[]]
    {
      scopeStack := scopeStack + [map[]];
    }

    method EndScope()
      requires |scopeStack| > 0
      modifies this`scopeStack
      ensures scopeStack == old(scopeStack)[..|old(scopeStack)| - 1]
    {
      scopeStack := scopeStack[..|scopeStack| - 1];
    }

    method Declare(name: Token) returns (verdict: Verdict)
      modifies this`scopeStack
      ensures Step(State(), verdict) == DeclareIn(old(State()), name)
    {
      verdict := Resolved;
      if |scopeStack| == 0 {
        return;
      }
      if name.lexeme in Top(scopeStack) {
        verdict := Rejected(name, RedeclaredMessage);
        return;
      }
      scopeStack := SetTop(scopeStack, name.lexeme, false);
    }

    method Define(name: Token)
      modifies this`scopeStack
      ensures State() == DefineIn(old(State()), name)
    {
      if |scopeStack| == 0 {
        return;
      }
      scopeStack := SetTop(scopeStack, name.lexeme, true);
    }

    /** Scans the scopes from the innermost out and records the first that binds the name. */
    method ResolveVariable(id: nat, name: Token)
      modifies interpreter`localVar
      ensures State() == Stored(old(State()), id, name.lexeme)
    {
      var idx := |scopeStack| - 1;
      while idx >= 0
        invariant -1 <= idx < |scopeStack|
        invariant forall k :: idx < k < |scopeStack| ==> name.lexeme !in scopeStack[k]
        invariant interpreter.localVar == old(interpreter.localVar)
      {
        if name.lexeme in scopeStack[idx] {
          DistanceOfInnermost(scopeStack, name.lexeme, |scopeStack| - idx - 1);
          interpreter.StoreResolve(id, |scopeStack| - idx - 1);
          return;
        }
        idx := idx - 1;
      }
    }

    /* ---------------- expressions ---------------- */

    method ResolveExpression(e: Expression) returns (verdict: Verdict)
      modifies interpreter`localVar
      ensures Step(State(), verdict) == ResolveExpr(e, old(State()))
      decreases e
    {
      match e
      case Assign(id, name, value) =>
        verdict := ResolveExpression(value);
        if verdict.Resolved? {
          ResolveVariable(id, name);
        }
      case Set(obj, _, value) =>
        verdict := ResolveExpression(value);
        if verdict.Resolved? {
          verdict := ResolveExpression(obj);
        }
      case Ternary(cond, _, thenBranch, elseBranch) =>
        verdict := ResolveExpression(elseBranch);
        if verdict.Resolved? {
          verdict := ResolveExpression(thenBranch);
          if verdict.Resolved? {
            verdict := ResolveExpression(cond);
          }
        }
      case Binary(lhs, _, rhs) =>
        verdict := ResolveExpression(lhs);
        if verdict.Resolved? {
          verdict := ResolveExpression(rhs);
        }
      case Unary(_, operand) =>
        verdict := ResolveExpression(operand);
      case Call(callee, _, args) =>
        verdict := ResolveExpression(callee);
        if verdict.Resolved? {
          verdict := ResolveExpressions(args);
        }
      case Get(obj, _) =>
        verdict := ResolveExpression(obj);
      case Logical(lhs, _, rhs) =>
        verdict := ResolveExpression(lhs);
        if verdict.Resolved? {
          verdict := ResolveExpression(rhs);
        }
      case VarAccess(id, name) =>
        if |scopeStack| > 0 && name.lexeme in Top(scopeStack) && !Top(scopeStack)[name.lexeme] {
          verdict := Rejected(name, OwnInitializerMessage);
        } else {
          ResolveVariable(id, name);
          verdict := Resolved;
        }
      case Grouping(inner) =>
        verdict := ResolveExpression(inner);
      case This(id, keyword) =>
        if currentClass == NoClass {
          verdict := Rejected(keyword, ThisOutsideClassMessage);
        } else {
          ResolveVariable(id, keyword);
          verdict := Resolved;
        }
      case Literal(_) =>
        verdict := Resolved;
    }

    /** The arguments of a call, in order. */
    method ResolveExpressions(es: seq<Expression>) returns (verdict: Verdict)
      modifies interpreter`localVar
      ensures Step(State(), verdict) == ResolveExprs(es, old(State()))
      decreases es
    {
      verdict := Resolved;
      var i := 0;
      while i < |es|
        invariant 0 <= i <= |es|
        invariant verdict == Resolved
        invariant ResolveExprs(es, old(State())) == ResolveExprs(es[i..], State())
      {
        assert es[i..][0] == es[i] && es[i..][1..] == es[i + 1..];
        verdict := ResolveExpression(es[i]);
        if !verdict.Resolved? {
          return;
        }
        i := i + 1;
      }
    }

    /* ---------------- statements ---------------- */

    method ResolveStatements(ss: seq<Statement>) returns (verdict: Verdict)
      modifies this, interpreter`localVar
      ensures Step(State(), verdict) == ResolveStmts(ss, old(State()))
      decreases ss
    {
      verdict := Resolved;
      var i := 0;
      while i < |ss|
        invariant 0 <= i <= |ss|
        invariant verdict == Resolved
        invariant ResolveStmts(ss, old(State())) == ResolveStmts(ss[i..], State())
      {
        assert ss[i..][0] == ss[i] && ss[i..][1..] == ss[i + 1..];
        verdict := ResolveStatement(ss[i]);
        if !verdict.Resolved? {
          return;
        }
        i := i + 1;
      }
    }

    method ResolveStatement(s: Statement) returns (verdict: Verdict)
      modifies this, interpreter`localVar
      ensures Step(State(), verdict) == ResolveStmt(s, old(State()))
      decreases s
    {
      match s
      case Block(stmts) =>
        BeginScope();
        verdict := ResolveStatements(stmts);
        if verdict.Resolved? {
          EndScope();
        }
      case VarDeclare(name, initializer) =>
        verdict := ResolveVarDeclare(name, initializer);
      case FuncPrototype(decl) =>
        verdict := Declare(decl.name);
        if verdict.Resolved? {
          Define(decl.name);
          verdict := ResolveFunction(decl, InFunction);
        }
      case ClassDeclare(name, superClass, methods) =>
        verdict := ResolveClass(name, superClass, methods);
      case If(condition, thenBranch, elseBranch) =>
        verdict := ResolveExpression(condition);
        if verdict.Resolved? {
          verdict := ResolveStatement(thenBranch);
          if verdict.Resolved? && elseBranch.Some? {
            verdict := ResolveStatement(elseBranch.value);
          }
        }
      case While(condition, body) =>
        verdict := ResolveExpression(condition);
        if verdict.Resolved? {
          verdict := ResolveStatement(body);
        }
      case Return(keyword, returnVal) =>
        if currentFunction == NoFunction {
          verdict := Rejected(keyword, TopLevelReturnMessage);
        } else if returnVal.Some? {
          verdict := ResolveExpression(returnVal.value);
        } else {
          verdict := Resolved;
        }
      case Print(expr) =>
        verdict := ResolveExpression(expr);
      case Expr(expr) =>
        verdict := ResolveExpression(expr);
      case Missing =>
        verdict := Crashed(NullStatement);
    }

    /** Declared, then the initializer, then defined. */
    method ResolveVarDeclare(name: Token, initializer: Option<Expression>) returns (verdict: Verdict)
      modifies this, interpreter`localVar
      ensures Step(State(), verdict) == ResolveStmt(VarDeclare(name, initializer), old(State()))
    {
      verdict := Declare(name);
      if !verdict.Resolved? {
        return;
      }
      if initializer.Some? {
        verdict := ResolveExpression(initializer.value);
        if !verdict.Resolved? {
          return;
        }
      }
      Define(name);
    }

    /**
     * A class: its name is bound in the enclosing scope, and its methods are
     * resolved inside a scope that binds `this`, with the class flag set.
     */
    method ResolveClass(name: Token, superClass: Option<Expression>, methods: seq<FuncDecl>) returns (verdict: Verdict)
      modifies this, interpreter`localVar
      ensures Step(State(), verdict) == ResolveStmt(ClassDeclare(name, superClass, methods), old(State()))
      decreases methods, 1
    {
      var enclosingClass := currentClass;
      currentClass := InClass;
      verdict := Declare(name);
      if !verdict.Resolved? {
        return;
      }
      Define(name);
      BeginScope();
      scopeStack := SetTop(scopeStack, "this", true);
      verdict := ResolveMethods(methods);
      if !verdict.Resolved? {
        return;
      }
      EndScope();
      currentClass := enclosingClass;
    }

    method ResolveMethods(methods: seq<FuncDecl>) returns (verdict: Verdict)
      modifies this, interpreter`localVar
      ensures Step(State(), verdict) == ResolveMethodDecls(methods, old(State()))
      decreases methods, 0
    {
      verdict := Resolved;
      var i := 0;
      while i < |methods|
        invariant 0 <= i <= |methods|
        invariant verdict == Resolved
        invariant ResolveMethodDecls(methods, old(State())) == ResolveMethodDecls(methods[i..], State())
      {
        assert methods[i..][0] == methods[i] && methods[i..][1..] == methods[i + 1..];
        verdict := ResolveFunction(methods[i], InMethod);
        if !verdict.Resolved? {
          return;
        }
        i := i + 1;
      }
    }

    /** A function or method: a new scope for the parameters, around the body. */
    method ResolveFunction(decl: FuncDecl, kind: FuncType) returns (verdict: Verdict)
      modifies this, interpreter`localVar
      ensures Step(State(), verdict) == ResolveFunc(decl, kind, old(State()))
      decreases decl
    {
      var enclosingFunction := currentFunction;
      currentFunction := kind;
      BeginScope();
      verdict := ResolveParameters(decl.params);
      if !verdict.Resolved? {
        return;
      }
      verdict := ResolveStatements(decl.body);
      if !verdict.Resolved? {
        return;
      }
      EndScope();
      currentFunction := enclosingFunction;
    }

    method ResolveParameters(params: seq<Token>) returns (verdict: Verdict)
      modifies this`scopeStack
      ensures Step(State(), verdict) == ResolveParams(params, old(State()))
    {
      verdict := Resolved;
      var i := 0;
      while i < |params|
        invariant 0 <= i <= |params|
        invariant verdict == Resolved
        invariant ResolveParams(params, old(State())) == ResolveParams(params[i..], State())
      {
        assert params[i..][0] == params[i] && params[i..][1..] == params[i + 1..];
        verdict := Declare(params[i]);
        if !verdict.Resolved? {
          return;
        }
        Define(params[i]);
        i := i + 1;
      }
    }
  }
}
