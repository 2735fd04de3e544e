/**
 * A reference semantics for the side-effect-free part of the language
 * (src/Interpreter.java): expressions built from literals, groupings,
 * variable reads, `this`, and the unary, binary, logical and ternary
 * operators, and the statements made of such expressions (expression
 * statements, `print`, `return` and `if`). It is stated as plain functions
 * over the scope the interpreter reads, so that the imperative evaluator can
 * be tied to it and its properties can be proved here.
 */
module Semantics {
  import opened Wrappers
  import opened Tokens
  import opened Ast
  import opened RuntimeErrors
  import opened Environments
  import opened Tan
  import opened Operators

  /** How a statement finished: normally, by a `return`, or by a fault. */
  datatype Completion = Normal | Returning(value: Value) | Abrupt(fault: Fault)

  /**
   * What a side-effect-free expression reads: the frames seen from the active
   * environment, those seen from the global one, and the resolver's
   * distances keyed by node id.
   */
  datatype Scope = Scope(frames: Frames<Value>, globals: Frames<Value>, distances: map<nat, nat>)

  /**
   * A variable read: a resolved name is looked up in the one frame at its
   * distance (nil when that frame lacks it); an unresolved one is searched
   * for from the globals and is an error when no frame binds it.
   */
  function LookupIn(sc: Scope, name: Token, id: nat): (r: Outcome)
    ensures r.Fail? <==> id !in sc.distances && Find(sc.globals, name.lexeme).None?
    ensures r.Fail? ==> r.fault == Thrown(RuntimeError(AtToken(name), "undefined variable: " + name.lexeme))
    ensures id in sc.distances ==>
      var distance := sc.distances[id];
      r == Ok(if distance < |sc.frames| && name.lexeme in sc.frames[distance] then sc.frames[distance][name.lexeme] else Nil)
  {
    if id in sc.distances then
      var distance := sc.distances[id];
      Ok(if distance < |sc.frames| && name.lexeme in sc.frames[distance] then sc.frames[distance][name.lexeme] else Nil)
    else match Find(sc.globals, name.lexeme)
      case Some(v) => Ok(v)
      case None => Fail(Thrown(RuntimeError(AtToken(name), "undefined variable: " + name.lexeme)))
  }

  /** An expression that neither writes, allocates nor calls. */
  predicate PureExpr(e: Expression)
  {
    match e
      case Literal(_) => true
      case Grouping(inner) => PureExpr(inner)
      case VarAccess(_, _) => true
      case This(_, _) => true
      case Unary(_, operand) => PureExpr(operand)
      case Binary(lhs, _, rhs) => PureExpr(lhs) && PureExpr(rhs)
      case Logical(lhs, _, rhs) => PureExpr(lhs) && PureExpr(rhs)
      case Ternary(c, _, t, f) => PureExpr(c) && PureExpr(t) && PureExpr(f)
      case _ => false
  }

  /**
   * The value of a side-effect-free expression, in the evaluator's order:
   * operands left to right, the right operand of `and`/`or` only when the
   * left does not decide, and a ternary's else branch, then its then
   * branch, then its condition. The first failure is the result. Such an
   * expression spends no fuel, so it never runs out of it.
   */
  function PureEval(e: Expression, sc: Scope): (r: Outcome)
    requires PureExpr(e)
    ensures r.Fail? ==> !r.fault.OutOfFuel?
  {
    match e
      case Literal(lit) => Ok(LiteralToValue(lit))
      case Grouping(inner) => PureEval(inner, sc)
      case VarAccess(id, name) => LookupIn(sc, name, id)
      case This(_, _) => Fail(Thrown(RuntimeError(AtExpression(e), "Expression error")))
      case Unary(operator, operand) =>
        var v := PureEval(operand, sc);
        if v.Fail? then v else UnaryOp(operator, v.value)
      case Binary(lhs, operator, rhs) =>
        var left := PureEval(lhs, sc);
        if left.Fail? then left
        else
          var right := PureEval(rhs, sc);
          if right.Fail? then right else BinaryOp(operator, left.value, right.value)
      case Logical(lhs, operator, rhs) =>
        var left := PureEval(lhs, sc);
        if left.Fail? || ShortCircuit(operator, left.value).Some? then left else PureEval(rhs, sc)
      case Ternary(c, _, t, f) =>
        var second := PureEval(f, sc);
        if second.Fail? then second
        else
          var first := PureEval(t, sc);
          if first.Fail? then first
          else
            var cond := PureEval(c, sc);
            if cond.Fail? then cond else if Truthy(cond.value) then first else second
  }

  /** Every expression of the list is side-effect-free. */
  predicate AllPure(args: seq<Expression>)
  {
    forall k :: 0 <= k < |args| ==> PureExpr(args[k])
  }

  /**
   * The argument values of a call, left to right, up to the first failing
   * argument, whose fault is returned beside them.
   */
  function PureArgs(args: seq<Expression>, sc: Scope): (r: (seq<Value>, Option<Fault>))
    requires AllPure(args)
    ensures r.1.None? ==> |r.0| == |args|
    ensures r.1.Some? ==> |r.0| < |args| && PureEval(args[|r.0|], sc) == Fail(r.1.value)
    ensures forall k :: 0 <= k < |r.0| ==> PureEval(args[k], sc) == Ok(r.0[k])
  {
    if |args| == 0 then ([], None)
    else
      var v := PureEval(args[0], sc);
      if v.Fail? then ([], Some(v.fault))
      else
        var rest := PureArgs(args[1..], sc);
        ([v.value] + rest.0, rest.1)
  }

  /**
   * The argument list's result is characterised by its parts: values that
   * are the successful arguments in order, then either the end of the list
   * or the fault of the next argument.
   */
  lemma {:induction false} ArgsExactly(args: seq<Expression>, sc: Scope, values: seq<Value>, fault: Option<Fault>)
    requires AllPure(args) && |values| <= |args|
    requires forall k :: 0 <= k < |values| ==> PureEval(args[k], sc) == Ok(values[k])
    requires fault.None? ==> |values| == |args|
    requires fault.Some? ==> |values| < |args| && PureEval(args[|values|], sc) == Fail(fault.value)
    ensures PureArgs(args, sc) == (values, fault)
  {
    if |args| > 0 && |values| > 0 {
      assert forall k :: 0 <= k < |values| - 1 ==> args[1..][k] == args[k + 1] && values[1..][k] == values[k + 1];
      ArgsExactly(args[1..], sc, values[1..], fault);
      assert values == [values[0]] + values[1..];
    }
  }

  /** A statement made only of side-effect-free expressions. */
  predicate PureStmt(s: Statement)
  {
    match s
      case Expr(e) => PureExpr(e)
      case Print(e) => PureExpr(e)
      case Return(_, returnVal) => returnVal.Some? ==> PureExpr(returnVal.value)
      case If(condition, thenBranch, elseBranch) =>
        && PureExpr(condition) && PureStmt(thenBranch)
        && (elseBranch.Some? ==> PureStmt(elseBranch.value))
      case _ => false
  }

  predicate PureStmts(stmts: seq<Statement>)
  {
    forall k :: 0 <= k < |stmts| ==> PureStmt(stmts[k])
  }

  /**
   * The lines a side-effect-free statement prints and how it completes. It
   * prints at most one line, and it never runs out of fuel.
   */
  function PureStep(s: Statement, sc: Scope, showNumber: real -> string): (r: (seq<string>, Completion))
    requires PureStmt(s)
    ensures |r.0| <= 1
    ensures r.1.Abrupt? ==> !r.1.fault.OutOfFuel?
  {
    match s
      case Expr(e) =>
        var v := PureEval(e, sc);
        ([], if v.Fail? then Abrupt(v.fault) else Normal)
      case Print(e) =>
        var v := PureEval(e, sc);
        if v.Fail? then ([], Abrupt(v.fault)) else ([Clean(v.value, showNumber)], Normal)
      case Return(_, returnVal) =>
        if returnVal.None? then ([], Returning(Nil))
        else
          var v := PureEval(returnVal.value, sc);
          ([], if v.Fail? then Abrupt(v.fault) else Returning(v.value))
      case If(condition, thenBranch, elseBranch) =>
        var cond := PureEval(condition, sc);
        if cond.Fail? then ([], Abrupt(cond.fault))
        else if Truthy(cond.value) then PureStep(thenBranch, sc, showNumber)
        else if elseBranch.Some? then PureStep(elseBranch.value, sc, showNumber)
        else ([], Normal)
  }

  /**
   * A block of side-effect-free statements: the lines printed, how the block
   * completes, and the runtime error it caught, if any. The statements run
   * in order; a runtime error ends the block normally and is caught; a
   * `return` or another fault ends it with that completion. A caught error
   * leaves the block normally, only faults outside the language escape it,
   * and it prints at most one line per statement.
   */
  function PureBlock(stmts: seq<Statement>, sc: Scope, showNumber: real -> string)
    : (r: (seq<string>, Completion, Option<RuntimeError>))
    requires PureStmts(stmts)
    ensures r.2.Some? ==> r.1 == Normal
    ensures r.1.Abrupt? ==> !r.1.fault.Thrown? && !r.1.fault.OutOfFuel?
    ensures |r.0| <= |stmts|
  {
    if |stmts| == 0 then ([], Normal, None)
    else
      var step := PureStep(stmts[0], sc, showNumber);
      if step.1.Abrupt? && step.1.fault.Thrown? then (step.0, Normal, Some(step.1.fault.error))
      else if !step.1.Normal? then (step.0, step.1, None)
      else
        var rest := PureBlock(stmts[1..], sc, showNumber);
        (step.0 + rest.0, rest.1, rest.2)
  }

  /** A block's result with `lines` printed before it. */
  function After(lines: seq<string>, b: (seq<string>, Completion, Option<RuntimeError>))
    : (r: (seq<string>, Completion, Option<RuntimeError>))
    ensures |r.0| == |lines| + |b.0| && r.0[..|lines|] == lines && r.1 == b.1 && r.2 == b.2
  {
    (lines + b.0, b.1, b.2)
  }

  /** `PureBlock` of the statements from position `i` on, stated by position rather than by slice. */
  function BlockFrom(stmts: seq<Statement>, i: nat, sc: Scope, showNumber: real -> string)
    : (r: (seq<string>, Completion, Option<RuntimeError>))
    requires PureStmts(stmts) && i <= |stmts|
    decreases |stmts| - i
  {
    if i == |stmts| then ([], Normal, None)
    else
      var step := PureStep(stmts[i], sc, showNumber);
      if step.1.Abrupt? && step.1.fault.Thrown? then (step.0, Normal, Some(step.1.fault.error))
      else if !step.1.Normal? then (step.0, step.1, None)
      else
        var rest := BlockFrom(stmts, i + 1, sc, showNumber);
        (step.0 + rest.0, rest.1, rest.2)
  }

  /**
   * A block from position `i` on, after `written`, unfolded by one statement:
   * a caught error or an abrupt completion ends it there, and a normal one
   * goes on from the next position.
   */
  lemma BlockFromStep(stmts: seq<Statement>, i: nat, sc: Scope, showNumber: real -> string,
                      written: seq<string>, whole: (seq<string>, Completion, Option<RuntimeError>))
    requires PureStmts(stmts) && i < |stmts| && whole == After(written, BlockFrom(stmts, i, sc, showNumber))
    ensures var step := PureStep(stmts[i], sc, showNumber);
      && (step.1.Abrupt? && step.1.fault.Thrown? ==> whole == (written + step.0, Normal, Some(step.1.fault.error)))
      && (!step.1.Normal? && !(step.1.Abrupt? && step.1.fault.Thrown?) ==> whole == (written + step.0, step.1, None))
      && (step.1.Normal? ==> whole == After(written + step.0, BlockFrom(stmts, i + 1, sc, showNumber)))
  {
    var step := PureStep(stmts[i], sc, showNumber);
    if step.1.Normal? {
      var rest := BlockFrom(stmts, i + 1, sc, showNumber);
      assert written + (step.0 + rest.0) == written + step.0 + rest.0;
    }
  }

  /** Running from position `i` is running the slice from `i`. */
  lemma {:induction false} BlockFromSlice(stmts: seq<Statement>, i: nat, sc: Scope, showNumber: real -> string)
    requires PureStmts(stmts) && i <= |stmts|
    ensures PureStmts(stmts[i..])
    ensures BlockFrom(stmts, i, sc, showNumber) == PureBlock(stmts[i..], sc, showNumber)
    decreases |stmts| - i
  {
    assert forall k :: 0 <= k < |stmts[i..]| ==> stmts[i..][k] == stmts[i + k];
    if i < |stmts| {
      assert stmts[i..][0] == stmts[i] && stmts[i..][1..] == stmts[i + 1..];
      BlockFromSlice(stmts, i + 1, sc, showNumber);
    }
  }

  /** A whole block is the block run from position 0 after no lines. */
  lemma BlockFromStart(stmts: seq<Statement>, sc: Scope, showNumber: real -> string)
    requires PureStmts(stmts)
    ensures PureBlock(stmts, sc, showNumber) == After([], BlockFrom(stmts, 0, sc, showNumber))
  {
    BlockFromSlice(stmts, 0, sc, showNumber);
    assert stmts[0..] == stmts;
  }

  /* ---------------- properties ---------------- */

  /** Every variable read in the expression yields the same outcome in both scopes. */
  predicate ReadsAgree(e: Expression, sc: Scope, sc': Scope)
  {
    match e
      case VarAccess(id, name) => LookupIn(sc, name, id) == LookupIn(sc', name, id)
      case Grouping(inner) => ReadsAgree(inner, sc, sc')
      case Unary(_, operand) => ReadsAgree(operand, sc, sc')
      case Binary(lhs, _, rhs) => ReadsAgree(lhs, sc, sc') && ReadsAgree(rhs, sc, sc')
      case Logical(lhs, _, rhs) => ReadsAgree(lhs, sc, sc') && ReadsAgree(rhs, sc, sc')
      case Ternary(c, _, t, f) => ReadsAgree(c, sc, sc') && ReadsAgree(t, sc, sc') && ReadsAgree(f, sc, sc')
      case _ => true
  }

  /** Every variable read in the expression was resolved to a distance. */
  predicate Resolved(e: Expression, distances: map<nat, nat>)
  {
    match e
      case VarAccess(id, _) => id in distances
      case Grouping(inner) => Resolved(inner, distances)
      case Unary(_, operand) => Resolved(operand, distances)
      case Binary(lhs, _, rhs) => Resolved(lhs, distances) && Resolved(rhs, distances)
      case Logical(lhs, _, rhs) => Resolved(lhs, distances) && Resolved(rhs, distances)
      case Ternary(c, _, t, f) => Resolved(c, distances) && Resolved(t, distances) && Resolved(f, distances)
      case _ => true
  }

  /** A side-effect-free expression depends on the scope only through its variable reads. */
  lemma {:induction false} EvalDependsOnReads(e: Expression, sc: Scope, sc': Scope)
    requires PureExpr(e) && ReadsAgree(e, sc, sc')
    ensures PureEval(e, sc) == PureEval(e, sc')
  {
    match e
    case Literal(_) =>
    case This(_, _) =>
    case VarAccess(_, _) =>
    case Grouping(inner) =>
      EvalDependsOnReads(inner, sc, sc');
    case Unary(_, operand) =>
      EvalDependsOnReads(operand, sc, sc');
    case Binary(lhs, _, rhs) =>
      EvalDependsOnReads(lhs, sc, sc');
      EvalDependsOnReads(rhs, sc, sc');
    case Logical(lhs, _, rhs) =>
      EvalDependsOnReads(lhs, sc, sc');
      EvalDependsOnReads(rhs, sc, sc');
    case Ternary(c, _, t, f) =>
      EvalDependsOnReads(c, sc, sc');
      EvalDependsOnReads(t, sc, sc');
      EvalDependsOnReads(f, sc, sc');
  }

  /**
   * An expression whose every variable was resolved reads no global: it has
   * the same value whatever the global frames hold.
   */
  lemma {:induction false} ResolvedIgnoresGlobals(e: Expression, frames: Frames<Value>, distances: map<nat, nat>,
                                                  globals: Frames<Value>, globals': Frames<Value>)
    requires PureExpr(e) && Resolved(e, distances)
    ensures PureEval(e, Scope(frames, globals, distances)) == PureEval(e, Scope(frames, globals', distances))
  {
    ResolvedReadsAgree(e, Scope(frames, globals, distances), Scope(frames, globals', distances));
    EvalDependsOnReads(e, Scope(frames, globals, distances), Scope(frames, globals', distances));
  }

  lemma {:induction false} ResolvedReadsAgree(e: Expression, sc: Scope, sc': Scope)
    requires Resolved(e, sc.distances) && sc.frames == sc'.frames && sc.distances == sc'.distances
    ensures ReadsAgree(e, sc, sc')
  {
    match e
    case Grouping(inner) =>
      ResolvedReadsAgree(inner, sc, sc');
    case Unary(_, operand) =>
      ResolvedReadsAgree(operand, sc, sc');
    case Binary(lhs, _, rhs) =>
      ResolvedReadsAgree(lhs, sc, sc');
      ResolvedReadsAgree(rhs, sc, sc');
    case Logical(lhs, _, rhs) =>
      ResolvedReadsAgree(lhs, sc, sc');
      ResolvedReadsAgree(rhs, sc, sc');
    case Ternary(c, _, t, f) =>
      ResolvedReadsAgree(c, sc, sc');
      ResolvedReadsAgree(t, sc, sc');
      ResolvedReadsAgree(f, sc, sc');
    case _ =>
  }

  /** An `and`/`or` whose left operand decides never looks at the right one. */
  lemma ShortCircuitIgnoresRight(lhs: Expression, operator: Token, rhs: Expression, rhs': Expression, sc: Scope)
    requires PureExpr(lhs) && PureExpr(rhs) && PureExpr(rhs')
    requires PureEval(lhs, sc).Ok? && ShortCircuit(operator, PureEval(lhs, sc).value).Some?
    ensures PureEval(Logical(lhs, operator, rhs), sc) == PureEval(Logical(lhs, operator, rhs'), sc) == PureEval(lhs, sc)
  {
  }

  /**
   * Running two lists of statements one after the other is running their
   * concatenation: the second list runs only when the first ends normally
   * without catching an error.
   */
  lemma {:induction false} BlockAppend(a: seq<Statement>, b: seq<Statement>, sc: Scope, showNumber: real -> string)
    requires PureStmts(a) && PureStmts(b)
    ensures PureStmts(a + b)
    ensures var first := PureBlock(a, sc, showNumber);
      PureBlock(a + b, sc, showNumber) ==
        if first.1 == Normal && first.2.None? then
          var second := PureBlock(b, sc, showNumber);
          (first.0 + second.0, second.1, second.2)
        else first
  {
    assert PureStmts(a + b) by {
      forall k | 0 <= k < |a + b|
        ensures PureStmt((a + b)[k])
      {
        if k < |a| { assert (a + b)[k] == a[k]; } else { assert (a + b)[k] == b[k - |a|]; }
      }
    }
    if |a| > 0 {
      assert (a + b)[0] == a[0];
      assert (a + b)[1..] == a[1..] + b;
      assert PureStmts(a[1..]) by {
        forall k | 0 <= k < |a[1..]|
          ensures PureStmt(a[1..][k])
        {
          assert a[1..][k] == a[k + 1];
        }
      }
      var step := PureStep(a[0], sc, showNumber);
      if step.1.Normal? {
        BlockAppend(a[1..], b, sc, showNumber);
        var rest, second := PureBlock(a[1..], sc, showNumber), PureBlock(b, sc, showNumber);
        assert step.0 + rest.0 + second.0 == step.0 + (rest.0 + second.0);
      }
    } else {
      assert a + b == b;
      assert [] + PureBlock(b, sc, showNumber).0 == PureBlock(b, sc, showNumber).0;
    }
  }

  /**
   * A block of `print` statements whose expressions all succeed prints the
   * cleaned values in order and ends normally.
   */
  lemma {:induction false} PrintsInOrder(stmts: seq<Statement>, sc: Scope, showNumber: real -> string)
    requires forall k :: 0 <= k < |stmts| ==> stmts[k].Print? && PureExpr(stmts[k].expr)
    requires forall k :: 0 <= k < |stmts| ==> PureEval(stmts[k].expr, sc).Ok?
    ensures PureStmts(stmts)
    ensures var r := PureBlock(stmts, sc, showNumber);
      && r.1 == Normal && r.2 == None && |r.0| == |stmts|
      && forall k :: 0 <= k < |stmts| ==> r.0[k] == Clean(PureEval(stmts[k].expr, sc).value, showNumber)
  {
    if |stmts| > 0 {
      var rest := stmts[1..];
      assert forall k :: 0 <= k < |rest| ==> rest[k] == stmts[k + 1];
      PrintsInOrder(rest, sc, showNumber);
      var lines := PureBlock(stmts, sc, showNumber).0;
      assert lines == [Clean(PureEval(stmts[0].expr, sc).value, showNumber)] + PureBlock(rest, sc, showNumber).0;
    }
  }

  /** A block without `print` statements, at any depth, prints nothing. */
  lemma {:induction false} SilentBlock(stmts: seq<Statement>, sc: Scope, showNumber: real -> string)
    requires PureStmts(stmts) && forall k :: 0 <= k < |stmts| ==> Silent(stmts[k])
    ensures PureBlock(stmts, sc, showNumber).0 == []
  {
    if |stmts| > 0 {
      SilentStep(stmts[0], sc, showNumber);
      var rest := stmts[1..];
      assert forall k :: 0 <= k < |rest| ==> rest[k] == stmts[k + 1];
      SilentBlock(rest, sc, showNumber);
    }
  }

  /** A statement with no `print` in it, including in its branches. */
  predicate Silent(s: Statement)
  {
    match s
      case Print(_) => false
      case If(_, thenBranch, elseBranch) => Silent(thenBranch) && (elseBranch.Some? ==> Silent(elseBranch.value))
      case _ => true
  }

  lemma {:induction false} SilentStep(s: Statement, sc: Scope, showNumber: real -> string)
    requires PureStmt(s) && Silent(s)
    ensures PureStep(s, sc, showNumber).0 == []
  {
    match s
    case If(condition, thenBranch, elseBranch) =>
      SilentStep(thenBranch, sc, showNumber);
      if elseBranch.Some? {
        SilentStep(elseBranch.value, sc, showNumber);
      }
    case _ =>
  }
}
