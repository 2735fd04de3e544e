/**
 * The tree-walking evaluator (src/Interpreter.java, and the `call` methods
 * of src/Tan.java). It runs statements over the active environment, which it
 * swaps while a block runs; it evaluates expressions, looking local
 * variables up at the distance the resolver stored for them. Runtime errors
 * are caught and recorded by the innermost block that runs the failing
 * statement; a `return` travels up to the function call that is running it.
 *
 * Non-termination is bounded by `fuel`: every call spends one unit and a
 * `while` loop may run at most `fuel` iterations; running out is the fault
 * `OutOfFuel`.
 */
module Interpreters {
  import opened Wrappers
  import opened Tokens
  import opened Ast
  import opened RuntimeErrors
  import opened Environments
  import opened Tan
  import opened Operators
  import opened Semantics

  /**
   * A class whose methods, along its whole superclass chain, close over
   * environments in `envs`.
   */
  ghost predicate ClassIn(c: TanClass, envs: set<Environment<Value>>)
  {
    c.Valid() && c.Closures() <= envs
  }

  /**
   * The class a declaration builds: the declared name, no superclass, and
   * one method per declared name closing over `closure`, taken from the
   * last declaration of that name; the one named `init` is the initializer.
   */
  ghost predicate DeclaredClass(k: TanClass, name: string, decls: seq<FuncDecl>, closure: Environment<Value>)
  {
    && k.identifier == name && k.superClass == null
    && k.methods.Keys == (set i | 0 <= i < |decls| :: decls[i].name.lexeme)
    && forall m :: m in k.methods ==>
         && k.methods[m].closure == closure
         && k.methods[m].isInitializer == (m == "init")
         && exists i :: 0 <= i < |decls| && decls[i] == k.methods[m].declaration && decls[i].name.lexeme == m
              && forall j :: i < j < |decls| ==> decls[j].name.lexeme != m
  }

  /** Every object a value points to is in the given sets. */
  ghost predicate ValueIn(v: Value, envs: set<Environment<Value>>, insts: set<TanInstance>)
  {
    match v
      case Fun(f) => f.closure in envs
      case Klass(c) => ClassIn(c, envs)
      case Instance(i) => i in insts
      case _ => true
  }

  ghost predicate MapIn(m: map<string, Value>, envs: set<Environment<Value>>, insts: set<TanInstance>)
  {
    forall name :: name in m ==> ValueIn(m[name], envs, insts)
  }

  lemma ValueInMono(v: Value, envs: set<Environment<Value>>, insts: set<TanInstance>,
                    envs': set<Environment<Value>>, insts': set<TanInstance>)
    requires envs <= envs' && insts <= insts' && ValueIn(v, envs, insts)
    ensures ValueIn(v, envs', insts')
  {
  }

  lemma ValuesInMono(values: seq<Value>, envs: set<Environment<Value>>, insts: set<TanInstance>,
                     envs': set<Environment<Value>>, insts': set<TanInstance>)
    requires envs <= envs' && insts <= insts'
    requires forall k :: 0 <= k < |values| ==> ValueIn(values[k], envs, insts)
    ensures forall k :: 0 <= k < |values| ==> ValueIn(values[k], envs', insts')
  {
    forall k | 0 <= k < |values|
      ensures ValueIn(values[k], envs', insts')
    {
      ValueInMono(values[k], envs, insts, envs', insts');
    }
  }

  lemma MapInMono(m: map<string, Value>, envs: set<Environment<Value>>, insts: set<TanInstance>,
                  envs': set<Environment<Value>>, insts': set<TanInstance>)
    requires envs <= envs' && insts <= insts' && MapIn(m, envs, insts)
    ensures MapIn(m, envs', insts')
  {
    forall name | name in m {
      ValueInMono(m[name], envs, insts, envs', insts');
    }
  }

  /** The method a class finds for a name is one of its chain's, so it closes over `envs` too. */
  lemma FoundMethodIn(c: TanClass, envs: set<Environment<Value>>, name: string)
    requires ClassIn(c, envs) && c.FindMethod(name).Some?
    ensures c.FindMethod(name).value.closure in envs
    ensures c.FindMethod(name).value.closure.Valid()
  {
    c.FoundInClosures(name);
  }

  /** Every frame seen from an environment whose chain maps hold values in the sets holds them too. */
  lemma {:induction false} FramesIn(e: Environment<Value>, envs: set<Environment<Value>>, insts: set<TanInstance>)
    requires e.Valid()
    requires forall x :: x in e.Repr() ==> MapIn(x.variable, envs, insts)
    ensures forall k :: 0 <= k < |e.Frames()| ==> MapIn(e.Frames()[k], envs, insts)
    decreases e.depth
  {
    if e.prevEnv != null {
      FramesIn(e.prevEnv, envs, insts);
      assert forall k :: 1 <= k < |e.Frames()| ==> e.Frames()[k] == e.prevEnv.Frames()[k - 1];
    }
  }

  /** A value found in frames that hold values in the sets is in the sets. */
  lemma FindIn(frames: Frames<Value>, name: string, envs: set<Environment<Value>>, insts: set<TanInstance>)
    requires forall k :: 0 <= k < |frames| ==> MapIn(frames[k], envs, insts)
    ensures Find(frames, name).Some? ==> ValueIn(Find(frames, name).value, envs, insts)
  {
    match Nearest(frames, name)
    case None =>
    case Some(k) => assert MapIn(frames[k], envs, insts);
  }

  class Interpreter {
    const globals: Environment<Value>
    /** the active environment */
    var env: Environment<Value>
    /** the resolver's distances, keyed by the id of the variable, assignment or `this` node */
    var localVar: map<nat, nat>
    /** the lines `print` has written */
    var out: seq<string>
    /** the runtime errors the blocks have caught */
    var reported: seq<RuntimeError>
    /** the host's rendering of a number (Java's `Double.toString`) */
    const showNumber: real -> string
    /** every environment the interpreter has made, and every instance */
    ghost var Envs: set<Environment<Value>>
    ghost var Insts: set<TanInstance>

    /**
     * The closed world: the active and global environments and everything
     * reachable from a variable or a field are tracked, and every tracked
     * environment chain is well formed.
     */
    ghost predicate Valid()
      reads this`env, this`Envs, this`Insts, Envs, Insts
    {
      Tracked() && env in Envs
    }

    /** The closed world without the active environment. */
    ghost predicate Tracked()
      reads this`Envs, this`Insts, Envs, Insts
    {
      && globals in Envs
      && (forall e :: e in Envs ==> e.Valid() && e.Repr() <= Envs && MapIn(e.variable, Envs, Insts))
      && (forall i :: i in Insts ==> ClassIn(i.klass, Envs) && MapIn(i.fields, Envs, Insts))
    }

    /** What every step keeps: the tracked sets grow, the active environment and the resolver's map stay, output only grows. */
    twostate predicate Preserved()
      reads this
    {
      Grown() && env == old(env)
    }

    /** The tracked sets grow by fresh objects only, the resolver's map stays, and output only grows. */
    twostate predicate Grown()
      reads this
    {
      && old(Envs) <= Envs && old(Insts) <= Insts
      && (forall e :: e in Envs ==> e in old(Envs) || fresh(e))
      && (forall i :: i in Insts ==> i in old(Insts) || fresh(i))
      && localVar == old(localVar)
      && old(out) <= out && old(reported) <= reported
    }

    /** What a side-effect-free expression reads when `at` is the active environment. */
    ghost function ScopeAt(at: Environment<Value>): Scope
      requires at.Valid() && globals.Valid()
      reads this`localVar, at.Repr(), globals.Repr()
    {
      Scope(at.Frames(), globals.Frames(), localVar)
    }

    /** A scope is unchanged when none of the environments it shows and not the resolver's map changed. */
    twostate lemma ScopeKept(at: Environment<Value>)
      requires at.Valid() && globals.Valid()
      requires unchanged(at.Repr(), globals.Repr()) && localVar == old(localVar)
      ensures ScopeAt(at) == old(ScopeAt(at))
    {
    }

    /** The value a variable read yields in the current state. */
    ghost function Lookup(name: Token, id: nat): Outcome
      requires Valid()
      reads this, Envs, Insts
    {
      LookupIn(ScopeAt(env), name, id)
    }

    /**
     * A step that changed nothing a side-effect-free expression reads, that
     * wrote exactly `lines` and that reported no error.
     */
    twostate predicate Wrote(lines: seq<string>)
      requires old(Valid()) && Valid()
      reads this, Envs, Insts
    {
      ScopeAt(env) == old(ScopeAt(env)) && out == old(out) + lines && reported == old(reported)
    }

    constructor (showNumber: real -> string)
      ensures Valid()
      ensures env == globals && globals.Frames() == [map[]]
      ensures localVar == map[] && out == [] && reported == []
      ensures this.showNumber == showNumber
    {
      var global := new Environment<Value>.Global();
      globals := global;
      env := global;
      this.showNumber := showNumber;
      localVar := map[];
      out := [];
      reported := [];
      Envs := {global};
      Insts := {};
    }

    /** Records the resolver's distance for one node. */
    method StoreResolve(id: nat, depth: nat)
      modifies this`localVar
      ensures localVar == old(localVar)[id := depth]
    {
      localVar := localVar[id := depth];
    }

    /* ---------------- state helpers ---------------- */

    /** `Tan.err.report` for a runtime error: the error is added to the reported list. */
    method Report(error: RuntimeError)
      modifies this`reported
      ensures reported == old(reported) + [error]
    {
      reported := reported + [error];
    }

    /** A fresh local environment inside `enclosing`, now tracked. */
    method NewLocal(enclosing: Environment<Value>) returns (local: Environment<Value>)
      requires Valid() && enclosing in Envs
      modifies this`Envs
      ensures Valid() && Envs == old(Envs) + {local}
      ensures fresh(local) && local.prevEnv == enclosing && local.variable == map[]
      ensures local.Frames() == [map[]] + enclosing.Frames()
    {
      local := new Environment<Value>.Local(enclosing);
      Envs := Envs + {local};
      forall e | e in Envs
        ensures MapIn(e.variable, Envs, Insts)
      {
        if e != local {
          MapInMono(e.variable, old(Envs), Insts, Envs, Insts);
        }
      }
      forall i | i in Insts
        ensures MapIn(i.fields, Envs, Insts)
      {
        MapInMono(i.fields, old(Envs), Insts, Envs, Insts);
      }
    }

    /** Starts tracking an environment made elsewhere whose parent is tracked. */
    method Adopt(e: Environment<Value>)
      requires Valid() && e.Valid() && e.prevEnv != null && e.prevEnv in Envs
      requires MapIn(e.variable, Envs, Insts)
      modifies this`Envs
      ensures Valid() && Envs == old(Envs) + {e}
    {
      Envs := Envs + {e};
      MapInMono(e.variable, old(Envs), Insts, Envs, Insts);
      forall x | x in Envs
        ensures MapIn(x.variable, Envs, Insts)
      {
        if x != e {
          MapInMono(x.variable, old(Envs), Insts, Envs, Insts);
        }
      }
      forall i | i in Insts
        ensures MapIn(i.fields, Envs, Insts)
      {
        MapInMono(i.fields, old(Envs), Insts, Envs, Insts);
      }
    }

    /** A fresh instance of a tracked class, now tracked. */
    method NewInstance(klass: TanClass) returns (instance: TanInstance)
      requires Valid() && ClassIn(klass, Envs)
      modifies this`Insts
      ensures Valid() && Insts == old(Insts) + {instance}
      ensures fresh(instance) && instance.klass == klass && instance.fields == map[]
    {
      instance := new TanInstance(klass);
      Insts := Insts + {instance};
      forall e | e in Envs
        ensures MapIn(e.variable, Envs, Insts)
      {
        MapInMono(e.variable, Envs, old(Insts), Envs, Insts);
      }
      forall i | i in Insts
        ensures MapIn(i.fields, Envs, Insts)
      {
        if i != instance {
          MapInMono(i.fields, Envs, old(Insts), Envs, Insts);
        }
      }
    }

    /** `defineVar` on a tracked environment. */
    method Define(target: Environment<Value>, name: string, v: Value)
      requires Valid() && target in Envs && ValueIn(v, Envs, Insts)
      modifies target
      ensures Valid()
      ensures target.variable == old(target.variable)[name := v]
      ensures target.Frames() == old(target.Frames())[0 := target.variable]
    {
      target.DefineVar(name, v);
    }

    /** `assign` on a tracked environment chain. */
    method AssignChain(target: Environment<Value>, name: Token, v: Value) returns (err: Option<RuntimeError>)
      requires Valid() && target in Envs && ValueIn(v, Envs, Insts)
      modifies target.Repr()
      ensures Valid()
      ensures if Find(old(target.Frames()), name.lexeme).Some? then
          err == None && target.Frames() == AssignNearest(old(target.Frames()), name.lexeme, v)
        else
          && err == Some(RuntimeError(AtToken(name), "assignment to undefined variable: " + name.lexeme))
          && target.Frames() == old(target.Frames())
    {
      err := target.Assign(name, v);
      assert forall e :: e in Envs ==> MapIn(e.variable, Envs, Insts) by {
        forall e | e in Envs
          ensures MapIn(e.variable, Envs, Insts)
        {
          assert MapIn(old(e.variable), Envs, Insts);
        }
      }
    }

    /** `assignAt` on the active environment. */
    method AssignLocal(distance: nat, name: Token, v: Value)
      requires Valid() && ValueIn(v, Envs, Insts)
      modifies env.Repr()
      ensures Valid()
      ensures var frames := old(env.Frames());
        if distance < |frames| then env.Frames() == frames[distance := frames[distance][name.lexeme := v]]
        else env.Frames() == frames
    {
      env.AssignAt(distance, name, v);
      assert forall e :: e in Envs ==> MapIn(e.variable, Envs, Insts) by {
        forall e | e in Envs
          ensures MapIn(e.variable, Envs, Insts)
        {
          assert MapIn(old(e.variable), Envs, Insts);
        }
      }
    }

    /** `set` on a tracked instance. */
    method SetField(instance: TanInstance, name: Token, v: Value)
      requires Valid() && instance in Insts && ValueIn(v, Envs, Insts)
      modifies instance`fields
      ensures Valid()
      ensures instance.fields == old(instance.fields)[name.lexeme := v]
    {
      instance.Set(name, v);
    }

    /* ---------------- variables ---------------- */

    /**
     * A resolved variable is read at its distance from the active
     * environment, in that one frame (nil when the frame lacks it); an
     * unresolved one is searched for from the global environment.
     */
    method LookUpVariable(name: Token, id: nat) returns (r: Outcome)
      requires Valid()
      ensures r == Lookup(name, id)
      ensures r.Ok? ==> ValueIn(r.value, Envs, Insts)
    {
      if id in localVar {
        var found := env.GetAt(localVar[id], name.lexeme);
        FramesIn(env, Envs, Insts);
        r := Ok(if found.Some? then found.value else Nil);
      } else {
        var found := globals.GetValue(name);
        FramesIn(globals, Envs, Insts);
        FindIn(globals.Frames(), name.lexeme, Envs, Insts);
        r := if found.Success? then Ok(found.value) else Fail(Thrown(found.error));
      }
    }

    /** The `this` a closure binds in its own frame, if any. */
    ghost function ThisOf(closure: Environment<Value>): Option<Value>
      reads closure
    {
      if "this" in closure.variable then Some(closure.variable["this"]) else None
    }

    /* ---------------- expressions ---------------- */

    /** Evaluates one expression in the active environment. */
    method Evaluate(e: Expression, fuel: nat) returns (r: Outcome)
      requires Valid()
      modifies this, Envs, Insts
      ensures Valid() && Preserved()
      ensures r.Ok? ==> ValueIn(r.value, Envs, Insts)
      ensures e.Literal? ==> r == Ok(LiteralToValue(e.lit))
      ensures e.VarAccess? ==> r == old(Lookup(e.name, e.id))
      ensures e.This? ==> r == Fail(Thrown(RuntimeError(AtExpression(e), "Expression error")))
      ensures PureExpr(e) ==> r == old(PureEval(e, ScopeAt(env))) && Wrote([])
      decreases fuel, 0, e, 5
    {
      match e
      case Literal(lit) =>
        r := Ok(LiteralToValue(lit));
      case Grouping(inner) =>
        r := Evaluate(inner, fuel);
      case VarAccess(id, name) =>
        r := LookUpVariable(name, id);
      case This(_, _) =>
        r := Fail(Thrown(RuntimeError(AtExpression(e), "Expression error")));
      case Unary(_, _) =>
        r := EvalOperator(e, fuel);
      case Binary(_, _, _) =>
        r := EvalOperator(e, fuel);
      case Logical(_, _, _) =>
        r := EvalOperator(e, fuel);
      case Ternary(_, _, _, _) =>
        r := EvalOperator(e, fuel);
      case _ =>
        r := EvalEffect(e, fuel);
    }

    /** An operator expression: unary, binary, logical or ternary. */
    method EvalOperator(e: Expression, fuel: nat) returns (r: Outcome)
      requires (e.Unary? || e.Binary? || e.Logical? || e.Ternary?) && Valid()
      modifies this, Envs, Insts
      ensures Valid() && Preserved()
      ensures r.Ok? ==> ValueIn(r.value, Envs, Insts)
      ensures PureExpr(e) ==> r == old(PureEval(e, ScopeAt(env))) && Wrote([])
      decreases fuel, 0, e, 4
    {
      match e
      case Unary(_, _) =>
        ghost var operand;
        r, operand := EvalUnary(e, fuel);
      case Binary(_, _, _) =>
        ghost var lhs, rhs;
        r, lhs, rhs := EvalBinary(e, fuel);
      case Logical(_, _, _) =>
        ghost var lhs, rhs;
        r, lhs, rhs := EvalLogical(e, fuel);
      case Ternary(_, _, _, _) =>
        ghost var second, first, cond;
        r, second, first, cond := EvalTernary(e, fuel);
    }

    /** An expression that writes, allocates or calls: an assignment, a property access or a call. */
    method EvalEffect(e: Expression, fuel: nat) returns (r: Outcome)
      requires (e.Assign? || e.Set? || e.Get? || e.Call?) && Valid()
      modifies this, Envs, Insts
      ensures Valid() && Preserved()
      ensures r.Ok? ==> ValueIn(r.value, Envs, Insts)
      decreases fuel, 0, e, 4
    {
      match e
      case Assign(_, _, _) =>
        ghost var value, before;
        r, value, before := EvalAssign(e, fuel);
      case Set(_, _, _) =>
        ghost var obj, value, before;
        r, obj, value, before := EvalSet(e, fuel);
      case Get(_, _) =>
        ghost var obj;
        r, obj := EvalGet(e, fuel);
      case Call(_, _, _) =>
        ghost var callee, args, argFault;
        r, callee, args, argFault := EvalCall(e, fuel);
    }

    /** `!` and unary `-`: the operand first, then the operator rule. */
    method EvalUnary(e: Expression, fuel: nat) returns (r: Outcome, ghost operand: Outcome)
      requires e.Unary? && Valid()
      modifies this, Envs, Insts
      ensures Valid() && Preserved()
      ensures r.Ok? ==> ValueIn(r.value, Envs, Insts)
      ensures r == if operand.Fail? then operand else UnaryOp(e.operator, operand.value)
      ensures PureExpr(e.operand) ==> operand == old(PureEval(e.operand, ScopeAt(env))) && Wrote([])
      ensures PureExpr(e) ==> r == old(PureEval(e, ScopeAt(env)))
      decreases fuel, 0, e, 0
    {
      var v := Evaluate(e.operand, fuel);
      operand := v;
      if v.Fail? {
        return v, operand;
      }
      r := UnaryOp(e.operator, v.value);
    }

    /** A binary operator: the left operand, then the right, then the operator rule. */
    method EvalBinary(e: Expression, fuel: nat) returns (r: Outcome, ghost lhs: Outcome, ghost rhs: Outcome)
      requires e.Binary? && Valid()
      modifies this, Envs, Insts
      ensures Valid() && Preserved()
      ensures r.Ok? ==> ValueIn(r.value, Envs, Insts)
      ensures lhs.Fail? ==> r == lhs
      ensures lhs.Ok? && rhs.Fail? ==> r == rhs
      ensures lhs.Ok? && rhs.Ok? ==> r == BinaryOp(e.operator, lhs.value, rhs.value)
      ensures PureExpr(e.lhs) ==> lhs == old(PureEval(e.lhs, ScopeAt(env)))
      ensures PureExpr(e.lhs) && PureExpr(e.rhs) ==>
        (lhs.Ok? ==> rhs == old(PureEval(e.rhs, ScopeAt(env)))) && Wrote([])
      ensures PureExpr(e) ==> r == old(PureEval(e, ScopeAt(env)))
      decreases fuel, 0, e, 0
    {
      var left := Evaluate(e.lhs, fuel);
      lhs, rhs := left, left;
      if left.Fail? {
        return left, lhs, rhs;
      }
      var right := Evaluate(e.rhs, fuel);
      rhs := right;
      if right.Fail? {
        return right, lhs, rhs;
      }
      r := BinaryOp(e.operator, left.value, right.value);
    }

    /**
     * `and`/`or`: the left operand, and the right one only when the left
     * does not decide the result.
     */
    method EvalLogical(e: Expression, fuel: nat) returns (r: Outcome, ghost lhs: Outcome, ghost rhs: Option<Outcome>)
      requires e.Logical? && Valid()
      modifies this, Envs, Insts
      ensures Valid() && Preserved()
      ensures r.Ok? ==> ValueIn(r.value, Envs, Insts)
      ensures rhs.Some? <==> lhs.Ok? && ShortCircuit(e.operator, lhs.value).None?
      ensures rhs.None? ==> r == lhs
      ensures rhs.Some? ==> r == rhs.value
      ensures PureExpr(e.lhs) ==> lhs == old(PureEval(e.lhs, ScopeAt(env)))
      ensures PureExpr(e.lhs) && PureExpr(e.rhs) ==>
        (rhs.Some? ==> rhs.value == old(PureEval(e.rhs, ScopeAt(env)))) && Wrote([])
      ensures PureExpr(e) ==> r == old(PureEval(e, ScopeAt(env)))
      decreases fuel, 0, e, 0
    {
      var left := Evaluate(e.lhs, fuel);
      lhs, rhs := left, None;
      if left.Fail? {
        return left, lhs, rhs;
      }
      ShortCircuitCases(e.operator, left.value);
      if e.operator.kind == LogicAnd {
        if !Truthy(left.value) {
          return left, lhs, rhs;
        }
      } else {
        if Truthy(left.value) {
          return left, lhs, rhs;
        }
      }
      r := Evaluate(e.rhs, fuel);
      rhs := Some(r);
    }

    /**
     * `c ? a : b` evaluates `b`, then `a`, then `c`, always all three, and
     * yields the branch the condition's truthiness picks.
     */
    method EvalTernary(e: Expression, fuel: nat)
      returns (r: Outcome, ghost second: Outcome, ghost first: Outcome, ghost cond: Outcome)
      requires e.Ternary? && Valid()
      modifies this, Envs, Insts
      ensures Valid() && Preserved()
      ensures r.Ok? ==> ValueIn(r.value, Envs, Insts)
      ensures second.Fail? ==> r == second
      ensures second.Ok? && first.Fail? ==> r == first
      ensures second.Ok? && first.Ok? && cond.Fail? ==> r == cond
      ensures second.Ok? && first.Ok? && cond.Ok? ==> r == if Truthy(cond.value) then first else second
      ensures PureExpr(e.elseBranch) ==> second == old(PureEval(e.elseBranch, ScopeAt(env)))
      ensures PureExpr(e.elseBranch) && PureExpr(e.thenBranch) ==>
        second.Ok? ==> first == old(PureEval(e.thenBranch, ScopeAt(env)))
      ensures PureExpr(e) ==>
        (second.Ok? && first.Ok? ==> cond == old(PureEval(e.cond, ScopeAt(env)))) && Wrote([])
      ensures PureExpr(e) ==> r == old(PureEval(e, ScopeAt(env)))
      decreases fuel, 0, e, 0
    {
      var rhsSecond := Evaluate(e.elseBranch, fuel);
      second, first, cond := rhsSecond, rhsSecond, rhsSecond;
      if rhsSecond.Fail? {
        return rhsSecond, second, first, cond;
      }
      ghost var envs0, insts0 := Envs, Insts;
      var rhsFirst := Evaluate(e.thenBranch, fuel);
      first, cond := rhsFirst, rhsFirst;
      if rhsFirst.Fail? {
        return rhsFirst, second, first, cond;
      }
      ghost var envs1, insts1 := Envs, Insts;
      var lhs := Evaluate(e.cond, fuel);
      cond := lhs;
      if lhs.Fail? {
        return lhs, second, first, cond;
      }
      ValueInMono(rhsSecond.value, envs0, insts0, Envs, Insts);
      ValueInMono(rhsFirst.value, envs1, insts1, Envs, Insts);
      r := if Truthy(lhs.value) then rhsFirst else rhsSecond;
    }

    /**
     * `x = v`: the value first; then a resolved name is written at its
     * distance from the active environment and an unresolved one is assigned
     * from the global environment, which fails when no frame binds it.
     */
    method EvalAssign(e: Expression, fuel: nat) returns (r: Outcome, ghost value: Outcome, ghost before: Frames<Value>)
      requires e.Assign? && Valid()
      modifies this, Envs, Insts
      ensures Valid() && Preserved()
      ensures r.Ok? ==> ValueIn(r.value, Envs, Insts)
      ensures value.Fail? ==> r == value
      ensures value.Ok? && e.id in localVar ==>
        && r == value
        && var distance := localVar[e.id];
           if distance < |before| then env.Frames() == before[distance := before[distance][e.name.lexeme := value.value]]
           else env.Frames() == before
      ensures value.Ok? && e.id !in localVar ==>
        if Find(before, e.name.lexeme).Some? then
          r == value && globals.Frames() == AssignNearest(before, e.name.lexeme, value.value)
        else
          && r == Fail(Thrown(RuntimeError(AtToken(e.name), "assignment to undefined variable: " + e.name.lexeme)))
          && globals.Frames() == before
      ensures PureExpr(e.value) ==>
        && value == old(PureEval(e.value, ScopeAt(env)))
        && (value.Ok? ==> before == old(if e.id in localVar then env.Frames() else globals.Frames()))
        && out == old(out) && reported == old(reported)
      decreases fuel, 0, e, 0
    {
      var rhsResult := Evaluate(e.value, fuel);
      value, before := rhsResult, [];
      if rhsResult.Fail? {
        return rhsResult, value, before;
      }
      if e.id in localVar {
        before := env.Frames();
        AssignLocal(localVar[e.id], e.name, rhsResult.value);
        r := rhsResult;
      } else {
        before := globals.Frames();
        var err := AssignChain(globals, e.name, rhsResult.value);
        r := if err.Some? then Fail(Thrown(err.value)) else rhsResult;
      }
    }

    /**
     * `o.p = v`: the object first, which must be an instance (checked before
     * the value is evaluated); then the value, which is stored in the field
     * and is the result.
     */
    method EvalSet(e: Expression, fuel: nat)
      returns (r: Outcome, ghost obj: Outcome, ghost value: Outcome, ghost before: map<string, Value>)
      requires e.Set? && Valid()
      modifies this, Envs, Insts
      ensures Valid() && Preserved()
      ensures r.Ok? ==> ValueIn(r.value, Envs, Insts)
      ensures obj.Fail? ==> r == obj
      ensures obj.Ok? && !obj.value.Instance? ==>
        r == Fail(Thrown(RuntimeError(AtToken(e.property), "object is not an instance of class")))
      ensures obj.Ok? && obj.value.Instance? && value.Fail? ==> r == value
      ensures obj.Ok? && obj.value.Instance? && value.Ok? ==>
        r == value && obj.value.inst.fields == before[e.property.lexeme := value.value]
      ensures PureExpr(e.obj) ==> obj == old(PureEval(e.obj, ScopeAt(env)))
      ensures PureExpr(e.obj) && PureExpr(e.value) && obj.Ok? && obj.value.Instance? ==>
        value == old(PureEval(e.value, ScopeAt(env))) && out == old(out) && reported == old(reported)
      decreases fuel, 0, e, 0
    {
      var target := Evaluate(e.obj, fuel);
      obj, value, before := target, target, map[];
      if target.Fail? {
        return target, obj, value, before;
      }
      if !target.value.Instance? {
        r := Fail(Thrown(RuntimeError(AtToken(e.property), "object is not an instance of class")));
        return r, obj, value, before;
      }
      var instance := target.value.inst;
      var newValue := Evaluate(e.value, fuel);
      value := newValue;
      if newValue.Fail? {
        return newValue, obj, value, before;
      }
      before := instance.fields;
      SetField(instance, e.property, newValue.value);
      r := newValue;
    }

    /**
     * `o.p`: the object, which must be an instance; then its field, else its
     * class's method bound to it, else an "Undefined property" error.
     */
    method EvalGet(e: Expression, fuel: nat) returns (r: Outcome, ghost obj: Outcome)
      requires e.Get? && Valid()
      modifies this, Envs, Insts
      ensures Valid() && Preserved()
      ensures r.Ok? ==> ValueIn(r.value, Envs, Insts)
      ensures obj.Ok? ==> ValueIn(obj.value, Envs, Insts)
      ensures obj.Fail? ==> r == obj
      ensures obj.Ok? && !obj.value.Instance? ==>
        r == Fail(Thrown(RuntimeError(AtToken(e.property), "object is not an instance of class")))
      ensures obj.Ok? && obj.value.Instance? ==>
        var instance, field := obj.value.inst, e.property.lexeme;
        if field in instance.fields then r == Ok(instance.fields[field])
        else match instance.klass.FindMethod(field)
          case None => r == Fail(Thrown(RuntimeError(AtToken(e.property), "Undefined property: " + field)))
          case Some(m) =>
            && r.Ok? && r.value.Fun? && fresh(r.value.fn) && fresh(r.value.fn.closure)
            && r.value.fn.declaration == m.declaration && r.value.fn.isInitializer == m.isInitializer
            && r.value.fn.closure.prevEnv == m.closure
            && r.value.fn.closure.variable == map["this" := obj.value]
      ensures PureExpr(e.obj) ==> obj == old(PureEval(e.obj, ScopeAt(env))) && Wrote([])
      decreases fuel, 0, e, 0
    {
      var target := Evaluate(e.obj, fuel);
      obj := target;
      if target.Fail? {
        return target, obj;
      }
      if !target.value.Instance? {
        r := Fail(Thrown(RuntimeError(AtToken(e.property), "object is not an instance of class")));
        return r, obj;
      }
      r := GetProperty(target.value.inst, e.property);
    }

    /** `instance.get(name)` on a tracked instance, with a bound method's closure tracked. */
    method GetProperty(instance: TanInstance, name: Token) returns (r: Outcome)
      requires Valid() && instance in Insts
      modifies this`Envs
      ensures Valid() && old(Envs) <= Envs && forall e :: e in Envs ==> e in old(Envs) || fresh(e)
      ensures r.Ok? ==> ValueIn(r.value, Envs, Insts)
      ensures var field := name.lexeme;
        if field in instance.fields then r == Ok(instance.fields[field])
        else match instance.klass.FindMethod(field)
          case None => r == Fail(Thrown(RuntimeError(AtToken(name), "Undefined property: " + field)))
          case Some(m) =>
            && r.Ok? && r.value.Fun? && fresh(r.value.fn) && fresh(r.value.fn.closure)
            && r.value.fn.declaration == m.declaration && r.value.fn.isInitializer == m.isInitializer
            && r.value.fn.closure.prevEnv == m.closure
            && r.value.fn.closure.variable == map["this" := Instance(instance)]
    {
      var got := instance.Get(name);
      if got.Failure? {
        return Fail(Thrown(got.error));
      }
      if name.lexeme !in instance.fields {
        FoundMethodIn(instance.klass, Envs, name.lexeme);
        Adopt(got.value.fn.closure);
      }
      r := Ok(got.value);
    }

    /** A call's callee, then its arguments from left to right, stopping at the first that fails. */
    method EvalOperands(e: Expression, fuel: nat) returns (callee: Outcome, values: seq<Value>, fault: Option<Fault>)
      requires e.Call? && Valid()
      modifies this, Envs, Insts
      ensures Valid() && Preserved()
      ensures callee.Ok? ==> ValueIn(callee.value, Envs, Insts)
      ensures callee.Ok? && fault.None? ==> |values| == |e.args|
      ensures forall k :: 0 <= k < |values| ==> ValueIn(values[k], Envs, Insts)
      ensures PureExpr(e.callee) ==> callee == old(PureEval(e.callee, ScopeAt(env)))
      ensures PureExpr(e.callee) && AllPure(e.args) ==>
        (callee.Ok? ==> (values, fault) == old(PureArgs(e.args, ScopeAt(env)))) && Wrote([])
      decreases fuel, 0, e, 2
    {
      callee := Evaluate(e.callee, fuel);
      values, fault := [], None;
      if callee.Fail? {
        return;
      }
      ghost var envs0, insts0 := Envs, Insts;
      values, fault := EvalArgs(e, fuel);
      ValueInMono(callee.value, envs0, insts0, Envs, Insts);
    }

    /** A call's arguments from left to right, stopping at the first that fails. */
    method EvalArgs(e: Expression, fuel: nat) returns (values: seq<Value>, fault: Option<Fault>)
      requires e.Call? && Valid()
      modifies this, Envs, Insts
      ensures Valid() && Preserved()
      ensures fault.None? ==> |values| == |e.args|
      ensures forall k :: 0 <= k < |values| ==> ValueIn(values[k], Envs, Insts)
      ensures AllPure(e.args) ==> (values, fault) == old(PureArgs(e.args, ScopeAt(env))) && Wrote([])
      decreases fuel, 0, e, 1
    {
      values, fault := [], None;
      ghost var pure, sc0 := AllPure(e.args), ScopeAt(env);
      for i := 0 to |e.args|
        invariant |values| == i
        invariant Valid() && Preserved()
        invariant pure ==> ScopeAt(env) == sc0 && out == old(out) && reported == old(reported)
        invariant pure ==> forall k :: 0 <= k < i ==> PureEval(e.args[k], sc0) == Ok(values[k])
        invariant forall k :: 0 <= k < |values| ==> ValueIn(values[k], Envs, Insts)
      {
        var a := EvalArg(e, i, values, fuel, pure, sc0);
        if a.Fail? {
          if pure {
            ArgsExactly(e.args, sc0, values, Some(a.fault));
          }
          return values, Some(a.fault);
        }
        values := values + [a.value];
      }
      if pure {
        ArgsExactly(e.args, sc0, values, None);
      }
    }
    method EvalArg(e: Expression, i: nat, ghost values: seq<Value>, fuel: nat, ghost pure: bool, ghost sc0: Scope)
      returns (a: Outcome)
      requires e.Call? && i < |e.args| && Valid()
      requires forall k :: 0 <= k < |values| ==> ValueIn(values[k], Envs, Insts)
      requires pure ==> AllPure(e.args) && ScopeAt(env) == sc0
      modifies this, Envs, Insts
      ensures Valid() && Preserved()
      ensures a.Ok? ==> ValueIn(a.value, Envs, Insts)
      ensures forall k :: 0 <= k < |values| ==> ValueIn(values[k], Envs, Insts)
      ensures pure ==> a == PureEval(e.args[i], sc0) && ScopeAt(env) == sc0 && out == old(out) && reported == old(reported)
      decreases fuel, 0, e, 0
    {
      ghost var envs0, insts0 := Envs, Insts;
      a := Evaluate(e.args[i], fuel);
      ValuesInMono(values, envs0, insts0, Envs, Insts);
    }

    /**
     * A call: the callee, then the arguments from left to right; the callee
     * must be callable with that many arguments, and then it runs.
     */
    method EvalCall(e: Expression, fuel: nat)
      returns (r: Outcome, ghost callee: Outcome, ghost args: seq<Value>, ghost argFault: Option<Fault>)
      requires e.Call? && Valid()
      modifies this, Envs, Insts
      ensures Valid() && Preserved()
      ensures r.Ok? ==> ValueIn(r.value, Envs, Insts)
      ensures callee.Fail? ==> r == callee
      ensures callee.Ok? && argFault.Some? ==> r == Fail(argFault.value)
      ensures callee.Ok? && argFault.None? ==> |args| == |e.args| && CallSpec(callee.value, args, e.closeParen, fuel, r)
      ensures PureExpr(e.callee) ==> callee == old(PureEval(e.callee, ScopeAt(env)))
      ensures PureExpr(e.callee) && AllPure(e.args) && callee.Ok? ==> (args, argFault) == old(PureArgs(e.args, ScopeAt(env)))
      decreases fuel, 0, e, 3
    {
      var calleeValue, values, fault := EvalOperands(e, fuel);
      callee, args, argFault := calleeValue, values, fault;
      if calleeValue.Fail? {
        return calleeValue, callee, args, argFault;
      }
      if fault.Some? {
        return Fail(fault.value), callee, args, argFault;
      }
      var check := CheckCall(calleeValue.value, |values|, e.closeParen);
      if check.Some? {
        return Fail(Thrown(check.value)), callee, args, argFault;
      }
      if fuel == 0 {
        return Fail(OutOfFuel), callee, args, argFault;
      }
      r := Invoke(calleeValue.value, values, fuel - 1);
    }

    /**
     * What a call yields: the arity check's error, else running out of fuel,
     * else the callee's result, which is never a caught error; a class yields
     * an instance of itself.
     */
    ghost predicate CallSpec(callee: Value, args: seq<Value>, paren: Token, fuel: nat, r: Outcome)
    {
      && (callee.Klass? ==> callee.klass.Valid())
      && match CheckCall(callee, |args|, paren)
           case Some(err) => r == Fail(Thrown(err))
           case None =>
             && (fuel == 0 ==> r == Fail(OutOfFuel))
             && (fuel > 0 ==> InvokeSpec(callee, r))
    }

    /** The result of running a callable value that accepts the arguments. */
    ghost predicate InvokeSpec(callee: Value, r: Outcome)
    {
      && (r.Fail? ==> !r.fault.Thrown?)
      && (callee.Klass? && r.Ok? ==> r.value.Instance? && r.value.inst.klass == callee.klass)
    }

    /** `callee.call(args)` on a function or a class that accepts that many arguments. */
    method Invoke(callee: Value, args: seq<Value>, fuel: nat) returns (r: Outcome)
      requires Valid() && ValueIn(callee, Envs, Insts) && CallableArity(callee) == Some(|args|)
      requires forall k :: 0 <= k < |args| ==> ValueIn(args[k], Envs, Insts)
      modifies this, Envs, Insts
      ensures Valid() && Preserved()
      ensures r.Ok? ==> ValueIn(r.value, Envs, Insts)
      ensures InvokeSpec(callee, r)
      ensures callee.Fun? && PureStmts(callee.fn.declaration.body) ==>
        var p := old(PureCall(callee.fn, args));
        && r == p.1
        && out == old(out) + p.0
        && reported == old(reported) + (if p.2.Some? then [p.2.value] else [])
      decreases fuel, 3
    {
      if callee.Fun? {
        ghost var body, local, bindings;
        r, body, local, bindings := CallFunction(callee.fn, args, fuel);
      } else {
        ghost var instance;
        r, instance := CallClass(callee.klass, args, fuel);
      }
    }

    /* ---------------- calls ---------------- */

    /** Binds each parameter name to the argument at its position in a fresh frame. */
    method BindParameters(frame: Environment<Value>, params: seq<Token>, args: seq<Value>)
      requires Valid() && frame in Envs && frame.variable == map[] && |params| == |args|
      requires forall k :: 0 <= k < |args| ==> ValueIn(args[k], Envs, Insts)
      modifies frame
      ensures Valid()
      ensures frame.variable == ParamMap(params, args, |params|)
    {
      for idx := 0 to |params|
        invariant Valid()
        invariant frame.variable == ParamMap(params, args, idx)
      {
        Define(frame, params[idx].lexeme, args[idx]);
      }
    }

    /** A fresh tracked frame inside `enclosing` binding the parameters to the arguments. */
    method NewFrame(enclosing: Environment<Value>, params: seq<Token>, args: seq<Value>) returns (frame: Environment<Value>)
      requires Valid() && enclosing in Envs && |params| == |args|
      requires forall k :: 0 <= k < |args| ==> ValueIn(args[k], Envs, Insts)
      modifies this`Envs
      ensures Valid() && Envs == old(Envs) + {frame}
      ensures fresh(frame) && frame.prevEnv == enclosing
      ensures frame.variable == ParamMap(params, args, |params|)
      ensures frame.Frames() == [frame.variable] + enclosing.Frames()
      ensures ScopeAt(frame) == Scope([frame.variable] + old(enclosing.Frames()), old(globals.Frames()), localVar)
    {
      frame := NewLocal(enclosing);
      forall k | 0 <= k < |args|
        ensures ValueIn(args[k], Envs, Insts)
      {
        ValueInMono(args[k], old(Envs), Insts, Envs, Insts);
      }
      BindParameters(frame, params, args);
      ScopeKept(enclosing);
    }

    /**
     * What calling `f` on `args` prints, yields and reports when its body is
     * free of side effects: the body runs as a block over a frame binding
     * the parameters, enclosed by the closure's frames, and its completion
     * is normalised as `TanFunction.call` does.
     */
    ghost function PureCall(f: TanFunction, args: seq<Value>): (seq<string>, Outcome, Option<RuntimeError>)
      requires f.closure.Valid() && globals.Valid() && PureStmts(f.declaration.body)
      requires |args| == |f.declaration.params|
      reads this`localVar, f.closure.Repr(), globals.Repr()
    {
      var sc := Scope([ParamMap(f.declaration.params, args, |args|)] + f.closure.Frames(), globals.Frames(), localVar);
      var b := PureBlock(f.declaration.body, sc, showNumber);
      var r :=
        if b.1.Abrupt? then Fail(b.1.fault)
        else if f.isInitializer then Ok(if ThisOf(f.closure).Some? then ThisOf(f.closure).value else Nil)
        else Ok(if b.1.Returning? then b.1.value else Nil);
      (b.0, r, b.2)
    }

    /** A function with an empty body prints and reports nothing and yields nil, or its `this` for an initializer. */
    lemma EmptyBodyCall(f: TanFunction, args: seq<Value>)
      requires f.closure.Valid() && globals.Valid() && f.declaration.body == []
      requires |args| == |f.declaration.params|
      ensures PureStmts(f.declaration.body)
      ensures PureCall(f, args) == ([], Ok(if f.isInitializer && ThisOf(f.closure).Some? then ThisOf(f.closure).value else Nil), None)
    {
    }

    /**
     * `TanFunction.call`: a fresh frame enclosed by the closure binds the
     * parameters to the arguments by position, the body runs there as a
     * block, and the result is normalised: an initializer yields its
     * closure's `this`, any other function its `return` value or nil.
     */
    method CallFunction(f: TanFunction, args: seq<Value>, fuel: nat)
      returns (r: Outcome, ghost body: Completion, ghost local: Environment<Value>, ghost bindings: map<string, Value>)
      requires Valid() && f.closure in Envs && |args| == f.Arity()
      requires forall k :: 0 <= k < |args| ==> ValueIn(args[k], Envs, Insts)
      modifies this, Envs, Insts
      ensures Valid() && Preserved()
      ensures r.Ok? ==> ValueIn(r.value, Envs, Insts)
      ensures fresh(local) && local.prevEnv == f.closure
      ensures bindings == ParamMap(f.declaration.params, args, |args|)
      ensures body.Abrupt? ==> !body.fault.Thrown?
      ensures body.Abrupt? ==> r == Fail(body.fault)
      ensures f.isInitializer && !body.Abrupt? ==>
        r == Ok(if ThisOf(f.closure).Some? then ThisOf(f.closure).value else Nil)
      ensures !f.isInitializer && body.Returning? ==> r == Ok(body.value)
      ensures !f.isInitializer && body.Normal? ==> r == Ok(Nil)
      ensures PureStmts(f.declaration.body) ==>
        var p := old(PureCall(f, args));
        && r == p.1
        && out == old(out) + p.0
        && reported == old(reported) + (if p.2.Some? then [p.2.value] else [])
      decreases fuel, 1
    {
      ghost var pure := PureStmts(f.declaration.body);
      var frame := NewFrame(f.closure, f.declaration.params, args);
      local := frame;
      bindings := frame.variable;
      ghost var sc := ScopeAt(frame);
      ghost var ran, caught;
      var completion;
      completion, ran, caught := RunBlock(f.declaration.body, frame, fuel);
      body := completion;
      var thisBinding := f.closure.GetAt(0, "this");
      assert thisBinding == ThisOf(f.closure);
      if pure {
        assert frame.Frames()[1] == f.closure.variable;
        assert sc.frames[1] == old(f.closure.variable);
        assert thisBinding == old(ThisOf(f.closure));
      }
      if completion.Abrupt? {
        return Fail(completion.fault), body, local, bindings;
      }
      if f.isInitializer {
        r := Ok(if thisBinding.Some? then thisBinding.value else Nil);
      } else {
        r := Ok(if completion.Returning? then completion.value else Nil);
      }
    }

    /** The class's `init` bound to a new instance, with the bound closure tracked. */
    method BindInitializer(c: TanClass, instance: TanInstance) returns (bound: TanFunction)
      requires Valid() && ClassIn(c, Envs) && instance in Insts && c.FindMethod("init").Some?
      modifies this`Envs
      ensures Valid() && Envs == old(Envs) + {bound.closure} && fresh(bound.closure)
      ensures bound.Arity() == c.Arity()
    {
      var initializer := c.FindMethod("init").value;
      FoundMethodIn(c, Envs, "init");
      bound := initializer.Bind(instance);
      Adopt(bound.closure);
    }

    /**
     * A fresh tracked instance of the class, and the class's `init`, if it
     * has one, bound to it with the bound closure tracked.
     */
    method Instantiate(c: TanClass, args: seq<Value>) returns (instance: TanInstance, bound: TanFunction?)
      requires Valid() && ClassIn(c, Envs)
      requires forall k :: 0 <= k < |args| ==> ValueIn(args[k], Envs, Insts)
      modifies this`Envs, this`Insts
      ensures Valid() && Insts == old(Insts) + {instance} && fresh(instance)
      ensures instance.klass == c && instance.fields == map[]
      ensures bound != null <==> c.FindMethod("init").Some?
      ensures bound == null ==> Envs == old(Envs)
      ensures bound != null ==> Envs == old(Envs) + {bound.closure} && fresh(bound.closure) && bound.Arity() == c.Arity()
      ensures forall k :: 0 <= k < |args| ==> ValueIn(args[k], Envs, Insts)
    {
      instance := NewInstance(c);
      bound := null;
      if c.FindMethod("init").Some? {
        bound := BindInitializer(c, instance);
      }
      forall k | 0 <= k < |args|
        ensures ValueIn(args[k], Envs, Insts)
      {
        ValueInMono(args[k], old(Envs), old(Insts), Envs, Insts);
      }
    }

    /**
     * `TanClass.call`: a fresh instance, on which the class's `init`, if it
     * has one, runs bound to it; the instance is the result.
     */
    method CallClass(c: TanClass, args: seq<Value>, fuel: nat) returns (r: Outcome, ghost instance: TanInstance)
      requires Valid() && ClassIn(c, Envs) && |args| == c.Arity()
      requires forall k :: 0 <= k < |args| ==> ValueIn(args[k], Envs, Insts)
      modifies this, Envs, Insts
      ensures Valid() && Preserved()
      ensures fresh(instance) && instance.klass == c && instance in Insts
      ensures r.Ok? ==> r == Ok(Instance(instance))
      ensures r.Fail? ==> c.FindMethod("init").Some? && !r.fault.Thrown?
      ensures c.FindMethod("init").None? ==> r == Ok(Instance(instance)) && instance.fields == map[]
      decreases fuel, 2
    {
      var created, bound := Instantiate(c, args);
      instance := created;
      if bound != null {
        ghost var body, local, bindings;
        var result;
        label Bound:
        result, body, local, bindings := CallFunction(bound, args, fuel);
        forall e | e in Envs
          ensures e in old(Envs) || fresh(e)
        {
          if e !in old@Bound(Envs) {
            assert !old@Bound(allocated(e));
          }
        }
        forall i | i in Insts
          ensures i in old(Insts) || fresh(i)
        {
          if i !in old@Bound(Insts) {
            assert !old@Bound(allocated(i));
          }
        }
        if result.Fail? {
          return result, instance;
        }
      }
      r := Ok(Instance(created));
    }

    /* ---------------- statements ---------------- */

    /**
     * `runBlock`: runs the statements in `current`, reports the runtime error
     * that ends them early, and restores the active environment afterwards.
     */
    method RunBlock(stmts: seq<Statement>, current: Environment<Value>, fuel: nat)
      returns (c: Completion, ghost ran: nat, ghost caught: Option<RuntimeError>)
      requires Valid() && current in Envs
      modifies this, Envs, Insts
      ensures Valid() && Preserved()
      ensures c.Returning? ==> ValueIn(c.value, Envs, Insts)
      ensures c.Abrupt? ==> !c.fault.Thrown?
      ensures ran <= |stmts|
      ensures caught.Some? ==> c == Normal && 0 < ran && 0 < |reported| && reported[|reported| - 1] == caught.value
      ensures c == Normal && caught.None? ==> ran == |stmts|
      ensures PureStmts(stmts) ==>
        var b := old(PureBlock(stmts, ScopeAt(current), showNumber));
        && c == b.1 && caught == b.2
        && ScopeAt(current) == old(ScopeAt(current))
        && out == old(out) + b.0
        && reported == old(reported) + (if b.2.Some? then [b.2.value] else [])
      decreases fuel, 0, stmts, 2
    {
      var previous := env;
      env := current;
      ScopeKept(current);
      c, ran, caught := RunCaught(stmts, fuel);
      label Ran:
      env := previous;
      ScopeKept@Ran(current);
    }

    /** The `try`/`catch` of `runBlock`: a runtime error that ends the statements is reported. */
    method RunCaught(stmts: seq<Statement>, fuel: nat)
      returns (c: Completion, ghost ran: nat, ghost caught: Option<RuntimeError>)
      requires Valid()
      modifies this, Envs, Insts
      ensures Valid() && Preserved()
      ensures c.Returning? ==> ValueIn(c.value, Envs, Insts)
      ensures c.Abrupt? ==> !c.fault.Thrown?
      ensures ran <= |stmts|
      ensures caught.Some? ==> c == Normal && 0 < ran && 0 < |reported| && reported[|reported| - 1] == caught.value
      ensures c == Normal && caught.None? ==> ran == |stmts|
      ensures PureStmts(stmts) ==>
        var b := old(PureBlock(stmts, ScopeAt(env), showNumber));
        && c == b.1 && caught == b.2
        && ScopeAt(env) == old(ScopeAt(env))
        && out == old(out) + b.0
        && reported == old(reported) + (if b.2.Some? then [b.2.value] else [])
      decreases fuel, 0, stmts, 1
    {
      c, ran := RunStatements(stmts, fuel);
      label Ran:
      caught := None;
      if c.Abrupt? && c.fault.Thrown? {
        Report(c.fault.error);
        caught := Some(c.fault.error);
        c := Normal;
        ScopeKept@Ran(env);
      }
    }

    /**
     * The loop of `runBlock`: the statements in order in the active
     * environment, up to the first that does not complete normally.
     */
    method RunStatements(stmts: seq<Statement>, fuel: nat) returns (c: Completion, ghost ran: nat)
      requires Valid()
      modifies this, Envs, Insts
      ensures Valid() && Preserved()
      ensures c.Returning? ==> ValueIn(c.value, Envs, Insts)
      ensures ran <= |stmts|
      ensures c.Abrupt? && c.fault.Thrown? ==> 0 < ran
      ensures c == Normal ==> ran == |stmts|
      ensures PureStmts(stmts) ==>
        var b := old(PureBlock(stmts, ScopeAt(env), showNumber));
        && c == (if b.2.Some? then Abrupt(Thrown(b.2.value)) else b.1)
        && ScopeAt(env) == old(ScopeAt(env))
        && out == old(out) + b.0
        && reported == old(reported)
      decreases fuel, 0, stmts, 0
    {
      c := Normal;
      var i := 0;
      ghost var pure, sc0 := PureStmts(stmts), ScopeAt(env);
      ghost var whole := if pure then PureBlock(stmts, sc0, showNumber) else ([], Normal, None);
      ghost var written: seq<string> := [];
      if pure {
        BlockFromStart(stmts, sc0, showNumber);
      }
      while i < |stmts|
        invariant 0 <= i <= |stmts|
        invariant Valid() && Preserved()
        invariant pure ==> Tracking(stmts, i, sc0, old(out), written, whole) && reported == old(reported)
      {
        var sc;
        sc, written := RunListed(stmts, i, fuel, pure, sc0, old(out), written, whole);
        i := i + 1;
        if !sc.Normal? {
          c := sc;
          break;
        }
      }
      ran := i;
      if pure && c == Normal {
        assert written + [] == written;
      }
    }

    /**
     * What `RunStatements` knows before position `i` of a side-effect-free
     * block: the scope is `sc0`, the lines `written` followed `base`, and
     * `whole` is those lines followed by the rest of the block.
     */
    ghost predicate Tracking(stmts: seq<Statement>, i: nat, sc0: Scope, base: seq<string>, written: seq<string>,
                             whole: (seq<string>, Completion, Option<RuntimeError>))
      reads this, env.Repr(), globals.Repr()
    {
      && env.Valid() && globals.Valid() && PureStmts(stmts) && i <= |stmts|
      && ScopeAt(env) == sc0 && out == base + written
      && whole == After(written, BlockFrom(stmts, i, sc0, showNumber))
    }

    /**
     * The statement at position `i` of a block, as `RunStatements` needs to
     * know it: in a side-effect-free block it writes its step's lines and
     * leaves `whole` split as `PureBlock` splits it.
     */
    method RunListed(stmts: seq<Statement>, i: nat, fuel: nat, ghost pure: bool, ghost sc0: Scope, ghost base: seq<string>,
                     ghost written: seq<string>, ghost whole: (seq<string>, Completion, Option<RuntimeError>))
      returns (c: Completion, ghost next: seq<string>)
      requires Valid() && i < |stmts|
      requires pure ==> Tracking(stmts, i, sc0, base, written, whole)
      modifies this, Envs, Insts
      ensures Valid() && Preserved()
      ensures c.Returning? ==> ValueIn(c.value, Envs, Insts)
      ensures pure ==>
        && reported == old(reported)
        && c == PureStep(stmts[i], sc0, showNumber).1
        && (c.Normal? ==> Tracking(stmts, i + 1, sc0, base, next, whole))
        && (!c.Normal? ==>
              && ScopeAt(env) == sc0 && out == base + next && whole.0 == next
              && c == (if whole.2.Some? then Abrupt(Thrown(whole.2.value)) else whole.1))
      decreases fuel, 0, stmts[i], 2
    {
      c := RunStatement(stmts[i], fuel);
      next := written;
      if pure {
        var step := PureStep(stmts[i], sc0, showNumber);
        BlockFromStep(stmts, i, sc0, showNumber, written, whole);
        next := written + step.0;
        assert out == base + written + step.0;
      }
    }

    /** `run`: the program's statements as one block in the active environment. */
    method Run(stmts: seq<Statement>, fuel: nat) returns (c: Completion)
      requires Valid()
      modifies this, Envs, Insts
      ensures Valid() && Preserved()
      ensures c.Abrupt? ==> !c.fault.Thrown?
      ensures PureStmts(stmts) ==>
        var b := old(PureBlock(stmts, ScopeAt(env), showNumber));
        && c == b.1
        && ScopeAt(env) == old(ScopeAt(env))
        && out == old(out) + b.0
        && reported == old(reported) + (if b.2.Some? then [b.2.value] else [])
    {
      ghost var ran, caught;
      c, ran, caught := RunBlock(stmts, env, fuel);
    }

    /** Runs one statement. */
    method RunStatement(s: Statement, fuel: nat) returns (c: Completion)
      requires Valid()
      modifies this, Envs, Insts
      ensures Valid() && Preserved()
      ensures c.Returning? ==> ValueIn(c.value, Envs, Insts)
      ensures s.Expr? ==> c.Normal? || c.Abrupt?
      ensures s.Return? ==> !c.Normal?
      ensures s.Missing? ==> c == Abrupt(HostException("NullPointerException"))
      ensures PureStmt(s) ==> var step := old(PureStep(s, ScopeAt(env), showNumber)); c == step.1 && Wrote(step.0)
      decreases fuel, 0, s, 1
    {
      match s
      case Block(stmts) =>
        var local := NewLocal(env);
        ghost var ran, caught;
        c, ran, caught := RunBlock(stmts, local, fuel);
      case Expr(expr) =>
        var v := Evaluate(expr, fuel);
        c := if v.Fail? then Abrupt(v.fault) else Normal;
      case Print(_) =>
        ghost var v, before;
        c, v, before := ExecPrint(s, fuel);
      case VarDeclare(_, _) =>
        ghost var v, before;
        c, v, before := ExecVarDeclare(s, fuel);
      case If(_, _, _) =>
        ghost var cond, taken;
        c, cond, taken := ExecIf(s, fuel);
      case While(_, _) =>
        ghost var exit;
        c, exit := ExecWhile(s, fuel);
      case FuncPrototype(_) =>
        c := ExecFunction(s);
      case Return(_, _) =>
        ghost var v;
        c, v := ExecReturn(s, fuel);
      case ClassDeclare(_, _, _) =>
        ghost var k;
        c, k := ExecClass(s);
      case Missing =>
        c := Abrupt(HostException("NullPointerException"));
    }

    /** `print e`: writes the cleaned text of the value. */
    method ExecPrint(s: Statement, fuel: nat) returns (c: Completion, ghost v: Outcome, ghost before: seq<string>)
      requires s.Print? && Valid()
      modifies this, Envs, Insts
      ensures Valid() && Preserved()
      ensures v.Fail? ==> c == Abrupt(v.fault)
      ensures v.Ok? ==> c == Normal && out == before + [Clean(v.value, showNumber)]
      ensures PureExpr(s.expr) ==> v == old(PureEval(s.expr, ScopeAt(env))) && before == old(out)
      ensures PureStmt(s) ==> var step := old(PureStep(s, ScopeAt(env), showNumber)); c == step.1 && Wrote(step.0)
      decreases fuel, 0, s, 0
    {
      var result := Evaluate(s.expr, fuel);
      v, before := result, out;
      if result.Fail? {
        return Abrupt(result.fault), v, before;
      }
      out := out + [Clean(result.value, showNumber)];
      c := Normal;
    }

    /** `var x = e;` binds the value, or nil without an initializer, in the active environment. */
    method ExecVarDeclare(s: Statement, fuel: nat) returns (c: Completion, ghost v: Outcome, ghost before: map<string, Value>)
      requires s.VarDeclare? && Valid()
      modifies this, Envs, Insts
      ensures Valid() && Preserved()
      ensures s.initializer.None? ==> v == Ok(Nil) && before == old(env.variable)
      ensures v.Fail? ==> c == Abrupt(v.fault)
      ensures v.Ok? ==> c == Normal && env.variable == before[s.name.lexeme := v.value]
      ensures s.initializer.Some? && PureExpr(s.initializer.value) ==>
        && v == old(PureEval(s.initializer.value, ScopeAt(env)))
        && (v.Ok? ==> before == old(env.variable))
        && out == old(out) && reported == old(reported)
      decreases fuel, 0, s, 0
    {
      var result := Ok(Nil);
      if s.initializer.Some? {
        result := Evaluate(s.initializer.value, fuel);
        if result.Fail? {
          return Abrupt(result.fault), result, map[];
        }
      }
      v, before := result, env.variable;
      Define(env, s.name.lexeme, result.value);
      c := Normal;
    }

    /** `if`: the branch the condition's truthiness picks, or nothing. */
    method ExecIf(s: Statement, fuel: nat) returns (c: Completion, ghost cond: Outcome, ghost taken: Option<Statement>)
      requires s.If? && Valid()
      modifies this, Envs, Insts
      ensures Valid() && Preserved()
      ensures c.Returning? ==> ValueIn(c.value, Envs, Insts)
      ensures cond.Fail? ==> c == Abrupt(cond.fault) && taken.None?
      ensures cond.Ok? ==> taken == if Truthy(cond.value) then Some(s.thenBranch) else s.elseBranch
      ensures cond.Ok? && taken.None? ==> c == Normal
      ensures PureExpr(s.condition) ==> cond == old(PureEval(s.condition, ScopeAt(env)))
      ensures PureStmt(s) ==> var step := old(PureStep(s, ScopeAt(env), showNumber)); c == step.1 && Wrote(step.0)
      decreases fuel, 0, s, 0
    {
      var condition := Evaluate(s.condition, fuel);
      cond := condition;
      if condition.Fail? {
        return Abrupt(condition.fault), cond, None;
      }
      if Truthy(condition.value) {
        taken := Some(s.thenBranch);
        c := RunStatement(s.thenBranch, fuel);
      } else if s.elseBranch.Some? {
        taken := s.elseBranch;
        c := RunStatement(s.elseBranch.value, fuel);
      } else {
        taken := None;
        c := Normal;
      }
    }

    /**
     * `while`: runs the body as long as the condition is truthy; a return or
     * a fault leaves the loop. At most `fuel` iterations run.
     */
    method ExecWhile(s: Statement, fuel: nat) returns (c: Completion, ghost exit: Outcome)
      requires s.While? && Valid()
      modifies this, Envs, Insts
      ensures Valid() && Preserved()
      ensures c.Returning? ==> ValueIn(c.value, Envs, Insts)
      ensures c.Normal? ==> exit.Ok? && !Truthy(exit.value)
      ensures c.Normal? && PureExpr(s.condition) ==> exit == PureEval(s.condition, ScopeAt(env))
      ensures fuel == 0 ==> c == Abrupt(OutOfFuel) && Wrote([])
      ensures fuel > 0 && PureExpr(s.condition) ==>
        var first := old(PureEval(s.condition, ScopeAt(env)));
        && (first.Fail? ==> c == Abrupt(first.fault) && Wrote([]))
        && (first.Ok? && !Truthy(first.value) ==> c == Normal && Wrote([]))
      decreases fuel, 0, s, 0
    {
      var budget: nat := fuel;
      exit := Ok(Nil);
      ghost var firstTest := true;
      while true
        invariant Valid() && Preserved()
        invariant budget <= fuel && (firstTest ==> budget == fuel && Wrote([])) && (!firstTest ==> budget < fuel)
        invariant !firstTest && PureExpr(s.condition) ==>
          old(PureEval(s.condition, ScopeAt(env))).Ok? && Truthy(old(PureEval(s.condition, ScopeAt(env))).value)
        decreases budget
      {
        if budget == 0 {
          return Abrupt(OutOfFuel), exit;
        }
        budget := budget - 1;
        var condition := Evaluate(s.condition, fuel);
        exit := condition;
        if condition.Fail? {
          return Abrupt(condition.fault), exit;
        }
        if !Truthy(condition.value) {
          return Normal, exit;
        }
        firstTest := false;
        c := RunStatement(s.body, fuel);
        if !c.Normal? {
          return c, exit;
        }
      }
    }

    /** `return e;` leaves with the value, or nil without one. */
    method ExecReturn(s: Statement, fuel: nat) returns (c: Completion, ghost v: Outcome)
      requires s.Return? && Valid()
      modifies this, Envs, Insts
      ensures Valid() && Preserved()
      ensures c.Returning? ==> ValueIn(c.value, Envs, Insts)
      ensures s.returnVal.None? ==> v == Ok(Nil)
      ensures v.Fail? ==> c == Abrupt(v.fault)
      ensures v.Ok? ==> c == Returning(v.value)
      ensures s.returnVal.Some? && PureExpr(s.returnVal.value) ==> v == old(PureEval(s.returnVal.value, ScopeAt(env)))
      ensures PureStmt(s) ==> var step := old(PureStep(s, ScopeAt(env), showNumber)); c == step.1 && Wrote(step.0)
      decreases fuel, 0, s, 0
    {
      var val := Ok(Nil);
      if s.returnVal.Some? {
        val := Evaluate(s.returnVal.value, fuel);
        if val.Fail? {
          return Abrupt(val.fault), val;
        }
      }
      v := val;
      c := Returning(val.value);
    }

    /** A function declaration binds a new function closing over the active environment. */
    method ExecFunction(s: Statement) returns (c: Completion)
      requires s.FuncPrototype? && Valid()
      modifies env
      ensures Valid() && Preserved()
      ensures var name := s.decl.name.lexeme;
        && c == Normal && name in env.variable && env.variable[name].Fun?
        && env.variable == old(env.variable)[name := env.variable[name]]
        && var f := env.variable[name].fn;
        && fresh(f) && f.declaration == s.decl && f.closure == env && !f.isInitializer
    {
      var f := new TanFunction(s.decl, env, false);
      Define(env, s.decl.name.lexeme, Fun(f));
      c := Normal;
    }

    /**
     * One function per method declaration, closing over `closure`; a later
     * declaration of a name replaces an earlier one, and the one named
     * `init` is the initializer.
     */
    method BuildMethods(decls: seq<FuncDecl>, closure: Environment<Value>) returns (methods: map<string, TanFunction>)
      ensures methods.Keys == (set i | 0 <= i < |decls| :: decls[i].name.lexeme)
      ensures forall m :: m in methods ==>
        && fresh(methods[m]) && methods[m].closure == closure
        && methods[m].isInitializer == (m == "init")
        && exists i :: 0 <= i < |decls| && decls[i] == methods[m].declaration && decls[i].name.lexeme == m
             && forall j :: i < j < |decls| ==> decls[j].name.lexeme != m
    {
      methods := map[];
      for i := 0 to |decls|
        invariant methods.Keys == (set j | 0 <= j < i :: decls[j].name.lexeme)
        invariant forall m :: m in methods ==>
          && fresh(methods[m]) && methods[m].closure == closure
          && methods[m].isInitializer == (m == "init")
          && exists k :: 0 <= k < i && decls[k] == methods[m].declaration && decls[k].name.lexeme == m
               && forall j :: k < j < i ==> decls[j].name.lexeme != m
      {
        var declaration := decls[i];
        var f := new TanFunction(declaration, closure, declaration.name.lexeme == "init");
        methods := methods[declaration.name.lexeme := f];
      }
    }

    /** A new class without a superclass whose methods close over the active environment. */
    method NewClass(name: string, decls: seq<FuncDecl>) returns (k: TanClass)
      requires Valid()
      ensures ClassIn(k, Envs) && DeclaredClass(k, name, decls, env)
      ensures fresh(k) && forall m :: m in k.methods ==> fresh(k.methods[m])
    {
      var methods := BuildMethods(decls, env);
      k := new TanClass(name, null, methods);
      assert k.Closures() <= Envs by {
        assert forall f :: f in k.Closures() ==> f == env;
      }
    }

    /**
     * A class declaration binds the name to nil, builds its method table
     * over the active environment, and assigns the new class to the name.
     */
    method ExecClass(s: Statement) returns (c: Completion, ghost k: TanClass)
      requires s.ClassDeclare? && Valid()
      modifies env.Repr()
      ensures Valid() && Preserved()
      ensures c == Normal
      ensures fresh(k) && DeclaredClass(k, s.name.lexeme, s.methods, env)
      ensures env.Frames() == old(env.Frames())[0 := old(env.variable)[s.name.lexeme := Klass(k)]]
    {
      var name := s.name.lexeme;
      Define(env, name, Nil);
      var definition := NewClass(name, s.methods);
      var err := AssignChain(env, s.name, Klass(definition));
      AssignAfterDefine(old(env.Frames()), name, Nil, Klass(definition));
      c, k := Normal, definition;
    }
  }
}
