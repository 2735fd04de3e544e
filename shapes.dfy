/**
 * The shapes of syntax trees the parser can build (src/Parser.java): operator
 * precedence and associativity, and the 255-argument and 255-parameter caps.
 * These are the parser's output invariants. They live in a module of their own
 * because the parser's proofs only need them as facts, not unfolded.
 */
module Shapes {
  import opened Tokens
  import opened Ast

  /** The most arguments a call, or parameters a function, may have. */
  const MaxArity := 255

  /** The operator kinds of each binary level, lowest precedence first. */
  const EqualityKinds: set<TokenType> := {NotEqual, EqualEqual}
  const ComparisonKinds: set<TokenType> := {More, MoreEqual, Less, LessEqual}
  const TermKinds: set<TokenType> := {Plus, Subtract}
  const FactorKinds: set<TokenType> := {Divide, Multiply}

  /** The precedence of a binary or logical operator kind. */
  function OpLevel(kind: TokenType): nat
  {
    if kind == LogicOr then 2
    else if kind == LogicAnd then 3
    else if kind in EqualityKinds then 4
    else if kind in ComparisonKinds then 5
    else if kind in TermKinds then 6
    else 7
  }

  /**
   * How tightly the node at the top of `e` binds: 0 assignment, 1 `?:`,
   * 2 `or`, 3 `and`, 4 equality, 5 comparison, 6 `+ -`, 7 `* /`, 8 unary,
   * 9 calls, properties and primaries.
   */
  function Level(e: Expression): nat
  {
    match e
    case Assign(_, _, _) => 0
    case Set(_, _, _) => 0
    case Ternary(_, _, _, _) => 1
    case Logical(_, op, _) => OpLevel(op.kind)
    case Binary(_, op, _) => OpLevel(op.kind)
    case Unary(_, _) => 8
    case _ => 9
  }

  /**
   * `e` is a tree the grammar can build. Every operand of an operator binds
   * at least as tightly as the operator's level requires, and the right
   * operand of a binary or logical node binds strictly tighter than the node.
   * So chains of one level lean left. Calls take at most 255 arguments.
   */
  predicate Shaped(e: Expression)
    decreases e
  {
    match e
    case Assign(_, _, value) => Level(value) >= 1 && Shaped(value)
    case Set(obj, _, value) => Level(obj) == 9 && Shaped(obj) && Level(value) >= 1 && Shaped(value)
    case Ternary(cond, op, thenBranch, elseBranch) =>
      && op.kind == TernaryOp
      && Level(cond) >= 1 && Shaped(cond)
      && Level(thenBranch) >= 2 && Shaped(thenBranch)
      && Level(elseBranch) >= 2 && Shaped(elseBranch)
    case Logical(lhs, op, rhs) =>
      && op.kind in {LogicOr, LogicAnd}
      && Level(lhs) >= Level(e) && Shaped(lhs)
      && Level(rhs) > Level(e) && Shaped(rhs)
    case Binary(lhs, op, rhs) =>
      && op.kind in EqualityKinds + ComparisonKinds + TermKinds + FactorKinds
      && Level(lhs) >= Level(e) && Shaped(lhs)
      && Level(rhs) > Level(e) && Shaped(rhs)
    case Unary(op, operand) => op.kind in {LogicNot, Subtract} && Level(operand) >= 8 && Shaped(operand)
    case Call(callee, _, args) =>
      && Level(callee) == 9 && Shaped(callee)
      && |args| <= MaxArity
      && forall i :: 0 <= i < |args| ==> Shaped(args[i])
    case Get(obj, _) => Level(obj) == 9 && Shaped(obj)
    case Grouping(inner) => Shaped(inner)
    case _ => true
  }

  /** Every expression inside `s` is shaped, and every function takes at most 255 parameters. */
  predicate ShapedStmt(s: Statement)
    decreases s
  {
    match s
    case Block(stmts) => forall i :: 0 <= i < |stmts| ==> ShapedStmt(stmts[i])
    case Expr(e) => Shaped(e)
    case Print(e) => Shaped(e)
    case VarDeclare(_, initializer) => initializer.Some? ==> Shaped(initializer.value)
    case If(c, thenBranch, elseBranch) =>
      Shaped(c) && ShapedStmt(thenBranch) && (elseBranch.Some? ==> ShapedStmt(elseBranch.value))
    case While(c, body) => Shaped(c) && ShapedStmt(body)
    case FuncPrototype(decl) => ShapedFunc(decl)
    case Return(_, value) => value.Some? ==> Shaped(value.value)
    case ClassDeclare(_, superClass, methods) =>
      && (superClass.Some? ==> Shaped(superClass.value))
      && forall i :: 0 <= i < |methods| ==> ShapedFunc(methods[i])
    case Missing => true
  }

  predicate ShapedFunc(decl: FuncDecl)
    decreases decl
  {
    |decl.params| <= MaxArity && forall i :: 0 <= i < |decl.body| ==> ShapedStmt(decl.body[i])
  }
}
