/**
 * The syntax tree the parser builds, the resolver annotates and the
 * interpreter runs. Nodes are immutable values. The resolver's side map is
 * keyed by node identity, so the three node kinds it records a distance for
 * (variable reads, assignments and `this`) carry an `id` that the parser hands
 * out fresh for every node it builds.
 */
module Ast {
  import opened Wrappers
  import opened Tokens

  datatype Expression =
    | Literal(lit: LiteralValue)
    | Grouping(inner: Expression)
    | Unary(operator: Token, operand: Expression)
    | Binary(lhs: Expression, operator: Token, rhs: Expression)
    /** `cond ? thenBranch : elseBranch`; `operator` is the synthetic `?:` token */
    | Ternary(cond: Expression, operator: Token, thenBranch: Expression, elseBranch: Expression)
    /** `and` / `or` */
    | Logical(lhs: Expression, operator: Token, rhs: Expression)
    | VarAccess(id: nat, name: Token)
    | Assign(id: nat, name: Token, value: Expression)
    | Call(callee: Expression, closeParen: Token, args: seq<Expression>)
    | Get(obj: Expression, property: Token)
    | Set(obj: Expression, property: Token, value: Expression)
    | This(id: nat, keyword: Token)

  datatype FuncDecl = FuncDecl(name: Token, params: seq<Token>, body: seq<Statement>)

  datatype Statement =
    | Block(stmts: seq<Statement>)
    /** an expression statement */
    | Expr(expr: Expression)
    | Print(expr: Expression)
    | VarDeclare(name: Token, initializer: Option<Expression>)
    | If(condition: Expression, thenBranch: Statement, elseBranch: Option<Statement>)
    | While(condition: Expression, body: Statement)
    | FuncPrototype(decl: FuncDecl)
    | Return(keyword: Token, returnVal: Option<Expression>)
    | ClassDeclare(name: Token, superClass: Option<Expression>, methods: seq<FuncDecl>)
    /** the null the parser leaves in a statement list where a declaration failed to parse */
    | Missing
}
