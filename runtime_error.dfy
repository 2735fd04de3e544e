/** The interpreter's runtime error: a message and the place it points at. */
module RuntimeErrors {
  import opened Tokens
  import opened Ast

  datatype Origin =
    | AtToken(token: Token)
    | AtExpression(expr: Expression)
    | AtStatement(stmt: Statement)

  datatype RuntimeError = RuntimeError(origin: Origin, message: string)
}
