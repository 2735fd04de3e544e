/**
 * The token stream the scanner hands to the parser. The scanner itself is not
 * part of this model; its output is an input sequence of these tokens.
 */
module Tokens {

  /** Token kinds, as the parser and the interpreter use them. */
  datatype TokenType =
    // single-character tokens
    | Plus | Subtract | Multiply | Divide | Equal
    // one or two character tokens
    | Increment | Decrement
    | More | MoreEqual | Less | LessEqual | EqualEqual | NotEqual
    | LogicNot | LogicAnd | LogicOr
    | LeftParen | RightParen | LeftBrace | RightBrace
    | Comma | Dot | SemiColon | Question | Colon
    // the synthetic operator token the parser builds for `?:`
    | TernaryOp
    // literal kinds
    | BooleanKind | NumberKind | StringKind | NilKind | ObjectKind
    // keywords
    | True | False | Identifier | Var | Print | If | Else | While | For
    | Function | Return | Class | This
    | EOF
    // "no kind": the parser's answer when nothing matched
    | NoneKind

  /** The literal a token carries; `LitNil` also stands for "no literal". */
  datatype LiteralValue =
    | LitNil
    | LitBool(b: bool)
    | LitNumber(n: real)
    | LitString(s: string)

  datatype Token = Token(kind: TokenType, lexeme: string, literal: LiteralValue, line: nat)

  /**
   * What the scanner guarantees about its output: it is never empty and it
   * ends with the only EOF token.
   */
  predicate WellFormedStream(tokens: seq<Token>)
  {
    && |tokens| > 0
    && tokens[|tokens| - 1].kind == EOF
    && forall i :: 0 <= i < |tokens| - 1 ==> tokens[i].kind != EOF
  }
}
