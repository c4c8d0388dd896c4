/** The expression trees of src/expr.rs that the parser builds and the
    tree-walking interpreter evaluates. */
module Ast {
  import opened Scanner

  datatype Literal = True | False | Nil | Number(number: real) | String(text: string)

  datatype Expr =
    | Binary(left: Expr, operator: Token, right: Expr)
    | Grouping(inner: Expr)
    | Literal(literal: Literal)
    | Unary(operator: Token, operand: Expr)
}
