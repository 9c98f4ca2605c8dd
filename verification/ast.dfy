/** The syntax tree the parser builds and the evaluator reduces. */
module Ast {
  import opened Tokens

  datatype Node =
    | Literal(value: int)
    | PrefixExpression(op: Op, right: Node)
    | BinaryExpression(left: Node, op: Op, right: Node)
}
