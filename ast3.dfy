/**
  The syntax tree the parser builds: the shape declared for it, with the
  `if` node the parser also constructs. Equality is structural, as Swift
  synthesises it for `Equatable`.
*/
module Ast3 {
  import opened Tokens

  /** A `prototype` record: a function name and its parameter names. */
  datatype Prototype = Prototype(name: string, params: seq<string>)

  /** A definition: a prototype and its body (`Definition` is another name
      for it). */
  datatype Function = Function(prototype: Prototype, body: Expr)

  /** An expression or a top-level item. Parameter lists and call arguments
      are sequences, kept in the order they were written. */
  datatype Expr =
    | Number(value: real)
    | Variable(name: string)
    | Binary(lhs: Expr, op: BinaryOperator, rhs: Expr)
    | If(cond: Expr, thenBranch: Expr, elseBranch: Expr)
    | Call(callee: string, args: seq<Expr>)
    | Prototype(name: string, params: seq<string>)
    | Function(name: string, params: seq<string>, body: Expr)
}
