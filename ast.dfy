/** The part of the syntax tree that the lowering pass consumes. */
module Ast {
  import opened Outcome

  /** Binary operator tokens that can head a BinOp node. */
  datatype TokenType = Plus | Minus | Mul | Div | Equal

  datatype Node =
    | Num(val: int)
    | Ident(name: string)
    | Call(callee: string, args: seq<Node>)
    | BinOp(op: TokenType, lhs: Node, rhs: Node)
    | If(cond: Node, thenBranch: Node, elseBranch: Option<Node>)
    | Return(expr: Node)
    | ExprStmt(expr: Node)
    | CompStmt(stmts: seq<Node>)
    | Func(name: string, params: seq<Node>, body: Node)
}
