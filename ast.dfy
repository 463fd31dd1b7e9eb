/** The syntax tree of ast.h, as two closed datatypes. `WhileStmt` and
    `BlockStmt`, which parser.cpp builds but ast.h does not declare, are
    included. */
module Ast {
  import opened Wrappers
  import opened Tokens

  datatype Expr =
    | NumberExpr(num: real)
    | VariableExpr(name: string)
    | StringExpr(value: string)
    | BinaryExpr(left: Expr, op: string, right: Expr)

  datatype Stmt =
    | PrintStmt(expr: Expr)
    | AssignStmt(name: string, value: Expr)
    | DeclStmt(varType: TokenKind, name: string, value: Expr)
    | IfStmt(condition: Expr, thenBranch: Stmt, elseBranch: Option<Stmt>)
    | WhileStmt(condition: Expr, body: Stmt)
    | BlockStmt(statements: seq<Stmt>)
}
