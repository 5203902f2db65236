/** The abstract syntax tree both traversals walk, as one closed sum type per
    syntactic category. Only the node kinds the two traversals treat are
    present; types and symbol names carry no information either traversal
    uses, so a declaration keeps only its names and a name is a string. */
module Ast {

  datatype BinOp =
    | And | Or
    | Compare | Noteq | Gt | Gteq | Lt | Lteq
    | Plus | Minus | Times | Div

  datatype Expr =
    | Binary(op: BinOp, left: Expr, right: Expr)
    | Not(operand: Expr)
    | Uminus(operand: Expr)
    | Magnitude(operand: Expr)
    | Ident(name: string)
    | IntLit(value: int)
    | BoolLit(truth: bool)
    | ArrayAccess(array: string, index: Expr)

  /** A declaration `T x1, ..., xn;`. */
  datatype Decl = Decl(names: seq<string>)

  datatype Stmt =
    | Assignment(target: string, rhs: Expr)
    | ArrayAssignment(array: string, index: Expr, rhs: Expr)
      /** `target = callee(args)` */
    | Call(target: string, callee: string, args: seq<Expr>)
      /** `array[index] = callee(args)` */
    | ArrayCall(array: string, index: Expr, callee: string, args: seq<Expr>)
    | IfNoElse(cond: Expr, body: Block)
    | IfWithElse(cond: Expr, thenBody: Block, elseBody: Block)
    | ForLoop(init: Stmt, cond: Expr, incr: Stmt, body: Block)

  /** A nested `{ ... }` block: its declarations, then its statements. */
  datatype Block = NestedBlock(decls: seq<Decl>, stmts: seq<Stmt>)

  /** A function body: declarations, statements and the closing `return e;`. */
  datatype FunctionBlock = FunctionBlock(decls: seq<Decl>, stmts: seq<Stmt>, ret: Expr)

  datatype Func = Func(name: string, params: seq<string>, body: FunctionBlock)

  datatype Program = Program(funcs: seq<Func>)
}
