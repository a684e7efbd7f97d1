/** The statements and expressions covered by the compiler model. */
module Syntax {
  import opened Options
  import opened Values

  datatype Expr =
    | Lit(v: Value)
    | Var(x: string)
    | Un(uop: UnOp, e: Expr)
    | Bin(bop: BinOp, l: Expr, r: Expr)
    | Logical(isAnd: bool, l: Expr, r: Expr)
    | Coalesce(l: Expr, r: Expr)
    | Ternary(c: Expr, t: Expr, f: Expr)

  datatype Exprs = ENil | ECons(head: Expr, tail: Exprs)

  datatype AssignOp = Plain | Compound(op: BinOp)

  // An expression that stands alone: the only places where assignments are modelled.
  datatype Effect =
    | Eval(e: Expr)
    | Assign(x: string, aop: AssignOp, rhs: Expr)
    | IncDec(x: string, inc: bool, prefix: bool)

  datatype Stmt =
    | Do(effect: Effect)
    | Write(args: Exprs, newline: bool)
    | Return(value: Option<Expr>)
    | Break
    | Continue
    | Block(body: Stmts)
    | If(cond: Expr, thn: Stmts, els: Option<Stmts>)
    | While(cond: Expr, body: Stmts)
    | For(init: Option<Stmt>, test: Option<Expr>, post: Option<Effect>, body: Stmts)
    | Switch(subject: Expr, cases: Cases)
    | Try(body: Stmts, handler: Option<Handler>, fin: Option<Stmts>)

  datatype Stmts = Nil | Cons(head: Stmt, tail: Stmts)

  // A case with no values is a `default`.
  datatype Cases = NoCase | Case(values: Exprs, body: Stmts, rest: Cases)

  // `catch` with an optional variable name ("" when absent).
  datatype Handler = Handler(name: string, body: Stmts)
}
