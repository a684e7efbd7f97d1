/** The values the bytecode computes: `&&` and `||` leave the deciding operand as it is. */
module RawValues {
  import opened Values
  import opened Syntax
  import opened Interpreter
  import opened Discipline

  function RawEval(ops: Ops, env: Env, e: Expr): Value {
    match e
    case Lit(v) => v
    case Var(x) => Lookup(ops, env, x)
    case Un(op, a) => Apply1(ops, op, RawEval(ops, env, a))
    case Bin(op, l, r) => Apply2(ops, op, RawEval(ops, env, l), RawEval(ops, env, r))
    case Logical(isAnd, l, r) =>
      if Truthy(RawEval(ops, env, l)) != isAnd then RawEval(ops, env, l) else RawEval(ops, env, r)
    case Coalesce(l, r) =>
      if RawEval(ops, env, l) != Null then RawEval(ops, env, l) else RawEval(ops, env, r)
    case Ternary(c, t, f) =>
      if Truthy(RawEval(ops, env, c)) then RawEval(ops, env, t) else RawEval(ops, env, f)
  }

  lemma {:induction false} BoolValues(ops: Ops, env: Env, e: Expr)
    requires IsBool(e)
    ensures RawEval(ops, env, e).Bool? && EvalExpr(ops, env, e).Bool?
    decreases e
  {
    match e
    case Logical(_, l, r) => BoolValues(ops, env, l); BoolValues(ops, env, r);
    case Coalesce(l, r) => BoolValues(ops, env, l); BoolValues(ops, env, r);
    case Ternary(_, t, f) => BoolValues(ops, env, t); BoolValues(ops, env, f);
    case _ =>
  }

  // Under the discipline the bytecode's value is the interpreter's; where only the truth of
  // an expression matters, its truth is.
  lemma {:induction false} RawAgrees(ops: Ops, env: Env, e: Expr)
    ensures ValueOk(e) ==> RawEval(ops, env, e) == EvalExpr(ops, env, e)
    ensures TruthOk(e) ==> Truthy(RawEval(ops, env, e)) == Truthy(EvalExpr(ops, env, e))
    decreases e
  {
    match e
    case Lit(_) =>
    case Var(_) =>
    case Un(_, a) => RawAgrees(ops, env, a);
    case Bin(_, l, r) => RawAgrees(ops, env, l); RawAgrees(ops, env, r);
    case Logical(_, l, r) =>
      RawAgrees(ops, env, l);
      RawAgrees(ops, env, r);
      if ValueOk(e) {
        BoolValues(ops, env, l);
        BoolValues(ops, env, r);
      }
    case Coalesce(l, r) => RawAgrees(ops, env, l); RawAgrees(ops, env, r);
    case Ternary(c, t, f) => RawAgrees(ops, env, c); RawAgrees(ops, env, t); RawAgrees(ops, env, f);
  }

  // When the operands are right, the whole is right exactly if the operand that decides it
  // evaluates to a Bool.
  lemma LogicalExact(ops: Ops, env: Env, isAnd: bool, l: Expr, r: Expr)
    requires ValueOk(l) && ValueOk(r)
    ensures var e := Logical(isAnd, l, r);
            var decider := if Truthy(EvalExpr(ops, env, l)) != isAnd then l else r;
            RawEval(ops, env, e) == EvalExpr(ops, env, e) <==> EvalExpr(ops, env, decider).Bool?
  {
    RawAgrees(ops, env, l);
    RawAgrees(ops, env, r);
  }
}
