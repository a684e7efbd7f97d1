/** The tree-walk interpreter: the reference meaning of a function body. */
module Interpreter {
  import opened Options
  import opened Values
  import opened Syntax

  // The chain of environments of one call, outermost (the parameters) first.
  type Env = seq<map<string, Value>>

  // `Environment::get` within the call; names it does not hold are globals.
  predicate Visible(env: Env, x: string) {
    exists i :: 0 <= i < |env| && x in env[i]
  }

  function Lookup(ops: Ops, env: Env, x: string): Value {
    if env == [] then ops.global(x)
    else if x in env[|env| - 1] then env[|env| - 1][x]
    else Lookup(ops, env[..|env| - 1], x)
  }

  // `Environment::set`: the innermost holder is updated; when there is none the caller
  // falls back on `define` in the current environment.
  function Update(env: Env, x: string, v: Value): Env
    requires Visible(env, x)
  {
    if x in env[|env| - 1] then env[|env| - 1 := env[|env| - 1][x := v]]
    else Update(env[..|env| - 1], x, v) + [env[|env| - 1]]
  }

  function SetVar(env: Env, x: string, v: Value): Env {
    if Visible(env, x) then Update(env, x, v)
    else if env == [] then env
    else env[|env| - 1 := env[|env| - 1][x := v]]
  }

  function EvalExpr(ops: Ops, env: Env, e: Expr): Value {
    match e
    case Lit(v) => v
    case Var(x) => Lookup(ops, env, x)
    case Un(op, a) => Apply1(ops, op, EvalExpr(ops, env, a))
    case Bin(op, l, r) => Apply2(ops, op, EvalExpr(ops, env, l), EvalExpr(ops, env, r))
    case Logical(isAnd, l, r) =>
      if Truthy(EvalExpr(ops, env, l)) != isAnd then Bool(!isAnd)
      else Bool(Truthy(EvalExpr(ops, env, r)))
    case Coalesce(l, r) =>
      if EvalExpr(ops, env, l) != Null then EvalExpr(ops, env, l) else EvalExpr(ops, env, r)
    case Ternary(c, t, f) =>
      if Truthy(EvalExpr(ops, env, c)) then EvalExpr(ops, env, t) else EvalExpr(ops, env, f)
  }

  datatype St = St(env: Env, out: string)

  // How a statement ends. The control exceptions carry the state they are thrown in.
  datatype Outcome =
    | Normal(st: St)
    | Brk(st: St)
    | Cont(st: St)
    | Ret(v: Value, st: St)
    | OutOfFuel

  function ExecEffect(ops: Ops, f: Effect, st: St): St {
    match f
    case Eval(_) => st
    case Assign(x, aop, rhs) =>
      var v := EvalExpr(ops, st.env, rhs);
      var w := if aop.Plain? then v else Apply2(ops, aop.op, Lookup(ops, st.env, x), v);
      st.(env := SetVar(st.env, x, w))
    case IncDec(x, inc, _) =>
      var w := Apply2(ops, if inc then Add else Sub, Lookup(ops, st.env, x), Int(1));
      st.(env := SetVar(st.env, x, w))
  }

  function BuildOutput(ops: Ops, env: Env, args: Exprs): string {
    match args
    case ENil => ""
    case ECons(e, ENil) => ToStr(ops, EvalExpr(ops, env, e))
    case ECons(e, rest) => ToStr(ops, EvalExpr(ops, env, e)) + " " + BuildOutput(ops, env, rest)
  }

  predicate AnyMatch(ops: Ops, env: Env, subject: Value, values: Exprs) {
    match values
    case ENil => false
    case ECons(e, rest) => LooseEq(subject, EvalExpr(ops, env, e)) || AnyMatch(ops, env, subject, rest)
  }

  // The body a switch runs: the first case one of whose values equals the subject, else
  // the last `default`.
  function Select(ops: Ops, env: Env, subject: Value, cases: Cases, dflt: Option<Stmts>): Option<Stmts> {
    match cases
    case NoCase => dflt
    case Case(values, body, rest) =>
      if values.ENil? then Select(ops, env, subject, rest, Some(body))
      else if AnyMatch(ops, env, subject, values) then Some(body)
      else Select(ops, env, subject, rest, dflt)
  }

  lemma SelectSmaller(ops: Ops, env: Env, subject: Value, cases: Cases, dflt: Option<Stmts>)
    ensures var sel := Select(ops, env, subject, cases, dflt);
            sel.Some? ==> sel == dflt || (cases decreases to sel.value)
  {
  }

  // The frames opened since `d` are dropped.
  function Trim(o: Outcome, d: nat): Outcome {
    match o
    case OutOfFuel => o
    case Ret(v, st) => Ret(v, Cut(st, d))
    case Normal(st) => Normal(Cut(st, d))
    case Brk(st) => Brk(Cut(st, d))
    case Cont(st) => Cont(Cut(st, d))
  }

  function Cut(st: St, d: nat): St {
    if d <= |st.env| then st.(env := st.env[..d]) else st
  }

  function WithState(o: Outcome, st: St): Outcome {
    match o
    case OutOfFuel => o
    case Ret(v, _) => Ret(v, st)
    case Normal(_) => Normal(st)
    case Brk(_) => Brk(st)
    case Cont(_) => Cont(st)
  }

  // `fuel` bounds the number of loop rounds along one path; a terminating run needs only
  // finitely many.
  function Exec(ops: Ops, fuel: nat, s: Stmt, st: St): Outcome
    decreases fuel, s, 2
  {
    match s
    case Do(f) => Normal(ExecEffect(ops, f, st))
    case Write(args, newline) =>
      Normal(st.(out := st.out + BuildOutput(ops, st.env, args) + if newline then "\n" else ""))
    case Return(value) =>
      Ret(if value.Some? then EvalExpr(ops, st.env, value.value) else Null, st)
    case Break => Brk(st)
    case Continue => Cont(st)
    case Block(body) => ExecBlock(ops, fuel, body, st)
    case If(c, thn, els) =>
      if Truthy(EvalExpr(ops, st.env, c)) then ExecBlock(ops, fuel, thn, st)
      else (match els case Some(b) => ExecBlock(ops, fuel, b, st) case None => Normal(st))
    case While(c, body) => ExecLoop(ops, fuel, Some(c), None, body, st)
    case For(init, test, post, body) =>
      var scoped := st.(env := st.env + [map[]]);
      var o0 := match init case Some(i) => Exec(ops, fuel, i, scoped) case None => Normal(scoped);
      Trim(if o0.Normal? then ExecLoop(ops, fuel, test, post, body, o0.st) else o0, |st.env|)
    case Switch(subject, cases) =>
      var sel := Select(ops, st.env, EvalExpr(ops, st.env, subject), cases, None);
      if sel.None? then Normal(st)
      else
        SelectSmaller(ops, st.env, EvalExpr(ops, st.env, subject), cases, None);
        var o := ExecBlock(ops, fuel, sel.value, st);
        if o.Brk? then Normal(o.st) else o
    case Try(body, handler, fin) =>
      var o := ExecBlock(ops, fuel, body, st);
      if o.OutOfFuel? || fin.None? then o
      else
        var o2 := ExecBlock(ops, fuel, fin.value, o.st);
        if o2.Normal? then WithState(o, o2.st) else o2
  }

  function ExecStmts(ops: Ops, fuel: nat, ss: Stmts, st: St): Outcome
    decreases fuel, ss, 0
  {
    match ss
    case Nil => Normal(st)
    case Cons(s, rest) =>
      var o := Exec(ops, fuel, s, st);
      if o.Normal? then ExecStmts(ops, fuel, rest, o.st) else o
  }

  function ExecBlock(ops: Ops, fuel: nat, ss: Stmts, st: St): Outcome
    decreases fuel, ss, 1
  {
    Trim(ExecStmts(ops, fuel, ss, st.(env := st.env + [map[]])), |st.env|)
  }

  // Both loops: a while loop is one without a step.
  function ExecLoop(ops: Ops, fuel: nat, test: Option<Expr>, post: Option<Effect>, body: Stmts, st: St): Outcome
    decreases fuel, body, 2
  {
    if test.Some? && !Truthy(EvalExpr(ops, st.env, test.value)) then Normal(st)
    else if fuel == 0 then OutOfFuel
    else
      var o := ExecBlock(ops, fuel - 1, body, st);
      if o.Normal? || o.Cont? then
        var st2 := if post.Some? then ExecEffect(ops, post.value, o.st) else o.st;
        ExecLoop(ops, fuel - 1, test, post, body, st2)
      else if o.Brk? then Normal(o.st)
      else o
  }
}
