/** The comparisons of a switch pick the case the interpreter picks. */
module SwitchProof {
  import opened Options
  import opened Values
  import opened Syntax
  import opened Interpreter
  import opened Bytecode
  import opened CodeGen
  import opened RegisterDiscipline
  import opened ScopeDiscipline
  import opened GenFacts
  import opened Discipline
  import opened RawValues
  import opened EnvFacts
  import opened Simulation
  import opened ExprProof
  import opened LeafProof
  import opened EffectProof

  function Count(cases: Cases): nat {
    match cases
    case NoCase => 0
    case Case(_, _, rest) => 1 + Count(rest)
  }

  // The first case one of whose values equals the subject.
  function MatchIndex(ops: Ops, env: Env, v: Value, cases: Cases): (k: Option<nat>)
    ensures k.Some? ==> k.value < Count(cases)
  {
    match cases
    case NoCase => None
    case Case(values, _, rest) =>
      if AnyMatch(ops, env, v, values) then Some(0)
      else match MatchIndex(ops, env, v, rest) case None => None case Some(k) => Some(k + 1)
  }

  function LastDefault(cases: Cases): (k: Option<nat>)
    ensures k.Some? ==> k.value < Count(cases)
  {
    match cases
    case NoCase => None
    case Case(values, _, rest) =>
      match LastDefault(rest)
      case Some(k) => Some(k + 1)
      case None => if values.ENil? then Some(0) else None
  }

  function BodyAt(cases: Cases, k: nat): Stmts
    requires k < Count(cases)
  {
    if k == 0 then cases.body else BodyAt(cases.rest, k - 1)
  }

  function Chosen(ops: Ops, env: Env, v: Value, cases: Cases): (k: Option<nat>)
    ensures k.Some? ==> k.value < Count(cases)
  {
    var k := MatchIndex(ops, env, v, cases);
    if k.Some? then k else LastDefault(cases)
  }

  // The interpreter runs the chosen case.
  lemma {:induction false} SelectChosen(ops: Ops, env: Env, v: Value, cases: Cases, dflt: Option<Stmts>)
    ensures var k := Chosen(ops, env, v, cases);
            Select(ops, env, v, cases, dflt) == if k.Some? then Some(BodyAt(cases, k.value)) else dflt
    decreases cases
  {
    if cases.Case? {
      SelectChosen(ops, env, v, cases.rest, if cases.values.ENil? then Some(cases.body) else dflt);
    }
  }

  // So does the jump after the comparisons when none succeeds.
  lemma {:induction false} DefaultChosen(cases: Cases, starts: seq<nat>, dflt: nat)
    requires |starts| == Count(cases)
    ensures DefaultStart(cases, starts, dflt)
         == if LastDefault(cases).Some? then starts[LastDefault(cases).value] else dflt
    decreases cases
  {
    if cases.Case? {
      DefaultChosen(cases.rest, starts[1..], if cases.values.ENil? then starts[0] else dflt);
    }
  }

  lemma {:induction false} CaseBody(cases: Cases, k: nat, vis: set<string>, fins: seq<Stmts>, cont: bool, ret: bool)
    requires k < Count(cases) && CasesOk(cases, vis, fins) && PlacedCases(cases, cont, ret)
    ensures var b := BodyAt(cases, k);
            && StmtsOk(b, vis, fins) && PlacedIn(b, true, cont, ret) && SizeStmts(b) < SizeCases(cases)
            && StmtsLits(b) <= CasesLits(cases) && StmtsNames(b) <= CasesNames(cases)
                 && AssignedIn(b) <= AssignedCases(cases)
    decreases cases
  {
    if k > 0 {
      CaseBody(cases.rest, k - 1, vis, fins, cont, ret);
    }
  }

  lemma {:induction false} RunValues(x: Ctx, values: Exprs, subject: nat, t: Target, to: nat, base: nat, cs: CState,
      v: Value,
                                     env: Env, dead: set<string>, m: Machine) returns (n: nat, m2: Machine)
    requires Good(cs) && Stands(m, base) && Agrees(x.ops, dead, env, cs.locals, m.regs)
    requires Busy(cs.rs, subject) && Reg(m.regs, subject) == v && ResolvedTarget(t, x.fixes) == At(to)
    requires ValuesOk(values) && ExprsLits(values) <= x.lits && ExprsNames(values) !! dead
    requires var g := GenValues(values, subject, t, base, cs); Fits(x, g.code, base, g.cs.pool)
    ensures var g := GenValues(values, subject, t, base, cs);
            && Run(x.ops, x.p, m, n) == m2 && m2.Running?
            && m2 == m.(pc := if AnyMatch(x.ops, env, v, values) then to else base + |g.code|, regs := m2.regs)
            && Keeps(cs, None, m.regs, m2.regs) && Neutral(cs, g.cs)
    decreases values
  {
    hide Step, EvalExpr, LooseEq, ValueOk, ExprLits, ExprNames, Good, AllocTemp, FreeTemp, Fits, Neutral, GenExpr,
         Agrees, Keeps, Busy, ResolvedTarget;
    var g := GenValues(values, subject, t, base, cs);
    match values
    case ENil =>
      KeepsRefl(cs, m.regs);
      NeutralRefl(cs);
      n, m2 := 0, m;
    case ECons(e, rest) =>
      ValuesShape(x, e, rest, subject, t, base, cs);
      var ge := GenExpr(e, None, base, cs);
      var (eq, cs1) := AllocTemp(ge.cs);
      var cs2 := FreeTemp(FreeTemp(cs1, ge.r), eq);
      var at := base + |ge.code|;
      var n1, m1 := RunCompare(x, e, subject, eq, base, cs, v, env, dead, m);
      ThenStep(x.ops, x.p, m, n1, m1);
      var m1' := Step(x.ops, x.p, m1);
      JumpTrueStep(x, m1, eq, to);
      n, m2 := n1 + 1, m1';
      ValuesFacts(values, subject, t, base, cs);
      if !LooseEq(v, EvalExpr(x.ops, env, e)) {
        NeutralLocals(cs, cs2);
        KeepsBusy(cs, cs2, subject, m.regs, m1.regs);
        var n2, m3 := RunValues(x, rest, subject, t, to, at + 2, cs2, v, env, dead, m1');
        Chain(x.ops, x.p, m, n1 + 1, m1', n2, m3);
        KeepsThen(cs, cs2, m.regs, m1.regs, m3.regs);
        n, m2 := n1 + 1 + n2, m3;
      }
  }

  lemma JumpTrueStep(x: Ctx, m: Machine, a: nat, to: nat)
    requires m.Running? && m.pc < |x.p.code| && x.p.code[m.pc] == JumpIfTrue(a, At(to))
    ensures Step(x.ops, x.p, m) == m.(pc := if Truthy(Reg(m.regs, a)) then to else m.pc + 1)
  {
  }

  lemma KeepsBusy(cs: CState, cs2: CState, q: nat, a: Regs, b: Regs)
    requires Keeps(cs, None, a, b) && Neutral(cs, cs2) && Busy(cs.rs, q)
    ensures Reg(b, q) == Reg(a, q) && Busy(cs2.rs, q)
  {
  }

  lemma KeepsThen(cs: CState, cs2: CState, a: Regs, b: Regs, c: Regs)
    requires Keeps(cs, None, a, b) && Neutral(cs, cs2) && Keeps(cs2, None, b, c)
    ensures Keeps(cs, None, a, c)
  {
  }

  lemma ValuesShape(x: Ctx, e: Expr, rest: Exprs, subject: nat, t: Target, base: nat, cs: CState)
    requires Good(cs)
    requires var g := GenValues(ECons(e, rest), subject, t, base, cs); Fits(x, g.code, base, g.cs.pool)
    ensures var ge := GenExpr(e, None, base, cs);
            var (eq, cs1) := AllocTemp(ge.cs);
            var cs2 := FreeTemp(FreeTemp(cs1, ge.r), eq);
            var at := base + |ge.code|;
            var tail := GenValues(rest, subject, t, at + 2, cs2);
            && Neutral(cs, cs2)
            && Fits(x, ge.code, base, ge.cs.pool)
            && at + 1 < |x.p.code| && x.p.code[at] == Bin2(Eq, eq, subject, ge.r)
            && x.p.code[at + 1] == JumpIfTrue(eq, ResolvedTarget(t, x.fixes))
            && Fits(x, tail.code, at + 2, tail.cs.pool)
            && GenValues(ECons(e, rest), subject, t, base, cs).cs == tail.cs
            && |GenValues(ECons(e, rest), subject, t, base, cs).code| == |ge.code| + 2 + |tail.code|
  {
    hide Good, AllocTemp, FreeTemp, Fits, Neutral, GenExpr;
    var ge := GenExpr(e, None, base, cs);
    ExprNeutral(e, base, cs);
    var (eq, cs1) := AllocTemp(ge.cs);
    ResultBusy(cs, ge.r, ge.cs);
    AllocNeutral(ge.cs);
    FreeBelow(cs, ge.r, ge.cs, cs1, None, eq);
    var cs2 := FreeTemp(FreeTemp(cs1, ge.r), eq);
    NeutralResult(cs, eq, FreeTemp(cs1, ge.r));
    PoolFree2(ge.cs, ge.r, eq);
    var at := base + |ge.code|;
    NeutralLocals(cs, cs2);
    ValuesFacts(rest, subject, t, at + 2, cs2);
    var tail := GenValues(rest, subject, t, at + 2, cs2);
    NeutralLocals(cs2, tail.cs);
    var i0 := Bin2(Eq, eq, subject, ge.r);
    var i1 := JumpIfTrue(eq, t);
    assert ge.code + [i0, i1] + tail.code == ge.code + [i0] + ([] + [i1] + tail.code);
    FitsMid(x, ge.code, i0, [] + [i1] + tail.code, base, tail.cs.pool, ge.cs.pool);
    FitsMid(x, [], i1, tail.code, at + 1, tail.cs.pool, ge.cs.pool);
  }

  lemma PoolFree2(cs: CState, r: nat, eq: nat)
    ensures FreeTemp(FreeTemp(AllocTemp(cs).1, r), eq).pool == cs.pool
  {
  }

  // The comparison of the subject with one value.
  lemma RunCompare(x: Ctx, e: Expr, subject: nat, eq: nat, base: nat, cs: CState, v: Value, env: Env,
      dead: set<string>, m: Machine)
    returns (n: nat, m2: Machine)
    requires Good(cs) && Stands(m, base) && Agrees(x.ops, dead, env, cs.locals, m.regs)
    requires Busy(cs.rs, subject) && Reg(m.regs, subject) == v
    requires ValueOk(e) && ExprLits(e) <= x.lits && ExprNames(e) !! dead
    requires var g := GenExpr(e, None, base, cs);
             && Fits(x, g.code, base, g.cs.pool) && eq == AllocTemp(g.cs).0
             && base + |g.code| < |x.p.code| && x.p.code[base + |g.code|] == Bin2(Eq, eq, subject, g.r)
    ensures var g := GenExpr(e, None, base, cs);
            var cs2 := FreeTemp(FreeTemp(AllocTemp(g.cs).1, g.r), eq);
            && Run(x.ops, x.p, m, n) == m2 && m2.Running?
            && m2 == m.(pc := base + |g.code| + 1, regs := m2.regs)
            && Reg(m2.regs, eq) == Bool(LooseEq(v, EvalExpr(x.ops, env, e)))
            && Keeps(cs, None, m.regs, m2.regs)
            && Agrees(x.ops, dead, env, cs2.locals, m2.regs)
  {
    hide Good, AllocTemp, Fits, GenExpr, Agrees, Busy, Keeps, ExprPost, FreeTemp, LooseEq;
    var g := GenExpr(e, None, base, cs);
    NoDest(cs);
    var n1, m1 := RunExpr(x, e, None, base, cs, env, dead, m);
    AfterExpr(x, e, None, base, cs, env, dead, m, n1, m1);
    RawAgrees(x.ops, env, e);
    KeepsOne(cs, subject, m.regs, m1.regs);
    ThenStep(x.ops, x.p, m, n1, m1);
    n, m2 := n1 + 1, Step(x.ops, x.p, m1);
    var b := Bool(LooseEq(v, EvalExpr(x.ops, env, e)));
    FreshOne(g.cs);
    ScratchAgrees(x.ops, dead, env, g.cs, m1.regs, eq, b);
    BusyUp(cs, g.r, g.cs);
    KeepsSet(cs, None, g.cs, m.regs, m1.regs, b);
    KeepFree(AllocTemp(g.cs).1, g.r);
    KeepFree(FreeTemp(AllocTemp(g.cs).1, g.r), eq);
  }

  lemma KeepsOne(cs: CState, q: nat, a: Regs, b: Regs)
    requires Keeps(cs, None, a, b) && Busy(cs.rs, q)
    ensures Reg(b, q) == Reg(a, q)
  {
  }

  lemma BusyUp(cs: CState, r: nat, cs1: CState)
    requires ExprPost(None, cs, r, cs1)
    ensures forall q :: Busy(cs.rs, q) ==> Busy(cs1.rs, q)
  {
  }

  lemma {:induction false} RunChecks(x: Ctx, cases: Cases, subject: nat, level: nat, index: nat, base: nat, cs: CState,
      v: Value,
                                     vis: set<string>, fins: seq<Stmts>, env: Env, dead: set<string>, m: Machine)
    returns (n: nat, m2: Machine)
    requires Good(cs) && Stands(m, base) && Agrees(x.ops, dead, env, cs.locals, m.regs)
    requires Busy(cs.rs, subject) && Reg(m.regs, subject) == v
    requires level < |x.fixes| && index + Count(cases) <= |x.fixes[level].starts|
    requires CasesOk(cases, vis, fins) && CasesLits(cases) <= x.lits && CasesNames(cases) !! dead
    requires var g := GenChecks(cases, subject, level, index, base, cs); Fits(x, g.code, base, g.cs.pool)
    ensures var g := GenChecks(cases, subject, level, index, base, cs);
            var k := MatchIndex(x.ops, env, v, cases);
            && Run(x.ops, x.p, m, n) == m2 && m2.Running?
            && m2 == m.(pc := if k.Some? then x.fixes[level].starts[index + k.value]
                        else base + |g.code|, regs := m2.regs)
            && Keeps(cs, None, m.regs, m2.regs) && Neutral(cs, g.cs)
    decreases cases
  {
    hide ValuesOk, ExprsLits, ExprsNames, StmtsOk, StmtsLits, StmtsNames, Good, Fits, Neutral, Agrees, Keeps, Busy,
         GenValues, AnyMatch;
    match cases
    case NoCase =>
      KeepsRefl(cs, m.regs);
      NeutralRefl(cs);
      n, m2 := 0, m;
    case Case(values, _, rest) =>
      var t := ToCase(level, index);
      var g := GenValues(values, subject, t, base, cs);
      ValuesFacts(values, subject, t, base, cs);
      NeutralLocals(cs, g.cs);
      var at := base + |g.code|;
      var gr := GenChecks(rest, subject, level, index + 1, at, g.cs);
      ChecksFacts(rest, subject, level, index + 1, at, g.cs);
      NeutralLocals(g.cs, gr.cs);
      NeutralTrans(cs, g.cs, gr.cs);
      FitsCat(x, g.code, gr.code, base, gr.cs.pool, g.cs.pool);
      n, m2 := RunValues(x, values, subject, t, x.fixes[level].starts[index], base, cs, v, env, dead, m);
      if !AnyMatch(x.ops, env, v, values) {
        KeepsBusy(cs, g.cs, subject, m.regs, m2.regs);
        KeepAll(x.ops, dead, env, cs, m.regs, m2.regs);
        var m1, m3 := m2, m2;
        var n2: nat;
        n2, m3 := RunChecks(x, rest, subject, level, index + 1, at, g.cs, v, vis, fins, env, dead, m1);
        Chain(x.ops, x.p, m, n, m1, n2, m3);
        KeepsThen(cs, g.cs, m.regs, m1.regs, m3.regs);
        n, m2 := n + n2, m3;
      }
  }

  lemma KeepAll(ops: Ops, dead: set<string>, env: Env, cs: CState, a: Regs, b: Regs)
    requires Good(cs) && Agrees(ops, dead, env, cs.locals, a) && Keeps(cs, None, a, b)
    ensures Agrees(ops, dead, env, cs.locals, b)
  {
    KeepAgrees(ops, dead, env, cs, None, a, b);
  }

  // Where the body of case `k` starts, and what stands there.
  lemma {:induction false} FindCase(x: Ctx, cases: Cases, k: nat, base: nat, cs: CState, loops: seq<Loop>,
      pending: seq<Stmts>)
    returns (csk: CState)
    requires Good(cs) && |loops| > 0 && k < Count(cases)
    requires var g := GenCases(cases, base, cs, loops, pending); Fits(x, g.code, base, g.cs.pool)
    ensures var g := GenCases(cases, base, cs, loops, pending);
            && |g.starts| == Count(cases)
            && (var gb := GenBlock(BodyAt(cases, k), g.starts[k], csk, loops, pending);
                && Neutral(cs, csk) && Fits(x, gb.code, g.starts[k], gb.cs.pool)
                && g.starts[k] + |gb.code| < |x.p.code|
                && x.p.code[g.starts[k] + |gb.code|] == Resolved(Jump(ToEnd(|loops| - 1)), x.fixes))
    decreases cases
  {
    hide Good, Fits, Neutral, GenBlock, GenStmts, GenPending, GenLoop, GenStmt;
    CountStarts(cases, base, cs, loops, pending);
    BlockFacts(cases.body, base, cs, loops, pending);
    var g := GenBlock(cases.body, base, cs, loops, pending);
    NeutralLocals(cs, g.cs);
    var at := base + |g.code| + 1;
    var gr := GenCases(cases.rest, at, g.cs, loops, pending);
    CasesFacts(cases.rest, at, g.cs, loops, pending);
    NeutralLocals(g.cs, gr.cs);
    FitsMid(x, g.code, Jump(ToEnd(|loops| - 1)), gr.code, base, gr.cs.pool, g.cs.pool);
    if k == 0 {
      NeutralRefl(cs);
      csk := cs;
    } else {
      csk := FindCase(x, cases.rest, k - 1, at, g.cs, loops, pending);
      NeutralTrans(cs, g.cs, csk);
    }
  }

  lemma {:induction false} CountStarts(cases: Cases, base: nat, cs: CState, loops: seq<Loop>, pending: seq<Stmts>)
    requires |loops| > 0
    ensures |GenCases(cases, base, cs, loops, pending).starts| == Count(cases)
    decreases cases
  {
    if cases.Case? {
      var g := GenBlock(cases.body, base, cs, loops, pending);
      CountStarts(cases.rest, base + |g.code| + 1, g.cs, loops, pending);
    }
  }
}
