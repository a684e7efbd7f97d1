/** Running the code of an expression leaves its value in the result register and changes no
    other register that was taken. */
module ExprProof {
  import opened Options
  import opened Values
  import opened Syntax
  import opened Interpreter
  import opened Bytecode
  import opened CodeGen
  import opened RegisterDiscipline
  import opened Discipline
  import opened RawValues
  import opened EnvFacts
  import opened Simulation

  ghost predicate ExprPre(x: Ctx, e: Expr, dest: Option<nat>, base: nat, cs: CState, env: Env, dead: set<string>,
      m: Machine) {
    var g := GenExpr(e, dest, base, cs);
    && Good(cs) && DestOk(dest, cs) && Stands(m, base)
    && Fits(x, g.code, base, g.cs.pool)
    && ExprLits(e) <= x.lits && ExprNames(e) !! dead
    && Agrees(x.ops, dead, env, cs.locals, m.regs)
  }

  // `n` steps take the machine past the code, with the value in the result register.
  ghost predicate ExprRuns(x: Ctx, e: Expr, dest: Option<nat>, base: nat, cs: CState, env: Env, m: Machine, n: nat,
      m2: Machine) {
    var g := GenExpr(e, dest, base, cs);
    && m.Running? && m2.Running? && Run(x.ops, x.p, m, n) == m2
    && m2 == m.(pc := base + |g.code|, regs := m2.regs)
    && Reg(m2.regs, g.r) == RawEval(x.ops, env, e)
    && Keeps(cs, dest, m.regs, m2.regs)
  }

  // What a completed operand leaves for the code after it.
  lemma AfterExpr(x: Ctx, e: Expr, dest: Option<nat>, base: nat, cs: CState, env: Env, dead: set<string>,
                  m: Machine, n: nat, m2: Machine)
    requires ExprPre(x, e, dest, base, cs, env, dead, m) && ExprRuns(x, e, dest, base, cs, env, m, n, m2)
    ensures var g := GenExpr(e, dest, base, cs);
            && ExprPost(dest, cs, g.r, g.cs) && Good(g.cs) && Busy(g.cs.rs, g.r)
            && (dest.Some? ==> g.r == dest.value && DestOk(dest, g.cs))
            && Stands(m2, base + |g.code|)
            && Agrees(x.ops, dead, env, g.cs.locals, m2.regs)
  {
    ExprFacts(e, dest, base, cs);
    KeepAgrees(x.ops, dead, env, cs, dest, m.regs, m2.regs);
  }

  lemma KeepsTrans(cs: CState, dest: Option<nat>, r: nat, cs1: CState, a: Regs, b: Regs, c: Regs)
    requires ExprPost(dest, cs, r, cs1) && Keeps(cs, dest, a, b) && Keeps(cs1, dest, b, c)
    ensures Keeps(cs, dest, a, c)
  {
  }

  // Writing the destination of an expression whose operands are computed.
  lemma KeepsSet(cs: CState, dest: Option<nat>, cs0: CState, a: Regs, b: Regs, v: Value)
    requires Good(cs0) && DestOk(dest, cs0) && Keeps(cs, None, a, b)
    requires forall q :: Busy(cs.rs, q) ==> Busy(cs0.rs, q)
    ensures Keeps(cs, dest, a, b[Dest(dest, cs0).0 := v])
  {
    DestFacts(dest, cs0);
  }

  lemma {:induction false} RunExpr(x: Ctx, e: Expr, dest: Option<nat>, base: nat, cs: CState, env: Env,
      dead: set<string>, m: Machine)
    returns (n: nat, m2: Machine)
    requires ExprPre(x, e, dest, base, cs, env, dead, m)
    ensures ExprRuns(x, e, dest, base, cs, env, m, n, m2)
    decreases e, 1
  {
    match e
    case Lit(v) => n, m2 := RunLit(x, e, dest, base, cs, env, dead, m);
    case Var(_) => n, m2 := RunVar(x, e, dest, base, cs, env, dead, m);
    case Un(_, _) => n, m2 := RunUn(x, e, dest, base, cs, env, dead, m);
    case Bin(_, _, _) => n, m2 := RunBin(x, e, dest, base, cs, env, dead, m);
    case Logical(_, _, _) => n, m2 := RunLogical(x, e, dest, base, cs, env, dead, m);
    case Coalesce(_, _) => n, m2 := RunCoalesce(x, e, dest, base, cs, env, dead, m);
    case Ternary(_, _, _) => n, m2 := RunTernary(x, e, dest, base, cs, env, dead, m);
  }

  lemma RunLit(x: Ctx, e: Expr, dest: Option<nat>, base: nat, cs: CState, env: Env, dead: set<string>, m: Machine)
    returns (n: nat, m2: Machine)
    requires e.Lit? && ExprPre(x, e, dest, base, cs, env, dead, m)
    ensures ExprRuns(x, e, dest, base, cs, env, m, n, m2)
  {
    var (r, cs1) := Dest(dest, cs);
    RunLoad(x, r, e.v, base, cs1, m);
    n, m2 := 1, m.(pc := base + 1, regs := m.regs[r := e.v]);
    KeepsSet(cs, dest, cs, m.regs, m.regs, e.v);
  }

  lemma RunVar(x: Ctx, e: Expr, dest: Option<nat>, base: nat, cs: CState, env: Env, dead: set<string>, m: Machine)
    returns (n: nat, m2: Machine)
    requires e.Var? && ExprPre(x, e, dest, base, cs, env, dead, m)
    ensures ExprRuns(x, e, dest, base, cs, env, m, n, m2)
  {
    var g := GenExpr(e, dest, base, cs);
    var v := Lookup(x.ops, env, e.x);
    assert e.x !in dead;
    if Slot(cs.locals, e.x).Some? && dest.None? {
      n, m2 := 0, m;
    } else {
      if Slot(cs.locals, e.x).None? {
        LookupGlobal(x.ops, env, e.x);
        ConstLoads(Dest(dest, cs).1, Str(e.x), x.p.pool, x.lits);
      }
      assert g.code == [] + [g.code[0]];
      FitsEnd(x, [], g.code[0], base, g.cs.pool, g.cs.pool);
      OneStep(x.ops, x.p, m);
      n, m2 := 1, m.(pc := base + 1, regs := m.regs[g.r := v]);
      KeepsSet(cs, dest, cs, m.regs, m.regs, v);
    }
  }

  lemma {:induction false} RunUn(x: Ctx, e: Expr, dest: Option<nat>, base: nat, cs: CState, env: Env,
      dead: set<string>, m: Machine)
    returns (n: nat, m2: Machine)
    requires e.Un? && ExprPre(x, e, dest, base, cs, env, dead, m)
    ensures ExprRuns(x, e, dest, base, cs, env, m, n, m2)
    decreases e, 0
  {
    hide Good, GoodRegs, Agrees, PoolOk, CodeAt, Alloc, AllocTemp, FreeTemp, Fits, Run, Apply1, LoadValue, AddConst,
         Slot;
    var g := GenExpr(e, dest, base, cs);
    var ga := GenExpr(e.e, None, base, cs);
    var (r, cs1) := Dest(dest, ga.cs);
    ExprFacts(e.e, None, base, cs);
    OneOperand(dest, cs, ga.r, ga.cs);
    PoolGrows(dest, ga.cs);
    FitsEnd(x, ga.code, Un1(e.uop, r, ga.r), base, g.cs.pool, ga.cs.pool);
    var n1, m1 := RunExpr(x, e.e, None, base, cs, env, dead, m);
    ThenStep(x.ops, x.p, m, n1, m1);
    n, m2 := n1 + 1, Step(x.ops, x.p, m1);
    KeepsSet(cs, dest, ga.cs, m.regs, m1.regs, RawEval(x.ops, env, e));
  }

  // Taking a destination and freeing an operand leave the pool.
  lemma PoolGrows(dest: Option<nat>, cs: CState)
    ensures Dest(dest, cs).1.pool == cs.pool
    ensures forall r :: FreeTemp(Dest(dest, cs).1, r).pool == cs.pool
  {
  }

  // The pieces of the code of a binary operator.
  lemma BinShape(x: Ctx, e: Expr, dest: Option<nat>, base: nat, cs: CState, env: Env, dead: set<string>, m: Machine)
    requires e.Bin? && ExprPre(x, e, dest, base, cs, env, dead, m)
    ensures var ga := GenExpr(e.l, None, base, cs);
            var mid := base + |ga.code|;
            var gb := GenExpr(e.r, None, mid, ga.cs);
            var (r, cs1) := Dest(dest, gb.cs);
            var end := mid + |gb.code|;
            var g := GenExpr(e, dest, base, cs);
            && ExprPre(x, e.l, None, base, cs, env, dead, m)
            && Fits(x, gb.code, mid, gb.cs.pool)
            && end < |x.p.code| && x.p.code[end] == Bin2(e.bop, r, ga.r, gb.r)
            && g.r == r && base + |g.code| == end + 1
            && ExprLits(e.r) <= x.lits && ExprNames(e.r) !! dead && DestOk(None, ga.cs)
  {
    hide Good, GoodRegs, PoolOk, CodeAt, Alloc, AllocTemp, Dest, FreeTemp, Fits, Agrees;
    BinPools(e, dest, base, cs);
    var ga := GenExpr(e.l, None, base, cs);
    var gb := GenExpr(e.r, None, base + |ga.code|, ga.cs);
    var (r, cs1) := Dest(dest, gb.cs);
    FitsEnd(x, ga.code + gb.code, Bin2(e.bop, r, ga.r, gb.r), base, gb.cs.pool, gb.cs.pool);
    FitsCat(x, ga.code, gb.code, base, gb.cs.pool, ga.cs.pool);
  }

  lemma {:induction false} RunBin(x: Ctx, e: Expr, dest: Option<nat>, base: nat, cs: CState, env: Env,
      dead: set<string>, m: Machine)
    returns (n: nat, m2: Machine)
    requires e.Bin? && ExprPre(x, e, dest, base, cs, env, dead, m)
    ensures ExprRuns(x, e, dest, base, cs, env, m, n, m2)
    decreases e, 0
  {
    hide GenExpr, Good, GoodRegs, Agrees, PoolOk, CodeAt, Alloc, AllocTemp, Dest, FreeTemp, Fits, Keeps, ExprPost,
         SameScope, Run, Apply2;
    BinShape(x, e, dest, base, cs, env, dead, m);
    var ga := GenExpr(e.l, None, base, cs);
    var mid := base + |ga.code|;
    var gb := GenExpr(e.r, None, mid, ga.cs);
    var n1, m1 := RunExpr(x, e.l, None, base, cs, env, dead, m);
    AfterExpr(x, e.l, None, base, cs, env, dead, m, n1, m1);
    var n2, m2' := RunExpr(x, e.r, None, mid, ga.cs, env, dead, m1);
    AfterExpr(x, e.r, None, mid, ga.cs, env, dead, m1, n2, m2');
    Chain(x.ops, x.p, m, n1, m1, n2, m2');
    ThenStep(x.ops, x.p, m, n1 + n2, m2');
    n, m2 := n1 + n2 + 1, Step(x.ops, x.p, m2');
    BinKeeps(dest, cs, ga.r, ga.cs, gb.r, gb.cs, m.regs, m1.regs, m2'.regs, RawEval(x.ops, env, e));
  }

  lemma BinPools(e: Expr, dest: Option<nat>, base: nat, cs: CState)
    requires e.Bin? && Good(cs) && DestOk(dest, cs)
    ensures var ga := GenExpr(e.l, None, base, cs);
            var gb := GenExpr(e.r, None, base + |ga.code|, ga.cs);
            && ga.cs.pool <= gb.cs.pool && GenExpr(e, dest, base, cs).cs.pool == gb.cs.pool
            && Good(ga.cs) && DestOk(None, ga.cs) && DestOk(None, cs)
  {
    hide GoodRegs, Alloc, AllocTemp, Dest, FreeTemp, PlusTemp, SameBusy, Good, GenExpr;
    ExprFacts(e.l, None, base, cs);
    var ga := GenExpr(e.l, None, base, cs);
    ExprFacts(e.r, None, base + |ga.code|, ga.cs);
    BinPool(e, dest, base, cs);
  }

  lemma BinPool(e: Expr, dest: Option<nat>, base: nat, cs: CState)
    requires e.Bin?
    ensures var ga := GenExpr(e.l, None, base, cs);
            GenExpr(e, dest, base, cs).cs.pool == GenExpr(e.r, None, base + |ga.code|, ga.cs).cs.pool
  {
    hide Alloc, AllocTemp, Dest, FreeTemp;
    var ga := GenExpr(e.l, None, base, cs);
    var gb := GenExpr(e.r, None, base + |ga.code|, ga.cs);
    PoolGrows2(dest, gb.cs, gb.r, ga.r);
  }

  lemma PoolGrows2(dest: Option<nat>, cs: CState, r1: nat, r2: nat)
    ensures FreeTemp(FreeTemp(Dest(dest, cs).1, r1), r2).pool == cs.pool
  {
  }

  lemma BinKeeps(dest: Option<nat>, cs: CState, ra: nat, csA: CState, rb: nat, csB: CState, a: Regs, b: Regs, c: Regs,
      v: Value)
    requires Good(cs) && DestOk(dest, cs) && ExprPost(None, cs, ra, csA) && ExprPost(None, csA, rb, csB)
    requires Keeps(cs, None, a, b) && Keeps(csA, None, b, c)
    ensures Reg(c, ra) == Reg(b, ra)
    ensures Keeps(cs, dest, a, c[Dest(dest, csB).0 := v])
  {
    KeepsSet(cs, dest, csB, a, c, v);
  }

  // The pieces of the code of `l && r` and `l || r`.
  lemma LogicalShape(x: Ctx, e: Expr, dest: Option<nat>, base: nat, cs: CState, env: Env, dead: set<string>, m: Machine)
    requires e.Logical? && ExprPre(x, e, dest, base, cs, env, dead, m)
    ensures var (r, cs1) := Dest(dest, cs);
            var ga := GenExpr(e.l, Some(r), base, cs1);
            var mid := base + |ga.code|;
            var gb := GenExpr(e.r, Some(r), mid + 1, ga.cs);
            var end := mid + 1 + |gb.code|;
            var g := GenExpr(e, dest, base, cs);
            && ExprPre(x, e.l, Some(r), base, cs1, env, dead, m)
            && mid < |x.p.code| && x.p.code[mid]
                 == (if e.isAnd then JumpIfFalse(r, At(end)) else JumpIfTrue(r, At(end)))
            && Fits(x, gb.code, mid + 1, gb.cs.pool)
            && Good(ga.cs) && DestOk(Some(r), ga.cs) && ExprPost(Some(r), cs1, r, ga.cs)
            && ga.r == r && gb.r == r && g.r == r && base + |g.code| == end
            && ExprLits(e.r) <= x.lits && ExprNames(e.r) !! dead
  {
    hide Good, GoodRegs, PoolOk, CodeAt, Alloc, AllocTemp, Dest, Fits, Keeps, ExprPost, SameScope, Agrees;
    DestFacts(dest, cs);
    var (r, cs1) := Dest(dest, cs);
    var ga := GenExpr(e.l, Some(r), base, cs1);
    var mid := base + |ga.code|;
    var gb := GenExpr(e.r, Some(r), mid + 1, ga.cs);
    var end := mid + 1 + |gb.code|;
    DestSeq(dest, cs, e.l, base, e.r, mid + 1);
    DestAgrees(x, dest, cs, env, dead, m.regs);
    FitsMid(x, ga.code, if e.isAnd then JumpIfFalse(r, At(end))
            else JumpIfTrue(r, At(end)), gb.code, base, gb.cs.pool, ga.cs.pool);
  }

  lemma {:induction false} RunLogical(x: Ctx, e: Expr, dest: Option<nat>, base: nat, cs: CState, env: Env,
      dead: set<string>, m: Machine)
    returns (n: nat, m2: Machine)
    requires e.Logical? && ExprPre(x, e, dest, base, cs, env, dead, m)
    ensures ExprRuns(x, e, dest, base, cs, env, m, n, m2)
    decreases e, 0
  {
    hide GenExpr, Good, GoodRegs, Agrees, PoolOk, CodeAt, Alloc, AllocTemp, Dest, Fits, Keeps, ExprPost, SameScope;
    LogicalShape(x, e, dest, base, cs, env, dead, m);
    var (r, cs1) := Dest(dest, cs);
    var ga := GenExpr(e.l, Some(r), base, cs1);
    var mid := base + |ga.code|;
    var n1, m1 := RunExpr(x, e.l, Some(r), base, cs1, env, dead, m);
    AfterExpr(x, e.l, Some(r), base, cs1, env, dead, m, n1, m1);
    ThenStep(x.ops, x.p, m, n1, m1);
    KeepsUnder(dest, cs, m.regs, m1.regs);
    n, m2 := n1 + 1, Step(x.ops, x.p, m1);
    if Truthy(RawEval(x.ops, env, e.l)) == e.isAnd {
      var n2, m3 := RunExpr(x, e.r, Some(r), mid + 1, ga.cs, env, dead, m2);
      Chain(x.ops, x.p, m, n, m2, n2, m3);
      KeepsTrans(cs1, Some(r), r, ga.cs, m.regs, m1.regs, m3.regs);
      KeepsUnder(dest, cs, m.regs, m3.regs);
      n, m2 := n + n2, m3;
    }
  }

  // Taking a destination changes nothing the variables rest on.
  lemma DestAgrees(x: Ctx, dest: Option<nat>, cs: CState, env: Env, dead: set<string>, regs: Regs)
    requires Good(cs) && DestOk(dest, cs) && Agrees(x.ops, dead, env, cs.locals, regs)
    ensures Agrees(x.ops, dead, env, Dest(dest, cs).1.locals, regs)
  {
  }

  // Code that kept all but the destination, once taken, kept all that was taken before.
  lemma KeepsUnder(dest: Option<nat>, cs: CState, a: Regs, b: Regs)
    requires Good(cs) && DestOk(dest, cs)
    requires var (r, cs1) := Dest(dest, cs); Keeps(cs1, Some(r), a, b)
    ensures Keeps(cs, dest, a, b)
  {
    DestFacts(dest, cs);
  }

  // Two pieces of code for one destination.
  lemma DestSeq(dest: Option<nat>, cs: CState, e1: Expr, base1: nat, e2: Expr, base2: nat)
    requires Good(cs) && DestOk(dest, cs)
    ensures var (r, cs1) := Dest(dest, cs);
            var g1 := GenExpr(e1, Some(r), base1, cs1);
            var g2 := GenExpr(e2, Some(r), base2, g1.cs);
            && Good(g1.cs) && DestOk(Some(r), g1.cs)
            && ExprPost(Some(r), cs1, r, g1.cs) && ExprPost(Some(r), g1.cs, r, g2.cs)
            && g1.r == r && g2.r == r
            && cs.pool <= g1.cs.pool <= g2.cs.pool
  {
    DestFacts(dest, cs);
    var (r, cs1) := Dest(dest, cs);
    ExprFacts(e1, Some(r), base1, cs1);
    var g1 := GenExpr(e1, Some(r), base1, cs1);
    ExprFacts(e2, Some(r), base2, g1.cs);
  }

  // The pieces of the code of `l ?? r`.
  lemma CoalesceShape(x: Ctx, e: Expr, dest: Option<nat>, base: nat, cs: CState, env: Env, dead: set<string>,
      m: Machine)
    requires e.Coalesce? && ExprPre(x, e, dest, base, cs, env, dead, m)
    ensures var ga := GenExpr(e.l, None, base, cs);
            var (r, cs1) := Dest(dest, ga.cs);
            var cs2 := FreeTemp(cs1, ga.r);
            var mid := base + |ga.code|;
            var alt := mid + 3;
            var gb := GenExpr(e.r, Some(r), alt, cs2);
            var end := alt + |gb.code|;
            var g := GenExpr(e, dest, base, cs);
            && ExprPre(x, e.l, None, base, cs, env, dead, m)
            && alt <= |x.p.code| && x.p.code[mid] == JumpIfNull(ga.r, At(alt))
            && x.p.code[mid + 1] == Move(r, ga.r) && x.p.code[mid + 2] == Jump(At(end))
            && Fits(x, gb.code, alt, gb.cs.pool)
            && Good(cs2) && DestOk(Some(r), cs2) && ExprPost(None, cs, ga.r, ga.cs)
            && gb.r == r && g.r == r && base + |g.code| == end
            && ExprLits(e.r) <= x.lits && ExprNames(e.r) !! dead
  {
    hide Good, GoodRegs, PoolOk, CodeAt, Alloc, AllocTemp, FreeTemp, Dest, Fits, Keeps, ExprPost, SameScope, Agrees,
         PlusTemp, SameBusy;
    var g := GenExpr(e, dest, base, cs);
    var ga := GenExpr(e.l, None, base, cs);
    ExprFacts(e.l, None, base, cs);
    var (r, cs1) := Dest(dest, ga.cs);
    var cs2 := FreeTemp(cs1, ga.r);
    var alt := base + |ga.code| + 3;
    var gb := GenExpr(e.r, Some(r), alt, cs2);
    CoalesceSeq(dest, cs, ga.r, ga.cs, e.r, alt);
    FitsHead3(x, ga.code, [JumpIfNull(ga.r, At(alt)), Move(r, ga.r), Jump(At(alt + |gb.code|))], gb.code, base,
              gb.cs.pool, ga.cs.pool);
  }

  lemma {:induction false} RunCoalesce(x: Ctx, e: Expr, dest: Option<nat>, base: nat, cs: CState, env: Env,
      dead: set<string>, m: Machine)
    returns (n: nat, m2: Machine)
    requires e.Coalesce? && ExprPre(x, e, dest, base, cs, env, dead, m)
    ensures ExprRuns(x, e, dest, base, cs, env, m, n, m2)
    decreases e, 0
  {
    hide GenExpr, Good, GoodRegs, Agrees, PoolOk, CodeAt, Alloc, AllocTemp, Dest, FreeTemp, Fits, Keeps, ExprPost,
         SameScope, PlusTemp, SameBusy;
    CoalesceShape(x, e, dest, base, cs, env, dead, m);
    var ga := GenExpr(e.l, None, base, cs);
    var (r, cs1) := Dest(dest, ga.cs);
    var cs2 := FreeTemp(cs1, ga.r);
    var alt := base + |ga.code| + 3;
    var n1, m1 := RunExpr(x, e.l, None, base, cs, env, dead, m);
    AfterExpr(x, e.l, None, base, cs, env, dead, m, n1, m1);
    ThenStep(x.ops, x.p, m, n1, m1);
    n, m2 := n1 + 1, Step(x.ops, x.p, m1);
    if RawEval(x.ops, env, e.l) != Null {
      ThenStep(x.ops, x.p, m, n, m2);
      ThenStep(x.ops, x.p, m, n + 1, Step(x.ops, x.p, m2));
      n, m2 := n + 2, Step(x.ops, x.p, Step(x.ops, x.p, m2));
      CoalesceKeeps(dest, cs, ga.r, ga.cs, m.regs, m1.regs, RawEval(x.ops, env, e.l));
    } else {
      CoalesceAgrees(x, dest, cs, ga.r, ga.cs, env, dead, m1.regs);
      var n2, m3 := RunExpr(x, e.r, Some(r), alt, cs2, env, dead, m2);
      Chain(x.ops, x.p, m, n, m2, n2, m3);
      CoalesceTrans(dest, cs, ga.r, ga.cs, m.regs, m1.regs, m3.regs);
      n, m2 := n + n2, m3;
    }
  }

  lemma FitsHead3(x: Ctx, c: Code, head: Code, d: Code, base: nat, pool: seq<Value>, pool0: seq<Value>)
    requires Fits(x, c + head + d, base, pool) && pool0 <= pool && |head| == 3
    ensures Fits(x, c, base, pool0) && Fits(x, d, base + |c| + 3, pool)
    ensures base + |c| + 2 < |x.p.code|
    ensures x.p.code[base + |c|] == Resolved(head[0], x.fixes)
    ensures x.p.code[base + |c| + 1] == Resolved(head[1], x.fixes)
    ensures x.p.code[base + |c| + 2] == Resolved(head[2], x.fixes)
  {
    assert c + head + d == c + [head[0]] + ([head[1]] + ([head[2]] + d));
    FitsMid(x, c, head[0], [head[1]] + ([head[2]] + d), base, pool, pool0);
    assert [head[1]] + ([head[2]] + d) == [] + [head[1]] + ([head[2]] + d);
    FitsMid(x, [], head[1], [head[2]] + d, base + |c| + 1, pool, pool0);
    assert [head[2]] + d == [] + [head[2]] + d;
    FitsMid(x, [], head[2], d, base + |c| + 2, pool, pool0);
  }

  lemma CoalesceSeq(dest: Option<nat>, cs: CState, ra: nat, csA: CState, e2: Expr, alt: nat)
    requires Good(cs) && DestOk(dest, cs) && ExprPost(None, cs, ra, csA)
    ensures var (r, cs1) := Dest(dest, csA);
            var cs2 := FreeTemp(cs1, ra);
            var g2 := GenExpr(e2, Some(r), alt, cs2);
            && Good(cs2) && DestOk(Some(r), cs2) && g2.r == r
            && ExprPost(Some(r), cs2, r, g2.cs)
            && csA.pool <= g2.cs.pool
  {
    OneOperand(dest, cs, ra, csA);
    PoolGrows(dest, csA);
    var (r, cs1) := Dest(dest, csA);
    ExprFacts(e2, Some(r), alt, FreeTemp(cs1, ra));
  }

  lemma CoalesceKeeps(dest: Option<nat>, cs: CState, ra: nat, csA: CState, a: Regs, b: Regs, v: Value)
    requires Good(cs) && DestOk(dest, cs) && ExprPost(None, cs, ra, csA) && Keeps(cs, None, a, b)
    ensures Keeps(cs, dest, a, b[Dest(dest, csA).0 := v])
  {
    OneOperand(dest, cs, ra, csA);
    KeepsSet(cs, dest, csA, a, b, v);
  }

  lemma CoalesceAgrees(x: Ctx, dest: Option<nat>, cs: CState, ra: nat, csA: CState, env: Env, dead: set<string>,
      regs: Regs)
    requires Good(cs) && DestOk(dest, cs) && ExprPost(None, cs, ra, csA)
    requires Agrees(x.ops, dead, env, csA.locals, regs)
    ensures Agrees(x.ops, dead, env, FreeTemp(Dest(dest, csA).1, ra).locals, regs)
  {
  }

  lemma CoalesceTrans(dest: Option<nat>, cs: CState, ra: nat, csA: CState, a: Regs, b: Regs, c: Regs)
    requires Good(cs) && DestOk(dest, cs) && ExprPost(None, cs, ra, csA)
    requires Keeps(cs, None, a, b)
    requires var (r, cs1) := Dest(dest, csA); Keeps(FreeTemp(cs1, ra), Some(r), b, c)
    ensures Keeps(cs, dest, a, c)
  {
    OneOperand(dest, cs, ra, csA);
    var (r, cs1) := Dest(dest, csA);
    var cs2 := FreeTemp(cs1, ra);
    assert forall q :: Busy(cs.rs, q) ==> Busy(cs2.rs, q);
  }

  lemma {:induction false} RunTernary(x: Ctx, e: Expr, dest: Option<nat>, base: nat, cs: CState, env: Env,
      dead: set<string>, m: Machine)
    returns (n: nat, m2: Machine)
    requires e.Ternary? && ExprPre(x, e, dest, base, cs, env, dead, m)
    ensures ExprRuns(x, e, dest, base, cs, env, m, n, m2)
    decreases e, 0
  {
    hide GenExpr, Good, GoodRegs, Agrees, PoolOk, CodeAt, Alloc, AllocTemp, Dest, FreeTemp, Fits, Keeps, ExprPost,
         SameScope, PlusTemp, SameBusy, EvalExpr, ExprLits, ExprNames, DestOk;
    TernaryShape(x, e, dest, base, cs, env, dead, m);
    var gc := GenExpr(e.c, None, base, cs);
    var (r, cs1) := Dest(dest, FreeTemp(gc.cs, gc.r));
    var thenAt := base + |gc.code| + 1;
    var gt := GenExpr(e.t, Some(r), thenAt, cs1);
    var alt := thenAt + |gt.code| + 1;
    var n1, m1 := RunExpr(x, e.c, None, base, cs, env, dead, m);
    AfterExpr(x, e.c, None, base, cs, env, dead, m, n1, m1);
    ThenStep(x.ops, x.p, m, n1, m1);
    var m1' := Step(x.ops, x.p, m1);
    TernaryAgrees(x, dest, cs, gc.r, gc.cs, env, dead, m1.regs);
    if Truthy(RawEval(x.ops, env, e.c)) {
      var n2, m3 := RunExpr(x, e.t, Some(r), thenAt, cs1, env, dead, m1');
      Chain(x.ops, x.p, m, n1 + 1, m1', n2, m3);
      ThenStep(x.ops, x.p, m, n1 + 1 + n2, m3);
      n, m2 := n1 + 1 + n2 + 1, Step(x.ops, x.p, m3);
      TernaryKeeps(dest, cs, gc.r, gc.cs, m.regs, m1.regs, m3.regs);
    } else {
      SameScopeAgrees(x, r, cs1, gt.cs, env, dead, m1.regs);
      var n2, m3 := RunExpr(x, e.f, Some(r), alt, gt.cs, env, dead, m1');
      Chain(x.ops, x.p, m, n1 + 1, m1', n2, m3);
      n, m2 := n1 + 1 + n2, m3;
      SameBusyKeeps(r, cs1, gt.cs, m1.regs, m3.regs);
      TernaryKeeps(dest, cs, gc.r, gc.cs, m.regs, m1.regs, m3.regs);
    }
  }

  lemma SameScopeAgrees(x: Ctx, r: nat, a: CState, b: CState, env: Env, dead: set<string>, regs: Regs)
    requires ExprPost(Some(r), a, r, b) && Agrees(x.ops, dead, env, a.locals, regs)
    ensures Agrees(x.ops, dead, env, b.locals, regs)
  {
  }

  lemma SameBusyKeeps(r: nat, a: CState, b: CState, p: Regs, q: Regs)
    requires ExprPost(Some(r), a, r, b) && Keeps(b, Some(r), p, q)
    ensures Keeps(a, Some(r), p, q)
  {
  }

  // The registers along the code of `c ? t : f`.
  lemma TernarySeq(e: Expr, dest: Option<nat>, base: nat, cs: CState)
    requires e.Ternary? && Good(cs) && DestOk(dest, cs)
    ensures var gc := GenExpr(e.c, None, base, cs);
            var (r, cs1) := Dest(dest, FreeTemp(gc.cs, gc.r));
            var thenAt := base + |gc.code| + 1;
            var gt := GenExpr(e.t, Some(r), thenAt, cs1);
            var gf := GenExpr(e.f, Some(r), thenAt + |gt.code| + 1, gt.cs);
            && ExprPost(None, cs, gc.r, gc.cs)
            && Good(cs1) && DestOk(Some(r), cs1) && Good(gt.cs) && DestOk(Some(r), gt.cs)
            && ExprPost(Some(r), cs1, r, gt.cs)
            && gt.r == r && gf.r == r && gc.cs.pool <= gt.cs.pool <= gf.cs.pool
  {
    hide GenExpr, Alloc, AllocTemp, Dest, Free;
    ExprFacts(e.c, None, base, cs);
    var gc := GenExpr(e.c, None, base, cs);
    var cs0 := FreeTemp(gc.cs, gc.r);
    FreeResult(cs, gc.r, gc.cs);
    DestSame(dest, cs, cs0);
    DestFacts(dest, cs0);
    var (r, cs1) := Dest(dest, cs0);
    var thenAt := base + |gc.code| + 1;
    DestSeq(dest, cs0, e.t, thenAt, e.f, thenAt + |GenExpr(e.t, Some(r), thenAt, cs1).code| + 1);
  }

  // The pieces of the code of `c ? t : f`.
  lemma TernaryShape(x: Ctx, e: Expr, dest: Option<nat>, base: nat, cs: CState, env: Env, dead: set<string>, m: Machine)
    requires e.Ternary? && ExprPre(x, e, dest, base, cs, env, dead, m)
    ensures var gc := GenExpr(e.c, None, base, cs);
            var (r, cs1) := Dest(dest, FreeTemp(gc.cs, gc.r));
            var thenAt := base + |gc.code| + 1;
            var gt := GenExpr(e.t, Some(r), thenAt, cs1);
            var alt := thenAt + |gt.code| + 1;
            var gf := GenExpr(e.f, Some(r), alt, gt.cs);
            var g := GenExpr(e, dest, base, cs);
            && ExprPre(x, e.c, None, base, cs, env, dead, m)
            && Fits(x, gt.code, thenAt, gt.cs.pool) && Fits(x, gf.code, alt, gf.cs.pool)
            && alt <= |x.p.code|
            && x.p.code[thenAt - 1] == JumpIfFalse(gc.r, At(alt))
            && x.p.code[alt - 1] == Jump(At(alt + |gf.code|))
            && ExprPost(None, cs, gc.r, gc.cs)
            && Good(cs1) && DestOk(Some(r), cs1) && Good(gt.cs) && DestOk(Some(r), gt.cs)
            && ExprPost(Some(r), cs1, r, gt.cs)
            && gt.r == r && gf.r == r && g.r == r && base + |g.code| == alt + |gf.code|
            && ExprLits(e.t) <= x.lits && ExprNames(e.t) !! dead
            && ExprLits(e.f) <= x.lits && ExprNames(e.f) !! dead
  {
    hide Good, GoodRegs, PoolOk, CodeAt, Alloc, AllocTemp, Dest, FreeTemp, Fits, ExprPost, Agrees, DestOk;
    TernarySeq(e, dest, base, cs);
    var gc := GenExpr(e.c, None, base, cs);
    var (r, cs1) := Dest(dest, FreeTemp(gc.cs, gc.r));
    var thenAt := base + |gc.code| + 1;
    var gt := GenExpr(e.t, Some(r), thenAt, cs1);
    var alt := thenAt + |gt.code| + 1;
    var gf := GenExpr(e.f, Some(r), alt, gt.cs);
    NoDest(cs);
    var jf := JumpIfFalse(gc.r, At(alt));
    var j := Jump(At(alt + |gf.code|));
    assert gc.code + [jf] + gt.code + [j] + gf.code == gc.code + [jf] + (gt.code + [j] + gf.code);
    FitsMid(x, gc.code, jf, gt.code + [j] + gf.code, base, gf.cs.pool, gc.cs.pool);
    FitsMid(x, gt.code, j, gf.code, thenAt, gf.cs.pool, gt.cs.pool);
  }

  lemma NoDest(cs: CState)
    ensures DestOk(None, cs)
  {
  }

  lemma TernaryAgrees(x: Ctx, dest: Option<nat>, cs: CState, rc: nat, csC: CState, env: Env, dead: set<string>, b: Regs)
    requires Good(cs) && DestOk(dest, cs) && ExprPost(None, cs, rc, csC)
    requires Agrees(x.ops, dead, env, csC.locals, b)
    ensures Agrees(x.ops, dead, env, Dest(dest, FreeTemp(csC, rc)).1.locals, b)
  {
  }

  lemma TernaryKeeps(dest: Option<nat>, cs: CState, rc: nat, csC: CState, a: Regs, b: Regs, c: Regs)
    requires Good(cs) && DestOk(dest, cs) && ExprPost(None, cs, rc, csC)
    requires Keeps(cs, None, a, b)
    requires var (r, cs1) := Dest(dest, FreeTemp(csC, rc)); Keeps(cs1, Some(r), b, c)
    ensures Keeps(cs, dest, a, c)
  {
    FreeResult(cs, rc, csC);
    var cs0 := FreeTemp(csC, rc);
    DestSame(dest, cs, cs0);
    KeepsUnder(dest, cs0, b, c);
  }
}
