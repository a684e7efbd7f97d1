/** Running the effects, output statements, loop tests and switch comparisons. */
module EffectProof {
  import opened Options
  import opened Values
  import opened Syntax
  import opened Interpreter
  import opened Bytecode
  import opened CodeGen
  import opened RegisterDiscipline
  import opened ScopeDiscipline
  import opened GenFacts
  import opened Discipline
  import opened RawValues
  import opened EnvFacts
  import opened Simulation
  import opened ExprProof
  import opened LeafProof

  lemma RunAssign(x: Ctx, y: string, aop: AssignOp, rhs: Expr, base: nat, cs: CState,
                  env: Env, dead: set<string>, wr: set<string>, m: Machine) returns (n: nat, m2: Machine)
    requires AssignPre(x, y, aop, rhs, base, cs, env, dead, wr, m)
    ensures var g := GenAssign(y, aop, rhs, base, cs);
            EffectRuns(x, cs, g.cs, base + |g.code|, SetVar(env, y, NewValue(x.ops, env, Assign(y, aop, rhs))), dead,
                       wr, m, n, m2)
  {
    hide AssignPre, EffectRuns, GenAssign, SetVar, NewValue;
    if Slot(cs.locals, y).None? {
      if aop.Plain? {
        n, m2 := RunDeclare(x, y, rhs, base, cs, env, dead, wr, m);
      } else {
        n, m2 := RunDeclareCompound(x, y, aop, rhs, base, cs, env, dead, wr, m);
      }
    } else if aop.Plain? || aop.op == Concat {
      n, m2 := RunAssignSlot(x, y, aop, rhs, base, cs, env, dead, wr, m);
    } else {
      n, m2 := RunCompoundSlot(x, y, aop, rhs, base, cs, env, dead, wr, m);
    }
  }

  ghost predicate EffectPre(x: Ctx, f: Effect, code: Code, base: nat, cs: CState, pool: seq<Value>,
                            env: Env, dead: set<string>, wr: set<string>, m: Machine) {
    && Good(cs) && Stands(m, base) && Fits(x, code, base, pool)
    && EffectLits(f) <= x.lits && EffectNames(f) !! dead && EffectTarget(f) <= wr
    && (f.Assign? ==> ValueOk(f.rhs)) && (f.IncDec? ==> Slot(cs.locals, f.x).Some?)
    && NoShadow(env) && env != [] && Agrees(x.ops, dead, env, cs.locals, m.regs)
  }

  function EffectEnv(ops: Ops, f: Effect, env: Env): Env {
    ExecEffect(ops, f, St(env, "")).env
  }

  lemma RunEval(x: Ctx, f: Effect, base: nat, cs: CState, env: Env, dead: set<string>, wr: set<string>, m: Machine)
    returns (n: nat, m2: Machine)
    requires f.Eval? && EffectPre(x, f, GenExpr(f.e, None, base, cs).code, base, cs,
                                  GenExpr(f.e, None, base, cs).cs.pool, env, dead, wr, m)
    ensures var g := GenExpr(f.e, None, base, cs);
            EffectRuns(x, cs, FreeTemp(g.cs, g.r), base + |g.code|, env, dead, wr, m, n, m2)
  {
    n, m2 := RunExpr(x, f.e, None, base, cs, env, dead, m);
    AfterExpr(x, f.e, None, base, cs, env, dead, m, n, m2);
    KeepsButSelf(cs, wr, m.regs, m2.regs);
  }

  // Three fresh temporaries.
  lemma FreshThree(cs: CState, k: Option<Value>)
    requires Good(cs)
    ensures var (one, cs1) := AllocTemp(cs); var (r, cs2) := AllocTemp(cs1);
            var cs3 := if k.Some? then AddConst(cs2, k.value).1 else cs2;
            var (nv, cs4) := AllocTemp(cs3);
            && !Busy(cs.rs, one) && !Busy(cs.rs, r) && !Busy(cs.rs, nv) && one != r && r != nv && one != nv
            && FreeTemp(FreeTemp(cs4, nv), one).locals == cs.locals
  {
    AllocFacts(cs);
    AllocFacts(AllocTemp(cs).1);
    var cs2 := AllocTemp(AllocTemp(cs).1).1;
    var cs3 := if k.Some? then AddConst(cs2, k.value).1 else cs2;
    if k.Some? {
      ConstFacts(cs2, k.value);
    }
    AllocFacts(cs3);
  }

  lemma ScratchAgrees(ops: Ops, dead: set<string>, env: Env, cs: CState, b: Regs, t: nat, v: Value)
    requires Good(cs) && !Busy(cs.rs, t) && Agrees(ops, dead, env, cs.locals, b)
    ensures Agrees(ops, dead, env, cs.locals, b[t := v])
  {
    Scratch(ops, dead, env, cs, b, b, t, v);
  }

  lemma FitsAt(x: Ctx, c: Code, base: nat, pool: seq<Value>)
    requires Fits(x, c, base, pool)
    ensures base + |c| <= |x.p.code| && forall i :: 0 <= i < |c| ==> x.p.code[base + i] == Resolved(c[i], x.fixes)
  {
  }

  lemma IncDecSteps(x: Ctx, op: BinOp, one: nat, r: nat, nv: nat, s: nat, prefix: bool, base: nat, pool: seq<Value>,
      m: Machine)
    returns (n: nat, m2: Machine)
    requires m.Running? && m.pc == base && one != r && r != nv && one != nv
    requires Fits(x, [LoadInt(one, 1), Move(r, s), Bin2(op, nv, r, one), Move(s, nv)]
                  + (if prefix then [Move(r, nv)] else []), base, pool)
    requires s != one && s != r && s != nv
    ensures var v := Apply2(x.ops, op, Reg(m.regs, s), Int(1));
            var b := m.regs[one := Int(1)][r := Reg(m.regs, s)][nv := v][s := v];
            && Run(x.ops, x.p, m, n) == m2
            && m2 == m.(pc := base + (if prefix then 5 else 4), regs := if prefix then b[r := v] else b)
  {
    hide Step, Fits, CodeAt, Apply2;
    FitsAt(x, [LoadInt(one, 1), Move(r, s), Bin2(op, nv, r, one), Move(s, nv)]
           + (if prefix then [Move(r, nv)] else []), base, pool);
    var code := [LoadInt(one, 1), Move(r, s), Bin2(op, nv, r, one), Move(s, nv)]
      + (if prefix then [Move(r, nv)] else []);
    assert x.p.code[base + 0] == code[0];
    assert x.p.code[base + 1] == code[1];
    assert x.p.code[base + 2] == code[2];
    assert x.p.code[base + 3] == code[3];
    OneStep(x.ops, x.p, m);
    IntStep(x, m, one, 1);
    var m1 := Step(x.ops, x.p, m);
    ThenStep(x.ops, x.p, m, 1, m1);
    MoveStep(x, m1, r, s);
    var m2' := Step(x.ops, x.p, m1);
    ThenStep(x.ops, x.p, m, 2, m2');
    BinStep(x, m2', op, nv, r, one);
    var m3 := Step(x.ops, x.p, m2');
    ThenStep(x.ops, x.p, m, 3, m3);
    MoveStep(x, m3, s, nv);
    var m4 := Step(x.ops, x.p, m3);
    n, m2 := 4, m4;
    if prefix {
      assert x.p.code[base + 4] == code[4];
      ThenStep(x.ops, x.p, m, 4, m4);
      MoveStep(x, m4, r, nv);
      n, m2 := 5, Step(x.ops, x.p, m4);
    }
  }

  lemma IntStep(x: Ctx, m: Machine, a: nat, k: int)
    requires m.Running? && m.pc < |x.p.code| && x.p.code[m.pc] == LoadInt(a, k)
    ensures Step(x.ops, x.p, m) == m.(pc := m.pc + 1, regs := m.regs[a := Int(k)])
  {
  }

  lemma BinStep(x: Ctx, m: Machine, op: BinOp, a: nat, b: nat, c: nat)
    requires m.Running? && m.pc < |x.p.code| && x.p.code[m.pc] == Bin2(op, a, b, c)
    ensures Step(x.ops, x.p, m) == m.(pc := m.pc + 1,
                                      regs := m.regs[a := Apply2(x.ops, op, Reg(m.regs, b), Reg(m.regs, c))])
  {
  }

  lemma RunIncDec(x: Ctx, f: Effect, base: nat, cs: CState, env: Env, dead: set<string>, wr: set<string>, m: Machine)
    returns (n: nat, m2: Machine)
    requires f.IncDec?
    requires var g := GenIncDec(f.x, f.inc, f.prefix, cs);
             EffectPre(x, f, g.code, base, cs, g.cs.pool, env, dead, wr, m)
    ensures var g := GenIncDec(f.x, f.inc, f.prefix, cs);
            EffectRuns(x, cs, FreeTemp(g.cs, g.r), base + |g.code|, SetVar(env, f.x, NewValue(x.ops, env, f)), dead,
                       wr, m, n, m2)
  {
    hide Good, Agrees, AllocTemp, FreeTemp, Fits, Keeps, Busy, KeepsBut, SetVar, AddConst, Step;
    var op := if f.inc then Add else Sub;
    var s := Slot(cs.locals, f.x).value;
    var (one, cs1) := AllocTemp(cs);
    var (r, cs2) := AllocTemp(cs1);
    var (nv, cs3) := AllocTemp(cs2);
    FreshThree(cs, None);
    var g := GenIncDec(f.x, f.inc, f.prefix, cs);
    KeepFree(g.cs, r);
    SlotFresh(cs, f.x, one, r, nv);
    SlotValue(x.ops, dead, env, cs.locals, m.regs, f.x);
    n, m2 := IncDecSteps(x, op, one, r, nv, s, f.prefix, base, g.cs.pool, m);
    var v := NewValue(x.ops, env, f);
    var old0 := Lookup(x.ops, env, f.x);
    KeepsRefl(cs, m.regs);
    Scratch(x.ops, dead, env, cs, m.regs, m.regs, one, Int(1));
    var b1 := m.regs[one := Int(1)];
    Scratch(x.ops, dead, env, cs, m.regs, b1, r, old0);
    var b2 := b1[r := old0];
    Scratch(x.ops, dead, env, cs, m.regs, b2, nv, v);
    var b3 := b2[nv := v];
    SetAgrees(x.ops, dead, env, cs, f.x, v, b3);
    KeepsSlot(cs, f.x, wr, m.regs, b3, v);
    if f.prefix {
      ScratchAgrees(x.ops, dead, SetVar(env, f.x, v), cs, b3[s := v], r, v);
      KeepsButScratch(cs, wr, m.regs, b3[s := v], r, v);
    }
  }

  lemma SlotFresh(cs: CState, y: string, a: nat, b: nat, c: nat)
    requires Good(cs) && Slot(cs.locals, y).Some? && !Busy(cs.rs, a) && !Busy(cs.rs, b) && !Busy(cs.rs, c)
    ensures var s := Slot(cs.locals, y).value; s != a && s != b && s != c
  {
    SlotHeld(cs, y);
  }

  lemma KeepsButScratch(cs: CState, wr: set<string>, a: Regs, b: Regs, t: nat, v: Value)
    requires KeepsBut(cs, wr, a, b) && !Busy(cs.rs, t)
    ensures KeepsBut(cs, wr, a, b[t := v])
  {
  }

  lemma RunEffect(x: Ctx, f: Effect, base: nat, cs: CState, env: Env, dead: set<string>, wr: set<string>, m: Machine)
    returns (n: nat, m2: Machine)
    requires var g := GenEffect(f, base, cs); EffectPre(x, f, g.code, base, cs, g.cs.pool, env, dead, wr, m)
    ensures var g := GenEffect(f, base, cs);
            EffectRuns(x, cs, g.cs, base + |g.code|, EffectEnv(x.ops, f, env), dead, wr, m, n, m2)
  {
    hide Good, Agrees, AllocTemp, Alloc, Free, Fits, EffectRuns, GenIncDec, GenAssign, GenExpr, SetVar;
    match f
    case Eval(e) => n, m2 := RunEval(x, f, base, cs, env, dead, wr, m);
    case Assign(y, aop, rhs) => n, m2 := RunAssign(x, y, aop, rhs, base, cs, env, dead, wr, m);
    case IncDec(y, _, _) =>
      PoolFree(GenIncDec(f.x, f.inc, f.prefix, cs).cs, GenIncDec(f.x, f.inc, f.prefix, cs).r);
      n, m2 := RunIncDec(x, f, base, cs, env, dead, wr, m);
  }

  lemma PoolFree(cs: CState, r: nat)
    ensures FreeTemp(cs, r).pool == cs.pool
  {
  }

  // ---------- the step of a for loop ----------

  // An assignment whose value is copied to a fresh register.
  lemma RunAssignValue(x: Ctx, f: Effect, base: nat, cs: CState, env: Env, dead: set<string>, wr: set<string>,
      m: Machine)
    returns (n: nat, m2: Machine)
    requires f.Assign? && Slot(cs.locals, f.x).Some?
    requires var g := GenEffectValue(f, base, cs); EffectPre(x, f, g.code, base, cs, g.cs.pool, env, dead, wr, m)
    ensures var g := GenEffectValue(f, base, cs);
            EffectRuns(x, cs, FreeTemp(g.cs, g.r), base + |g.code|, SetVar(env, f.x, NewValue(x.ops, env, f)), dead,
                       wr, m, n, m2)
  {
    hide Good, Agrees, AllocTemp, FreeTemp, Fits, Keeps, Busy, KeepsBut, SetVar, GenAssign, Step, Neutral, StmtPost;
    AssignFacts(f.x, f.aop, f.rhs, base, cs);
    var ga := GenAssign(f.x, f.aop, f.rhs, base, cs);
    var (r, cs1) := AllocTemp(ga.cs);
    NeutralLocals(cs, ga.cs);
    FreshOne(ga.cs);
    var s := Slot(cs.locals, f.x).value;
    FitsEnd(x, ga.code, Move(r, s), base, cs1.pool, ga.cs.pool);
    var n1, m1 := RunAssign(x, f.x, f.aop, f.rhs, base, cs, env, dead, wr, m);
    ThenStep(x.ops, x.p, m, n1, m1);
    n, m2 := n1 + 1, Step(x.ops, x.p, m1);
    MoveStep(x, m1, r, s);
    KeepFree(cs1, r);
    ScratchAgrees(x.ops, dead, SetVar(env, f.x, NewValue(x.ops, env, f)), ga.cs, m1.regs, r, Reg(m1.regs, s));
    NeutralFree(cs, ga.cs, r);
    KeepsButScratch(cs, wr, m.regs, m1.regs, r, Reg(m1.regs, s));
  }

  lemma MoveStep(x: Ctx, m: Machine, a: nat, b: nat)
    requires m.Running? && m.pc < |x.p.code| && x.p.code[m.pc] == Move(a, b)
    ensures Step(x.ops, x.p, m) == m.(pc := m.pc + 1, regs := m.regs[a := Reg(m.regs, b)])
  {
  }

  lemma NeutralLocals(cs: CState, cs1: CState)
    requires Neutral(cs, cs1)
    ensures Good(cs1) && cs1.locals == cs.locals && cs.pool <= cs1.pool
  {
  }

  lemma NeutralFree(cs: CState, cs1: CState, r: nat)
    requires Neutral(cs, cs1) && !Busy(cs1.rs, r)
    ensures !Busy(cs.rs, r)
  {
  }

  lemma FreshOne(cs: CState)
    requires Good(cs)
    ensures var (r, cs1) := AllocTemp(cs); !Busy(cs.rs, r) && cs1.locals == cs.locals && cs1.pool == cs.pool
  {
    AllocFacts(cs);
  }

  lemma RunPost(x: Ctx, post: Option<Effect>, base: nat, cs: CState, env: Env, dead: set<string>, wr: set<string>,
      m: Machine)
    returns (n: nat, m2: Machine)
    requires Good(cs) && Stands(m, base) && NoShadow(env) && env != [] && Agrees(x.ops, dead, env, cs.locals, m.regs)
    requires var g := GenPost(post, base, cs); Fits(x, g.code, base, g.cs.pool)
    requires post.Some? ==> var f := post.value;
               && EffectLits(f) <= x.lits && EffectNames(f) !! dead && EffectTarget(f) <= wr
               && (f.Assign? ==> ValueOk(f.rhs)) && (!f.Eval? ==> Slot(cs.locals, f.x).Some?)
    ensures var g := GenPost(post, base, cs);
            && EffectRuns(x, cs, g.cs, base + |g.code|, if post.Some? then EffectEnv(x.ops, post.value, env)
                          else env, dead, wr, m, n, m2)
            && Neutral(cs, g.cs)
  {
    hide Good, Agrees, AllocTemp, Alloc, FreeTemp, Fits, GenIncDec, GenAssign, GenExpr, SetVar, Neutral, KeepsBut;
    PostNeutral(post, base, cs);
    if post.None? {
      KeepsRefl(cs, m.regs);
      KeepsButSelf(cs, wr, m.regs, m.regs);
      n, m2 := 0, m;
    } else {
      var f := post.value;
      var g := GenEffectValue(f, base, cs);
      PoolFree(g.cs, g.r);
      match f
      case Eval(e) => n, m2 := RunEval(x, f, base, cs, env, dead, wr, m);
      case Assign(y, aop, rhs) => n, m2 := RunAssignValue(x, f, base, cs, env, dead, wr, m);
      case IncDec(y, _, _) => n, m2 := RunIncDec(x, f, base, cs, env, dead, wr, m);
    }
  }

  lemma PostNeutral(post: Option<Effect>, base: nat, cs: CState)
    requires Good(cs)
    requires post.Some? && !post.value.Eval? ==> Slot(cs.locals, post.value.x).Some?
    ensures Neutral(cs, GenPost(post, base, cs).cs)
  {
    hide Good, AllocTemp, FreeTemp, GenIncDec, GenAssign, GenExpr, Neutral, SameBusy, PlusTemp;
    if post.None? {
      NeutralRefl(cs);
    } else {
      var f := post.value;
      EffectValueFacts(f, base, cs);
      var g := GenEffectValue(f, base, cs);
      if f.Assign? {
        AssignFacts(f.x, f.aop, f.rhs, base, cs);
        var ga := GenAssign(f.x, f.aop, f.rhs, base, cs);
        NeutralLocals(cs, ga.cs);
        AllocNeutral(ga.cs);
        NeutralTrans(cs, ga.cs, FreeTemp(g.cs, g.r));
      } else {
        NeutralResult(cs, g.r, g.cs);
      }
    }
  }

  lemma NeutralResult(cs: CState, r: nat, cs1: CState)
    requires Good(cs) && ExprPost(None, cs, r, cs1)
    ensures Neutral(cs, FreeTemp(cs1, r))
  {
    FreeResult(cs, r, cs1);
  }

  // ---------- tests ----------

  // The condition, then the jump: to `t` when it fails, else past it.
  lemma RunCond(x: Ctx, c: Expr, t: Target, base: nat, cs: CState, pool: seq<Value>, env: Env, dead: set<string>,
      m: Machine)
    returns (n: nat, m2: Machine)
    requires Good(cs) && Stands(m, base) && Agrees(x.ops, dead, env, cs.locals, m.regs)
    requires var g := GenExpr(c, None, base, cs);
             && Fits(x, g.code, base, pool) && g.cs.pool <= pool
             && base + |g.code| < |x.p.code| && x.p.code[base + |g.code|] == JumpIfFalse(g.r, t) && t.At?
    requires TruthOk(c) && ExprLits(c) <= x.lits && ExprNames(c) !! dead
    ensures var g := GenExpr(c, None, base, cs);
            var cs1 := FreeTemp(g.cs, g.r);
            && n > 0 && Run(x.ops, x.p, m, n) == m2 && m2.Running?
            && m2 == m.(pc := if Truthy(EvalExpr(x.ops, env, c)) then base + |g.code| + 1 else t.ip, regs := m2.regs)
            && Keeps(cs, None, m.regs, m2.regs)
            && Neutral(cs, cs1) && Agrees(x.ops, dead, env, cs1.locals, m2.regs)
  {
    hide Good, Agrees, Keeps, Neutral, ExprPost, Fits, GenExpr, Free;
    var g := GenExpr(c, None, base, cs);
    CondFits(x, c, base, cs, pool);
    NoDest(cs);
    var n1, m1 := RunExpr(x, c, None, base, cs, env, dead, m);
    AfterExpr(x, c, None, base, cs, env, dead, m, n1, m1);
    RawAgrees(x.ops, env, c);
    ExprNeutral(c, base, cs);
    ThenStep(x.ops, x.p, m, n1, m1);
    KeepFree(g.cs, g.r);
    n, m2 := n1 + 1, Step(x.ops, x.p, m1);
  }

  lemma CondFits(x: Ctx, c: Expr, base: nat, cs: CState, pool: seq<Value>)
    requires var g := GenExpr(c, None, base, cs); Fits(x, g.code, base, pool) && g.cs.pool <= pool
    ensures var g := GenExpr(c, None, base, cs); Fits(x, g.code, base, g.cs.pool)
  {
  }

  // ---------- output ----------

  lemma RunLiteralOut(x: Ctx, text: string, base: nat, cs: CState, env: Env, dead: set<string>, m: Machine)
    returns (n: nat, m2: Machine)
    requires Good(cs) && Stands(m, base) && Agrees(x.ops, dead, env, cs.locals, m.regs)
    requires var g := GenLiteralOut(text, cs); Fits(x, g.code, base, g.cs.pool)
    ensures var g := GenLiteralOut(text, cs);
            && Run(x.ops, x.p, m, n) == m2 && m2.Running?
            && m2 == m.(pc := base + |g.code|, regs := m2.regs, out := m.out + text)
            && Agrees(x.ops, dead, env, g.cs.locals, m2.regs) && Keeps(cs, None, m.regs, m2.regs)
            && Neutral(cs, g.cs)
  {
    hide Good, Agrees, AllocTemp, FreeTemp, Keeps, Busy, Neutral, LoadValue, Fits;
    LiteralOutFacts(text, cs);
    FreshOne(cs);
    var (r, cs1) := AllocTemp(cs);
    var gl := LoadValue(r, Str(text), cs1);
    LoadShape(r, Str(text), cs1);
    PoolFree(gl.cs, r);
    FitsEnd(x, gl.code, CallWrite(r, r), base, gl.cs.pool, gl.cs.pool);
    RunLoad(x, r, Str(text), base, cs1, m);
    var m1 := m.(pc := base + 1, regs := m.regs[r := Str(text)]);
    KeepsRefl(cs, m.regs);
    Scratch(x.ops, dead, env, cs, m.regs, m.regs, r, Str(text));
    ThenStep(x.ops, x.p, m, 1, m1);
    n, m2 := 2, Step(x.ops, x.p, m1);
    Scratch(x.ops, dead, env, cs, m.regs, m1.regs, r, Null);
    KeepFree(gl.cs, r);
  }

  lemma LoadShape(r: nat, v: Value, cs: CState)
    ensures var g := LoadValue(r, v, cs); |g.code| == 1 && g.cs.locals == cs.locals && cs.pool <= g.cs.pool
  {
  }

  ghost predicate WritesRun(x: Ctx, cs: CState, g: Gen, text: string, base: nat, env: Env, dead: set<string>,
      m: Machine, n: nat, m2: Machine) {
    && m.Running? && m2.Running? && Run(x.ops, x.p, m, n) == m2
    && m2 == m.(pc := base + |g.code|, regs := m2.regs, out := m.out + text)
    && Agrees(x.ops, dead, env, g.cs.locals, m2.regs) && Keeps(cs, None, m.regs, m2.regs)
    && Neutral(cs, g.cs)
  }

  lemma WritesThen(x: Ctx, cs: CState, g: Gen, t: string, base: nat, env: Env, dead: set<string>, m: Machine, n: nat,
      m1: Machine,
                   g2: Gen, t2: string, n2: nat, m2: Machine)
    requires WritesRun(x, cs, g, t, base, env, dead, m, n, m1)
    requires WritesRun(x, g.cs, g2, t2, base + |g.code|, env, dead, m1, n2, m2)
    ensures WritesRun(x, cs, Gen(g.code + g2.code, g2.cs), t + t2, base, env, dead, m, n + n2, m2)
  {
    Chain(x.ops, x.p, m, n, m1, n2, m2);
    NeutralTrans(cs, g.cs, g2.cs);
    assert m.out + (t + t2) == (m.out + t) + t2;
  }

  // One argument: its value, then the builtin.
  lemma RunOneWrite(x: Ctx, e: Expr, base: nat, cs: CState, vis: set<string>, env: Env, dead: set<string>, m: Machine)
    returns (n: nat, m2: Machine)
    requires Good(cs) && Stands(m, base) && Agrees(x.ops, dead, env, cs.locals, m.regs) && Scope(env, vis)
    requires ValueOk(e) && !(e.Var? && e.x in vis) && ExprLits(e) <= x.lits && ExprNames(e) !! dead
    requires var g := GenExpr(e, None, base, cs); Fits(x, g.code + [CallWrite(g.r, g.r)], base, g.cs.pool)
    ensures var g := GenExpr(e, None, base, cs);
            WritesRun(x, cs, Gen(g.code + [CallWrite(g.r, g.r)], FreeTemp(g.cs, g.r)),
                      ToStr(x.ops, EvalExpr(x.ops, env, e)),
                      base, env, dead, m, n, m2)
  {
    hide Good, AllocTemp, Free, Fits, Neutral, GenExpr;
    var g := GenExpr(e, None, base, cs);
    ExprNeutral(e, base, cs);
    ExprFacts(e, None, base, cs);
    assert e.Var? ==> e.x !in dead;
    assert PlusTemp(cs.rs, g.cs.rs, g.r);
    FitsEnd(x, g.code, CallWrite(g.r, g.r), base, g.cs.pool, g.cs.pool);
    var n1, m1 := RunExpr(x, e, None, base, cs, env, dead, m);
    AfterExpr(x, e, None, base, cs, env, dead, m, n1, m1);
    RawAgrees(x.ops, env, e);
    ThenStep(x.ops, x.p, m, n1, m1);
    n, m2 := n1 + 1, Step(x.ops, x.p, m1);
    Scratch(x.ops, dead, env, cs, m.regs, m1.regs, g.r, Null);
  }

  lemma {:induction false} RunWrites(x: Ctx, args: Exprs, first: bool, base: nat, cs: CState, vis: set<string>,
      env: Env, dead: set<string>, m: Machine)
    returns (n: nat, m2: Machine)
    requires Good(cs) && Stands(m, base) && Agrees(x.ops, dead, env, cs.locals, m.regs) && Scope(env, vis)
    requires WritesOk(args, vis) && ExprsLits(args) <= x.lits && ExprsNames(args) !! dead
    requires var g := GenWrites(args, first, base, cs); Fits(x, g.code, base, g.cs.pool)
    ensures WritesRun(x, cs, GenWrites(args, first, base, cs),
                      (if first || args.ENil? then "" else " ") + BuildOutput(x.ops, env, args), base, env, dead, m, n,
                        m2)
    decreases args
  {
    hide Good, AllocTemp, Alloc, Free, FreeTemp, Fits, Neutral, GenExpr, Agrees, Keeps, GenLiteralOut, Scope;
    var g := GenWrites(args, first, base, cs);
    match args
    case ENil =>
      KeepsRefl(cs, m.regs);
      NeutralRefl(cs);
      n, m2 := 0, m;
    case ECons(e, rest) =>
      WritesShape(x, args, first, base, cs);
      var sep := if first then Gen([], cs) else GenLiteralOut(" ", cs);
      var s := if first then "" else " ";
      var n1, m1 := RunSeparator(x, first, base, cs, env, dead, m);
      NeutralLocals(cs, sep.cs);
      var at := base + |sep.code|;
      var ge := GenExpr(e, None, at, sep.cs);
      var one := Gen(ge.code + [CallWrite(ge.r, ge.r)], FreeTemp(ge.cs, ge.r));
      var n2, m2' := RunOneWrite(x, e, at, sep.cs, vis, env, dead, m1);
      WritesThen(x, cs, sep, s, base, env, dead, m, n1, m1, one, ToStr(x.ops, EvalExpr(x.ops, env, e)), n2, m2');
      NeutralLocals(sep.cs, one.cs);
      var n3, m3 := RunWrites(x, rest, false, at + |one.code|, one.cs, vis, env, dead, m2');
      var tail := GenWrites(rest, false, at + |one.code|, one.cs);
      WritesThen(x, cs, Gen(sep.code + one.code, one.cs), s + ToStr(x.ops, EvalExpr(x.ops, env, e)), base, env, dead,
                 m, n1 + n2, m2',
                 tail, (if rest.ENil? then "" else " ") + BuildOutput(x.ops, env, rest), n3, m3);
      assert sep.code + one.code + tail.code == g.code;
      Joined(x.ops, env, e, rest, s);
      n, m2 := n1 + n2 + n3, m3;
  }

  lemma RunSeparator(x: Ctx, first: bool, base: nat, cs: CState, env: Env, dead: set<string>, m: Machine)
    returns (n: nat, m2: Machine)
    requires Good(cs) && Stands(m, base) && Agrees(x.ops, dead, env, cs.locals, m.regs)
    requires !first ==> var g := GenLiteralOut(" ", cs); Fits(x, g.code, base, g.cs.pool)
    ensures WritesRun(x, cs, if first then Gen([], cs) else GenLiteralOut(" ", cs), if first then ""
                      else " ", base, env, dead, m, n, m2)
  {
    if first {
      KeepsRefl(cs, m.regs);
      NeutralRefl(cs);
      n, m2 := 0, m;
    } else {
      n, m2 := RunLiteralOut(x, " ", base, cs, env, dead, m);
    }
  }

  lemma Joined(ops: Ops, env: Env, e: Expr, rest: Exprs, s: string)
    ensures s + ToStr(ops, EvalExpr(ops, env, e)) + ((if rest.ENil? then "" else " ") + BuildOutput(ops, env, rest))
         == s + BuildOutput(ops, env, ECons(e, rest))
  {
    var t := ToStr(ops, EvalExpr(ops, env, e));
    assert s + t + (" " + BuildOutput(ops, env, rest)) == s + (t + " " + BuildOutput(ops, env, rest));
  }

  lemma WritesShape(x: Ctx, args: Exprs, first: bool, base: nat, cs: CState)
    requires Good(cs) && args.ECons?
    requires var g := GenWrites(args, first, base, cs); Fits(x, g.code, base, g.cs.pool)
    ensures var sep := if first then Gen([], cs) else GenLiteralOut(" ", cs);
            var at := base + |sep.code|;
            var ge := GenExpr(args.head, None, at, sep.cs);
            var one := Gen(ge.code + [CallWrite(ge.r, ge.r)], FreeTemp(ge.cs, ge.r));
            var tail := GenWrites(args.tail, false, at + |one.code|, one.cs);
            && GenWrites(args, first, base, cs)
                 == Gen(sep.code + ge.code + [CallWrite(ge.r, ge.r)] + tail.code, tail.cs)
            && Fits(x, sep.code, base, sep.cs.pool)
            && Fits(x, one.code, at, ge.cs.pool)
            && Fits(x, tail.code, at + |one.code|, tail.cs.pool)
  {
    hide Good, AllocTemp, Alloc, Free, FreeTemp, Fits, Neutral, GenExpr, GenLiteralOut;
    var sep := if first then Gen([], cs) else GenLiteralOut(" ", cs);
    if first {
      NeutralRefl(cs);
    } else {
      LiteralOutFacts(" ", cs);
    }
    NeutralLocals(cs, sep.cs);
    var at := base + |sep.code|;
    var ge := GenExpr(args.head, None, at, sep.cs);
    ExprNeutral(args.head, at, sep.cs);
    var one := Gen(ge.code + [CallWrite(ge.r, ge.r)], FreeTemp(ge.cs, ge.r));
    PoolFree(ge.cs, ge.r);
    NeutralLocals(sep.cs, one.cs);
    WritesFacts(args.tail, false, at + |one.code|, one.cs);
    var tail := GenWrites(args.tail, false, at + |one.code|, one.cs);
    NeutralLocals(one.cs, tail.cs);
    assert sep.code + ge.code + [CallWrite(ge.r, ge.r)] + tail.code == sep.code + (one.code + tail.code);
    FitsCat(x, sep.code, one.code + tail.code, base, tail.cs.pool, sep.cs.pool);
    FitsCat(x, one.code, tail.code, at, tail.cs.pool, ge.cs.pool);
  }
}
