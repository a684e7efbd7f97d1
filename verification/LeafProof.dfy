/** Running assignments, increments, output and loop tests. */
module LeafProof {
  import opened Options
  import opened Values
  import opened Syntax
  import opened Interpreter
  import opened Bytecode
  import opened CodeGen
  import opened RegisterDiscipline
  import opened ScopeDiscipline
  import opened GenFacts
  import opened Discipline
  import opened RawValues
  import opened EnvFacts
  import opened Simulation
  import opened ExprProof

  ghost predicate Touched(locals: seq<Local>, wr: set<string>, q: nat) {
    exists y :: y in wr && Slot(locals, y) == Some(q)
  }

  // Every register that was taken keeps its value, unless it is the slot of a name in `wr`.
  ghost predicate KeepsBut(cs: CState, wr: set<string>, a: Regs, b: Regs) {
    forall q: nat :: Busy(cs.rs, q) && !Touched(cs.locals, wr, q) ==> Reg(b, q) == Reg(a, q)
  }

  lemma KeepsButSelf(cs: CState, wr: set<string>, a: Regs, b: Regs)
    requires Keeps(cs, None, a, b)
    ensures KeepsBut(cs, wr, a, b)
  {
  }

  lemma KeepsButNeutral(cs: CState, cs1: CState, wr: set<string>, a: Regs, b: Regs, c: Regs)
    requires Neutral(cs, cs1) && KeepsBut(cs, wr, a, b) && KeepsBut(cs1, wr, b, c)
    ensures KeepsBut(cs, wr, a, c)
  {
  }

  // Across code that declared locals: the new ones lie in registers that were free.
  lemma KeepsButPost(cs: CState, cs1: CState, wr: set<string>, a: Regs, b: Regs, c: Regs)
    requires StmtPost(cs, cs1) && KeepsBut(cs, wr, a, b) && KeepsBut(cs1, wr, b, c)
    ensures KeepsBut(cs, wr, a, c)
  {
    forall q: nat | Busy(cs.rs, q) && !Touched(cs.locals, wr, q)
      ensures !Touched(cs1.locals, wr, q)
    {
      if Touched(cs1.locals, wr, q) {
        var y :| y in wr && Slot(cs1.locals, y) == Some(q);
        var i := SlotFacts(cs1.locals, y);
        if i < |cs.locals| {
          assert cs.locals[i] == cs1.locals[i];
          NewerSlots(cs, cs1, y, i);
        }
      }
    }
  }

  // A name that is a local already keeps its slot.
  lemma {:induction false} NewerSlots(cs: CState, cs1: CState, y: string, i: nat)
    requires StmtPost(cs, cs1) && i < |cs.locals| && cs.locals[i].name == y
    ensures Slot(cs.locals, y) == Slot(cs1.locals, y)
  {
    SlotNone(cs.locals, y);
    StillSlot(cs.locals, cs1.locals, y);
  }

  lemma {:induction false} StillSlot(a: seq<Local>, b: seq<Local>, y: string)
    requires a <= b && Slot(a, y).Some?
    requires forall j :: |a| <= j < |b| ==> Slot(a, b[j].name).None?
    ensures Slot(b, y) == Slot(a, y)
    decreases |b|
  {
    if |a| < |b| {
      assert Slot(a, b[|b| - 1].name).None?;
      StillSlot(a, b[..|b| - 1], y);
    } else {
      assert a == b;
    }
  }

  // ---------- assignments ----------

  lemma SlotsDiffer(cs: CState, y: string, z: string)
    requires Good(cs) && Slot(cs.locals, y).Some? && Slot(cs.locals, z).Some? && y != z
    ensures Slot(cs.locals, y) != Slot(cs.locals, z)
  {
    var i := SlotFacts(cs.locals, y);
    var j := SlotFacts(cs.locals, z);
  }

  lemma SetAgrees(ops: Ops, dead: set<string>, env: Env, cs: CState, y: string, v: Value, regs: Regs)
    requires NoShadow(env) && env != [] && Good(cs) && y !in dead
    requires Agrees(ops, dead, env, cs.locals, regs) && Slot(cs.locals, y).Some?
    ensures Agrees(ops, dead, SetVar(env, y, v), cs.locals, regs[Slot(cs.locals, y).value := v])
  {
    SetVarFacts(ops, env, y, v);
    forall z | z != y && Slot(cs.locals, z).Some?
      ensures Slot(cs.locals, z) != Slot(cs.locals, y)
    {
      SlotsDiffer(cs, y, z);
    }
  }

  lemma DeclAgrees(ops: Ops, dead: set<string>, env: Env, cs: CState, l: Local, v: Value, regs: Regs)
    requires NoShadow(env) && env != [] && Good(cs) && l.name !in dead
    requires Agrees(ops, dead, env, cs.locals, regs) && Slot(cs.locals, l.name).None? && !Busy(cs.rs, l.reg)
    ensures Agrees(ops, dead, SetVar(env, l.name, v), cs.locals + [l], regs[l.reg := v])
  {
    SetVarFacts(ops, env, l.name, v);
    forall z
      ensures Slot(cs.locals + [l], z) == if z == l.name then Some(l.reg) else Slot(cs.locals, z)
      ensures Slot(cs.locals, z).Some? ==> Slot(cs.locals, z).value != l.reg
    {
      assert (cs.locals + [l])[..|cs.locals|] == cs.locals;
      if Slot(cs.locals, z).Some? {
        SlotHeld(cs, z);
      }
    }
  }

  // Writing a register that is not taken disturbs nothing.
  lemma Scratch(ops: Ops, dead: set<string>, env: Env, cs: CState, a: Regs, b: Regs, t: nat, v: Value)
    requires Good(cs) && !Busy(cs.rs, t) && Agrees(ops, dead, env, cs.locals, b) && Keeps(cs, None, a, b)
    ensures Agrees(ops, dead, env, cs.locals, b[t := v]) && Keeps(cs, None, a, b[t := v])
  {
    forall z | Slot(cs.locals, z).Some?
      ensures Slot(cs.locals, z).value != t
    {
      SlotHeld(cs, z);
    }
  }

  ghost predicate AssignPre(x: Ctx, y: string, aop: AssignOp, rhs: Expr, base: nat, cs: CState,
                            env: Env, dead: set<string>, wr: set<string>, m: Machine) {
    var g := GenAssign(y, aop, rhs, base, cs);
    && Good(cs) && Stands(m, base) && Fits(x, g.code, base, g.cs.pool)
    && ValueOk(rhs) && ExprLits(rhs) <= x.lits && ExprNames(rhs) !! dead && y !in dead && y in wr
    && NoShadow(env) && env != [] && Agrees(x.ops, dead, env, cs.locals, m.regs)
  }

  ghost predicate EffectRuns(x: Ctx, cs: CState, cs1: CState, end: nat, env: Env, dead: set<string>, wr: set<string>,
                             m: Machine, n: nat, m2: Machine) {
    && m.Running? && m2.Running? && Run(x.ops, x.p, m, n) == m2 && m2 == m.(pc := end, regs := m2.regs)
    && Agrees(x.ops, dead, env, cs1.locals, m2.regs)
    && KeepsBut(cs, wr, m.regs, m2.regs)
  }

  function NewValue(ops: Ops, env: Env, f: Effect): Value
    requires !f.Eval?
  {
    match f
    case Assign(y, aop, rhs) =>
      var v := EvalExpr(ops, env, rhs);
      if aop.Plain? then v else Apply2(ops, aop.op, Lookup(ops, env, y), v)
    case IncDec(y, inc, _) => Apply2(ops, if inc then Add else Sub, Lookup(ops, env, y), Int(1))
  }

  // The right-hand side, then the machine in front of `tail`.
  lemma RunRhs(x: Ctx, rhs: Expr, base: nat, cs: CState, env: Env, dead: set<string>, tail: Code, pool: seq<Value>,
      m: Machine)
    returns (n: nat, m1: Machine)
    requires var g := GenExpr(rhs, None, base, cs); Fits(x, g.code + tail, base, pool) && g.cs.pool <= pool
    requires Good(cs) && Stands(m, base)
    requires ValueOk(rhs) && ExprLits(rhs) <= x.lits && ExprNames(rhs) !! dead
    requires Agrees(x.ops, dead, env, cs.locals, m.regs)
    ensures var g := GenExpr(rhs, None, base, cs);
            && Run(x.ops, x.p, m, n) == m1 && m1.Running? && m1 == m.(pc := base + |g.code|, regs := m1.regs)
            && Reg(m1.regs, g.r) == EvalExpr(x.ops, env, rhs)
            && Agrees(x.ops, dead, env, g.cs.locals, m1.regs) && Keeps(cs, None, m.regs, m1.regs)
            && Fits(x, tail, base + |g.code|, pool)
            && ExprPost(None, cs, g.r, g.cs) && Good(g.cs) && Busy(g.cs.rs, g.r)
            && g.cs.locals == cs.locals && g.cs.depth == cs.depth
  {
    var g := GenExpr(rhs, None, base, cs);
    FitsCat(x, g.code, tail, base, pool, g.cs.pool);
    n, m1 := RunExpr(x, rhs, None, base, cs, env, dead, m);
    AfterExpr(x, rhs, None, base, cs, env, dead, m, n, m1);
    RawAgrees(x.ops, env, rhs);
  }

  lemma RunAssignSlot(x: Ctx, y: string, aop: AssignOp, rhs: Expr, base: nat, cs: CState,
                      env: Env, dead: set<string>, wr: set<string>, m: Machine) returns (n: nat, m2: Machine)
    requires AssignPre(x, y, aop, rhs, base, cs, env, dead, wr, m) && Slot(cs.locals, y).Some?
    requires aop.Plain? || aop.op == Concat
    ensures var g := GenAssign(y, aop, rhs, base, cs);
            EffectRuns(x, cs, g.cs, base + |g.code|, SetVar(env, y, NewValue(x.ops, env, Assign(y, aop, rhs))), dead,
                       wr, m, n, m2)
  {
    hide Good, GoodRegs, Agrees, PoolOk, CodeAt, Alloc, Fits, Keeps, SameBusy, PlusTemp, GenExpr, ExprLits, ExprNames,
         LooseEq, DestOk, ExprPost, ExprResult, SameScope,
         Step, Run, Apply2, EvalExpr, SetVar, KeepsBut, ValueOk;
    var g := GenExpr(rhs, None, base, cs);
    var s := Slot(cs.locals, y).value;
    var v := NewValue(x.ops, env, Assign(y, aop, rhs));
    var i := if aop.Plain? then Move(s, g.r) else Bin2(Concat, s, s, g.r);
    ExprFacts(rhs, None, base, cs);
    PoolGrows(Some(0), g.cs);
    var n1, m1 := RunRhs(x, rhs, base, cs, env, dead, [i], g.cs.pool, m);
    AloneFits(x, i, base + |g.code|, g.cs.pool);
    SlotValue(x.ops, dead, env, g.cs.locals, m1.regs, y);
    ThenStep(x.ops, x.p, m, n1, m1);
    AssignStep(x, m1, s, g.r, aop.Plain?);
    n, m2 := n1 + 1, Step(x.ops, x.p, m1);
    SetAgrees(x.ops, dead, env, g.cs, y, v, m1.regs);
    KeepsSlot(cs, y, wr, m.regs, m1.regs, v);
    KeepFree(g.cs, g.r);
  }

  lemma AssignStep(x: Ctx, m: Machine, s: nat, r: nat, plain: bool)
    requires m.Running? && m.pc < |x.p.code|
    requires x.p.code[m.pc] == if plain then Move(s, r) else Bin2(Concat, s, s, r)
    ensures var v := if plain then Reg(m.regs, r) else Apply2(x.ops, Concat, Reg(m.regs, s), Reg(m.regs, r));
            Step(x.ops, x.p, m) == m.(pc := m.pc + 1, regs := m.regs[s := v])
  {
    hide Apply2;
  }

  lemma KeepFree(cs: CState, r: nat)
    ensures FreeTemp(cs, r).locals == cs.locals && FreeTemp(cs, r).pool == cs.pool
  {
  }

  lemma AloneFits(x: Ctx, i: Instr, base: nat, pool: seq<Value>)
    requires Fits(x, [i], base, pool)
    ensures base < |x.p.code| && x.p.code[base] == Resolved(i, x.fixes)
  {
    assert [i] == [] + [i];
    FitsEnd(x, [], i, base, pool, pool);
  }

  lemma SlotValue(ops: Ops, dead: set<string>, env: Env, locals: seq<Local>, regs: Regs, y: string)
    requires Agrees(ops, dead, env, locals, regs) && y !in dead
    ensures Slot(locals, y).Some? ==> Reg(regs, Slot(locals, y).value) == Lookup(ops, env, y)
    ensures Slot(locals, y).None? ==> Lookup(ops, env, y) == ops.global(y)
  {
    if Slot(locals, y).None? {
      LookupGlobal(ops, env, y);
    }
  }

  lemma KeepsSlot(cs: CState, y: string, wr: set<string>, a: Regs, b: Regs, v: Value)
    requires Keeps(cs, None, a, b) && Slot(cs.locals, y).Some? && y in wr
    ensures KeepsBut(cs, wr, a, b[Slot(cs.locals, y).value := v])
  {
    assert Touched(cs.locals, wr, Slot(cs.locals, y).value);
  }

  lemma KeepsNew(cs: CState, wr: set<string>, a: Regs, b: Regs, s: nat, v: Value)
    requires Keeps(cs, None, a, b) && !Busy(cs.rs, s)
    ensures KeepsBut(cs, wr, a, b[s := v])
  {
  }

  // Two scratch registers for a read and an operation, then `last`.
  lemma RunThrough(x: Ctx, tail: Code, at: nat, pool: seq<Value>, m1: Machine)
    requires Fits(x, tail, at, pool) && |tail| == 3 && m1.Running? && m1.pc == at
    ensures at + 2 < |x.p.code|
    ensures forall i :: 0 <= i < 3 ==> x.p.code[at + i] == Resolved(tail[i], x.fixes)
    ensures Run(x.ops, x.p, m1, 3) == Step(x.ops, x.p, Step(x.ops, x.p, Step(x.ops, x.p, m1)))
  {
    OneStep(x.ops, x.p, m1);
    ThenStep(x.ops, x.p, m1, 1, Step(x.ops, x.p, m1));
    ThenStep(x.ops, x.p, m1, 2, Step(x.ops, x.p, Step(x.ops, x.p, m1)));
    CodeAtAll(x.p.code, at, tail, x.fixes);
  }

  lemma CodeAtAll(code: Code, at: nat, c: Code, fixes: seq<Fix>)
    requires CodeAt(code, at, c, fixes)
    ensures at + |c| <= |code| && forall i :: 0 <= i < |c| ==> code[at + i] == Resolved(c[i], fixes)
  {
  }

  // The instruction loads `v`, the value of a local or of a global, into `a`.
  predicate Reads(x: Ctx, i: Instr, a: nat, regs: Regs, v: Value) {
    || (i.Move? && i.a == a && Reg(regs, i.b) == v)
    || (i.LoadGlobal? && i.a == a && x.ops.global(GlobalName(x.p, i.k)) == v)
  }

  // `cur` gets the old value, `tmp` the new one, both fresh.
  lemma RunUpdate(x: Ctx, first: Instr, op: BinOp, cur: nat, tmp: nat, r: nat, target: nat, at: nat, cs: CState,
                  env: Env, dead: set<string>, a: Regs, m1: Machine, old0: Value, pool: seq<Value>)
    returns (m2: Machine)
    requires Good(cs) && Stands(m1, at)
    requires Fits(x, [first, Bin2(op, tmp, cur, r), Move(target, tmp)], at, pool)
    requires Reads(x, first, cur, m1.regs, old0)
    requires !Busy(cs.rs, cur) && !Busy(cs.rs, tmp) && Busy(cs.rs, r) && cur != r && tmp != r && cur != tmp
    requires Agrees(x.ops, dead, env, cs.locals, m1.regs) && Keeps(cs, None, a, m1.regs)
    ensures var v := Apply2(x.ops, op, old0, Reg(m1.regs, r));
            var b := m1.regs[cur := old0][tmp := v];
            && Run(x.ops, x.p, m1, 3) == m2 && m2 == m1.(pc := at + 3, regs := b[target := v])
            && Agrees(x.ops, dead, env, cs.locals, b) && Keeps(cs, None, a, b)
  {
    hide Good, GoodRegs, Agrees, PoolOk, CodeAt, Fits, Keeps, Busy;
    var tail := [first, Bin2(op, tmp, cur, r), Move(target, tmp)];
    RunThrough(x, tail, at, pool, m1);
    assert x.p.code[at + 0] == Resolved(tail[0], x.fixes);
    assert x.p.code[at + 1] == Resolved(tail[1], x.fixes);
    assert x.p.code[at + 2] == Resolved(tail[2], x.fixes);
    var v := Apply2(x.ops, op, old0, Reg(m1.regs, r));
    Scratch(x.ops, dead, env, cs, a, m1.regs, cur, old0);
    Scratch(x.ops, dead, env, cs, a, m1.regs[cur := old0], tmp, v);
    var s1 := Step(x.ops, x.p, m1);
    var s2 := Step(x.ops, x.p, s1);
    assert s2 == m1.(pc := at + 2, regs := m1.regs[cur := old0][tmp := v]);
    m2 := Step(x.ops, x.p, s2);
  }

  // The scratch registers of a compound assignment are fresh and differ from its operand.
  lemma FreshTemps(cs: CState, r: nat)
    requires Good(cs) && Busy(cs.rs, r)
    ensures var (cur, cs1) := AllocTemp(cs); var (tmp, cs2) := AllocTemp(cs1);
            && !Busy(cs.rs, cur) && !Busy(cs.rs, tmp) && cur != r && tmp != r && cur != tmp
            && cs2.locals == cs.locals && cs2.pool == cs.pool && Good(cs1)
  {
    AllocFacts(cs);
    AllocFacts(AllocTemp(cs).1);
  }

  // The code of a compound assignment to a local.
  lemma CompoundShape(y: string, aop: AssignOp, rhs: Expr, base: nat, cs: CState)
    requires Good(cs) && Slot(cs.locals, y).Some? && aop.Compound? && aop.op != Concat
    ensures var g := GenExpr(rhs, None, base, cs);
            var s := Slot(cs.locals, y).value;
            var (cur, cs1) := AllocTemp(g.cs);
            var (tmp, cs2) := AllocTemp(cs1);
            var ga := GenAssign(y, aop, rhs, base, cs);
            && ga.code == g.code + [Move(cur, s), Bin2(aop.op, tmp, cur, g.r), Move(s, tmp)]
            && ga.cs.locals == cs.locals && ga.cs.pool == g.cs.pool && g.cs.locals == cs.locals
            && Good(g.cs) && Busy(g.cs.rs, g.r) && ExprPost(None, cs, g.r, g.cs)
            && !Busy(g.cs.rs, cur) && !Busy(g.cs.rs, tmp) && cur != g.r && tmp != g.r && cur != tmp
  {
    hide GenExpr, AllocTemp, FreeTemp, Good, Busy, SameBusy, PlusTemp;
    ExprFacts(rhs, None, base, cs);
    var g := GenExpr(rhs, None, base, cs);
    var (cur, cs1) := AllocTemp(g.cs);
    var (tmp, cs2) := AllocTemp(cs1);
    KeepFree3(cs2, cur, g.r, tmp);
    ResultBusy(cs, g.r, g.cs);
    FreshTemps(g.cs, g.r);
  }

  lemma RunCompoundSlot(x: Ctx, y: string, aop: AssignOp, rhs: Expr, base: nat, cs: CState,
                        env: Env, dead: set<string>, wr: set<string>, m: Machine) returns (n: nat, m2: Machine)
    requires AssignPre(x, y, aop, rhs, base, cs, env, dead, wr, m) && Slot(cs.locals, y).Some?
    requires aop.Compound? && aop.op != Concat
    ensures var g := GenAssign(y, aop, rhs, base, cs);
            EffectRuns(x, cs, g.cs, base + |g.code|, SetVar(env, y, NewValue(x.ops, env, Assign(y, aop, rhs))), dead,
                       wr, m, n, m2)
  {
    hide Step, ValueOk, ExprLits, ExprNames, EvalExpr, LooseEq, Good, Agrees, AllocTemp, Fits, Keeps, ExprPost,
         GenExpr, GenAssign, Busy, KeepsBut, SetVar;
    var g := GenExpr(rhs, None, base, cs);
    var s := Slot(cs.locals, y).value;
    CompoundShape(y, aop, rhs, base, cs);
    var (cur, cs1) := AllocTemp(g.cs);
    var (tmp, cs2) := AllocTemp(cs1);
    var tail := [Move(cur, s), Bin2(aop.op, tmp, cur, g.r), Move(s, tmp)];
    var n1, m1 := RunRhs(x, rhs, base, cs, env, dead, tail, g.cs.pool, m);
    SlotValue(x.ops, dead, env, g.cs.locals, m1.regs, y);
    KeepsRefl(g.cs, m1.regs);
    var old0 := Lookup(x.ops, env, y);
    m2 := RunUpdate(x, Move(cur, s), aop.op, cur, tmp, g.r, s, base + |g.code|, g.cs, env, dead, m1.regs, m1, old0,
                    g.cs.pool);
    Chain(x.ops, x.p, m, n1, m1, 3, m2);
    n := n1 + 3;
    var v := Apply2(x.ops, aop.op, old0, Reg(m1.regs, g.r));
    SetAgrees(x.ops, dead, env, g.cs, y, v, m1.regs[cur := old0][tmp := v]);
    KeepsTrans(cs, None, g.r, g.cs, m.regs, m1.regs, m1.regs[cur := old0][tmp := v]);
    KeepsSlot(cs, y, wr, m.regs, m1.regs[cur := old0][tmp := v], v);
  }

  lemma ResultBusy(cs: CState, r: nat, cs1: CState)
    requires Good(cs) && ExprPost(None, cs, r, cs1)
    ensures Busy(cs1.rs, r) && Good(cs1)
  {
  }

  lemma KeepsRefl(cs: CState, a: Regs)
    ensures Keeps(cs, None, a, a)
  {
  }

  lemma KeepFree3(cs: CState, a: nat, b: nat, c: nat)
    ensures FreeTemp(FreeTemp(FreeTemp(cs, a), b), c).locals == cs.locals
    ensures FreeTemp(FreeTemp(FreeTemp(cs, a), b), c).pool == cs.pool
  {
  }

  lemma RunDeclare(x: Ctx, y: string, rhs: Expr, base: nat, cs: CState,
                   env: Env, dead: set<string>, wr: set<string>, m: Machine) returns (n: nat, m2: Machine)
    requires AssignPre(x, y, Plain, rhs, base, cs, env, dead, wr, m) && Slot(cs.locals, y).None?
    ensures var g := GenAssign(y, Plain, rhs, base, cs);
            EffectRuns(x, cs, g.cs, base + |g.code|, SetVar(env, y, NewValue(x.ops, env, Assign(y, Plain, rhs))), dead,
                       wr, m, n, m2)
  {
    hide Good, GoodRegs, Agrees, PoolOk, CodeAt, Alloc, AllocTemp, FreeTemp, DeclareLocal, Fits, Keeps, SameBusy,
         PlusTemp, GenExpr, Busy, Held, ExprLits, ExprNames, LooseEq, DestOk, ExprPost, ExprResult, SameScope,
         Step, Run, EvalExpr, SetVar, KeepsBut, ValueOk;
    var g := GenExpr(rhs, None, base, cs);
    var v := EvalExpr(x.ops, env, rhs);
    ExprFacts(rhs, None, base, cs);
    var (s, cs1) := DeclareLocal(g.cs, y);
    ResultBusy(cs, g.r, g.cs);
    DeclaredSlot(g.cs, y);
    KeepFree(cs1, g.r);
    var n1, m1 := RunRhs(x, rhs, base, cs, env, dead, [Move(s, g.r)], g.cs.pool, m);
    AloneFits(x, Move(s, g.r), base + |g.code|, g.cs.pool);
    ThenStep(x.ops, x.p, m, n1, m1);
    AssignStep(x, m1, s, g.r, true);
    n, m2 := n1 + 1, Step(x.ops, x.p, m1);
    DeclAgrees(x.ops, dead, env, g.cs, Local(y, s, g.cs.depth), v, m1.regs);
    BusyGrows(cs, g.r, g.cs, s);
    KeepsNew(cs, wr, m.regs, m1.regs, s, v);
  }

  lemma BusyGrows(cs: CState, r: nat, cs1: CState, s: nat)
    requires ExprPost(None, cs, r, cs1) && !Busy(cs1.rs, s)
    ensures !Busy(cs.rs, s)
  {
  }

  lemma DeclaredSlot(cs: CState, y: string)
    requires Good(cs)
    ensures var (s, cs1) := DeclareLocal(cs, y);
            && !Busy(cs.rs, s) && cs1.locals == cs.locals + [Local(y, s, cs.depth)] && cs1.pool == cs.pool
  {
    AllocFacts(cs);
  }

  // The code of a compound assignment to a name that is not a local yet.
  lemma DeclareShape(y: string, aop: AssignOp, rhs: Expr, base: nat, cs: CState)
    requires Good(cs) && Slot(cs.locals, y).None? && aop.Compound?
    ensures var g := GenExpr(rhs, None, base, cs);
            var (k, cs0) := AddConst(g.cs, Str(y));
            var (cur, cs1) := AllocTemp(cs0);
            var (tmp, cs2) := AllocTemp(cs1);
            var (s, cs4) := DeclareLocal(FreeTemp(FreeTemp(cs2, cur), g.r), y);
            var ga := GenAssign(y, aop, rhs, base, cs);
            && ga.code == g.code + [LoadGlobal(cur, k), Bin2(aop.op, tmp, cur, g.r), Move(s, tmp)]
            && ga.cs.locals == cs4.locals && ga.cs.pool == cs0.pool && g.cs.pool <= cs0.pool
            && g.cs.locals == cs.locals == cs0.locals
            && Good(g.cs) && Good(cs0) && Busy(cs0.rs, g.r) && ExprPost(None, cs, g.r, g.cs) && Neutral(g.cs, cs0)
            && !Busy(cs0.rs, cur) && !Busy(cs0.rs, tmp) && cur != g.r && tmp != g.r && cur != tmp
  {
    hide GenExpr, AllocTemp, FreeTemp, AddConst, DeclareLocal, Good, Busy, SameBusy, PlusTemp, Neutral;
    ExprFacts(rhs, None, base, cs);
    var g := GenExpr(rhs, None, base, cs);
    ResultBusy(cs, g.r, g.cs);
    var (k, cs0) := AddConst(g.cs, Str(y));
    ConstFacts(g.cs, Str(y));
    NeutralBusy(g.cs, cs0, g.r);
    var (cur, cs1) := AllocTemp(cs0);
    var (tmp, cs2) := AllocTemp(cs1);
    FreshTemps(cs0, g.r);
    CompoundSlot(cs, g.r, g.cs, cs0, y);
    KeepFree(DeclareLocal(FreeTemp(FreeTemp(cs2, cur), g.r), y).1, tmp);
  }

  lemma RunDeclareCompound(x: Ctx, y: string, aop: AssignOp, rhs: Expr, base: nat, cs: CState,
                           env: Env, dead: set<string>, wr: set<string>, m: Machine) returns (n: nat, m2: Machine)
    requires AssignPre(x, y, aop, rhs, base, cs, env, dead, wr, m) && Slot(cs.locals, y).None? && aop.Compound?
    ensures var g := GenAssign(y, aop, rhs, base, cs);
            EffectRuns(x, cs, g.cs, base + |g.code|, SetVar(env, y, NewValue(x.ops, env, Assign(y, aop, rhs))), dead,
                       wr, m, n, m2)
  {
    hide Fits, Step, ValueOk, ExprLits, ExprNames, EvalExpr, LooseEq, Good, Agrees, PoolOk, CodeAt, AllocTemp,
         FreeTemp, DeclareLocal, Keeps, ExprPost, GenExpr, GenAssign, Busy, KeepsBut, SetVar,
         AddConst, Neutral, GlobalName;
    var g := GenExpr(rhs, None, base, cs);
    DeclareShape(y, aop, rhs, base, cs);
    var (k, cs0) := AddConst(g.cs, Str(y));
    var (cur, cs1) := AllocTemp(cs0);
    var (tmp, cs2) := AllocTemp(cs1);
    var (s, cs4) := DeclareLocal(FreeTemp(FreeTemp(cs2, cur), g.r), y);
    var tail := [LoadGlobal(cur, k), Bin2(aop.op, tmp, cur, g.r), Move(s, tmp)];
    var n1, m1 := RunRhs(x, rhs, base, cs, env, dead, tail, cs0.pool, m);
    SlotValue(x.ops, dead, env, g.cs.locals, m1.regs, y);
    GlobalLoads(x, g.cs, y);
    FitsPool(x, tail, base + |g.code|, cs0.pool);
    KeepsRefl(cs0, m1.regs);
    var old0 := Lookup(x.ops, env, y);
    m2 := RunUpdate(x, LoadGlobal(cur, k), aop.op, cur, tmp, g.r, s, base + |g.code|, cs0, env, dead, m1.regs, m1,
                    old0, cs0.pool);
    Chain(x.ops, x.p, m, n1, m1, 3, m2);
    n := n1 + 3;
    var v := Apply2(x.ops, aop.op, old0, Reg(m1.regs, g.r));
    CompoundDecl(x, cs, g.r, g.cs, cs0, y, env, dead, m.regs, m1.regs, m1.regs[cur := old0][tmp := v], v, wr);
  }

  lemma NeutralBusy(cs: CState, cs1: CState, r: nat)
    requires Neutral(cs, cs1) && Busy(cs.rs, r)
    ensures Good(cs1) && Busy(cs1.rs, r) && cs1.locals == cs.locals && cs.pool <= cs1.pool
            && (forall q :: Busy(cs1.rs, q) <==> Busy(cs.rs, q))
  {
  }

  lemma FitsPool(x: Ctx, c: Code, base: nat, pool: seq<Value>)
    requires Fits(x, c, base, pool)
    ensures pool <= x.p.pool && PoolOk(x.p.pool, x.lits)
  {
  }

  // The name of a global is found under its index in the final pool.
  lemma GlobalLoads(x: Ctx, cs: CState, y: string)
    ensures var (k, cs1) := AddConst(cs, Str(y));
            cs1.pool <= x.p.pool && PoolOk(x.p.pool, x.lits) ==> GlobalName(x.p, k) == y
  {
    var (k, cs1) := AddConst(cs, Str(y));
    if cs1.pool <= x.p.pool && PoolOk(x.p.pool, x.lits) {
      ConstLoads(cs, Str(y), x.p.pool, x.lits);
    }
  }

  // The slot a compound assignment declares was free before the assignment.
  lemma CompoundSlot(cs: CState, r: nat, csG: CState, cs0: CState, y: string)
    requires Good(cs) && ExprPost(None, cs, r, csG) && Neutral(csG, cs0)
    ensures var (cur, cs1) := AllocTemp(cs0); var (tmp, cs2) := AllocTemp(cs1);
            var cs3 := FreeTemp(FreeTemp(cs2, cur), r);
            var (s, cs4) := DeclareLocal(cs3, y);
            && !Busy(cs.rs, s) && s != tmp && cs4.locals == cs.locals + [Local(y, s, cs.depth)] && cs4.pool == cs0.pool
  {
    ExprThenNeutral(cs, r, csG, cs0);
    TempsAcross(cs, r, cs0);
    var (cur, cs1) := AllocTemp(cs0);
    var (tmp, cs2) := AllocTemp(cs1);
    DeclaredSlot(FreeTemp(FreeTemp(cs2, cur), r), y);
  }

  lemma CompoundDecl(x: Ctx, cs: CState, r: nat, csG: CState, cs0: CState, y: string, env: Env, dead: set<string>,
                     a: Regs, b: Regs, c: Regs, v: Value, wr: set<string>)
    requires Good(cs) && ExprPost(None, cs, r, csG) && Neutral(csG, cs0)
    requires NoShadow(env) && env != [] && y !in dead && Slot(cs.locals, y).None?
    requires Keeps(cs, None, a, b) && Keeps(cs0, None, b, c) && Agrees(x.ops, dead, env, cs0.locals, c)
    ensures var (cur, cs1) := AllocTemp(cs0); var (tmp, cs2) := AllocTemp(cs1);
            var (s, cs4) := DeclareLocal(FreeTemp(FreeTemp(cs2, cur), r), y);
            && Agrees(x.ops, dead, SetVar(env, y, v), cs4.locals, c[s := v])
            && KeepsBut(cs, wr, a, c[s := v])
  {
    hide AllocTemp, FreeTemp, DeclareLocal, Agrees;
    CompoundSlot(cs, r, csG, cs0, y);
    var (cur, cs1) := AllocTemp(cs0);
    var (tmp, cs2) := AllocTemp(cs1);
    var (s, cs4) := DeclareLocal(FreeTemp(FreeTemp(cs2, cur), r), y);
    DeclAgrees(x.ops, dead, env, cs, Local(y, s, cs.depth), v, c);
    assert Keeps(cs, None, a, c);
    KeepsNew(cs, wr, a, c, s, v);
  }
}
