/** The relation between interpreter and machine. */
module Simulation {
  import opened Options
  import opened Values
  import opened Syntax
  import opened Interpreter
  import opened Bytecode
  import opened CodeGen
  import opened RegisterDiscipline
  import opened Discipline
  import opened EnvFacts

  // Outside the names in `dead`, the compiler's locals are the interpreter's variables and
  // hold their values.
  ghost predicate Agrees(ops: Ops, dead: set<string>, env: Env, locals: seq<Local>, regs: Regs) {
    forall x :: x !in dead ==>
      && (Visible(env, x) <==> Slot(locals, x).Some?)
      && (Slot(locals, x).Some? ==> Reg(regs, Slot(locals, x).value) == Lookup(ops, env, x))
  }

  // Registers taken in `cs`, other than the destination, keep their values.
  ghost predicate Keeps(cs: CState, dest: Option<nat>, a: Regs, b: Regs) {
    forall q: nat :: Busy(cs.rs, q) && dest != Some(q) ==> Reg(b, q) == Reg(a, q)
  }

  lemma SlotHeld(cs: CState, x: string)
    requires Good(cs) && Slot(cs.locals, x).Some?
    ensures var r := Slot(cs.locals, x).value; Busy(cs.rs, r) && Held(cs.rs, r)
  {
    var i := SlotFacts(cs.locals, x);
  }

  lemma KeepAgrees(ops: Ops, dead: set<string>, env: Env, cs: CState, dest: Option<nat>, a: Regs, b: Regs)
    requires Good(cs) && DestOk(dest, cs)
    requires Agrees(ops, dead, env, cs.locals, a) && Keeps(cs, dest, a, b)
    ensures Agrees(ops, dead, env, cs.locals, b)
  {
    forall x | Slot(cs.locals, x).Some?
      ensures Reg(b, Slot(cs.locals, x).value) == Reg(a, Slot(cs.locals, x).value)
    {
      SlotHeld(cs, x);
    }
  }

  // ---------- constants ----------

  // The pool holds literals of the function and strings.
  ghost predicate PoolOk(pool: seq<Value>, lits: set<Value>) {
    NoClash(lits) && forall i :: 0 <= i < |pool| ==> pool[i] in lits || pool[i].Str?
  }

  lemma {:induction false} FirstEqualFacts(pool: seq<Value>, v: Value)
    ensures var k := FirstEqual(pool, v);
            k <= |pool| && (k < |pool| ==> LooseEq(pool[k], v)) && forall i :: 0 <= i < k ==> !LooseEq(pool[i], v)
    decreases |pool|
  {
    if pool != [] && !LooseEq(pool[0], v) {
      FirstEqualFacts(pool[1..], v);
      var k := FirstEqual(pool, v);
      forall i | 0 <= i < k
        ensures !LooseEq(pool[i], v)
      {
        if i > 0 {
          assert pool[i] == pool[1..][i - 1];
        }
      }
    }
  }

  // Without clashing literals the entry a constant is given holds that very constant.
  lemma ConstLoads(cs: CState, v: Value, pool: seq<Value>, lits: set<Value>)
    requires var (k, cs1) := AddConst(cs, v); cs1.pool <= pool
    requires PoolOk(pool, lits) && (v in lits || v.Str?)
    ensures var (k, cs1) := AddConst(cs, v); k < |pool| && pool[k] == v
  {
    FirstEqualFacts(cs.pool, v);
    var (k, cs1) := AddConst(cs, v);
    assert cs1.pool[k] == pool[k];
    if k < |cs.pool| {
      assert LooseEq(pool[k], v);
    }
  }

  // ---------- running ----------

  // What stays the same throughout a run: the operators, the compiled function, its
  // literals, and the addresses of the loop-stack entries around the code at hand.
  datatype Ctx = Ctx(ops: Ops, p: Proto, lits: set<Value>, fixes: seq<Fix>)

  ghost predicate Fits(x: Ctx, c: Code, base: nat, pool: seq<Value>) {
    CodeAt(x.p.code, base, c, x.fixes) && pool <= x.p.pool && PoolOk(x.p.pool, x.lits)
  }

  // The machine stands at `base`; code under the discipline stores no global.
  ghost predicate Stands(m: Machine, base: nat) {
    m.Running? && m.pc == base && m.globals == map[]
  }

  lemma FitsCat(x: Ctx, c: Code, d: Code, base: nat, pool: seq<Value>, pool0: seq<Value>)
    requires Fits(x, c + d, base, pool) && pool0 <= pool
    ensures Fits(x, c, base, pool0) && Fits(x, d, base + |c|, pool)
  {
    CodeAtCat(x.p.code, base, c, d, x.fixes);
  }

  // One instruction between two pieces of code.
  lemma FitsMid(x: Ctx, c: Code, i: Instr, d: Code, base: nat, pool: seq<Value>, pool0: seq<Value>)
    requires Fits(x, c + [i] + d, base, pool) && pool0 <= pool
    ensures Fits(x, c, base, pool0)
    ensures base + |c| < |x.p.code| && x.p.code[base + |c|] == Resolved(i, x.fixes)
    ensures Fits(x, d, base + |c| + 1, pool)
  {
    CodeAtCat(x.p.code, base, c + [i], d, x.fixes);
    CodeAtCat(x.p.code, base, c, [i], x.fixes);
    assert [i][0] == i;
    assert base + |c| + 0 == base + |c|;
  }

  lemma FitsEnd(x: Ctx, c: Code, i: Instr, base: nat, pool: seq<Value>, pool0: seq<Value>)
    requires Fits(x, c + [i], base, pool) && pool0 <= pool
    ensures Fits(x, c, base, pool0)
    ensures base + |c| < |x.p.code| && x.p.code[base + |c|] == Resolved(i, x.fixes)
  {
    assert c + [i] == c + [i] + [];
    FitsMid(x, c, i, [], base, pool, pool0);
  }

  lemma Chain(ops: Ops, p: Proto, m: Machine, i: nat, m1: Machine, j: nat, m2: Machine)
    requires Run(ops, p, m, i) == m1 && Run(ops, p, m1, j) == m2
    ensures Run(ops, p, m, i + j) == m2
  {
    RunAdd(ops, p, m, i, j);
  }

  // One more step after a run.
  lemma ThenStep(ops: Ops, p: Proto, m: Machine, i: nat, m1: Machine)
    requires Run(ops, p, m, i) == m1
    ensures Run(ops, p, m, i + 1) == Step(ops, p, m1)
  {
    assert Run(ops, p, Step(ops, p, m1), 0) == Step(ops, p, m1);
    Chain(ops, p, m, i, m1, 1, Step(ops, p, m1));
  }

  lemma OneStep(ops: Ops, p: Proto, m: Machine)
    ensures Run(ops, p, m, 1) == Step(ops, p, m)
  {
    ThenStep(ops, p, m, 0, m);
  }

  lemma RunLoad(x: Ctx, dest: nat, v: Value, base: nat, cs: CState, m: Machine)
    requires var g := LoadValue(dest, v, cs); Fits(x, g.code, base, g.cs.pool)
    requires v in x.lits || v.Str?
    requires m.Running? && m.pc == base
    ensures |LoadValue(dest, v, cs).code| == 1
    ensures Run(x.ops, x.p, m, 1) == m.(pc := base + 1, regs := m.regs[dest := v])
  {
    var g := LoadValue(dest, v, cs);
    assert g.code == [] + [g.code[0]];
    FitsEnd(x, [], g.code[0], base, g.cs.pool, g.cs.pool);
    OneStep(x.ops, x.p, m);
    if !v.Null? && !v.Bool? && !(v.Int? && -128 <= v.n <= 127) {
      ConstLoads(cs, v, x.p.pool, x.lits);
    }
  }
}
