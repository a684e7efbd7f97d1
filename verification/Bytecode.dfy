/** The register bytecode and the machine that runs one frame of it. */
module Bytecode {
  import opened Values

  // A jump operand. Real code holds only `At`. The others stand for an address that is not
  // known while it is emitted: the exit of the loop or switch at that depth of the loop
  // stack (by `break`, or at the end of a case), its next round, or the body of one case.
  datatype Target =
    | At(ip: nat)
    | ToBreak(level: nat)
    | ToEnd(level: nat)
    | ToContinue(level: nat)
    | ToCase(level: nat, index: nat)

  datatype Instr =
    | LoadConst(a: nat, k: nat)
    | LoadNull(a: nat)
    | LoadBool(a: nat, flag: bool)
    | LoadInt(a: nat, n: int)
    | Move(a: nat, b: nat)
    | LoadGlobal(a: nat, k: nat)
    | StoreGlobal(a: nat, k: nat)
    | Bin2(op2: BinOp, a: nat, b: nat, c: nat)
    | Un1(op1: UnOp, a: nat, b: nat)
    | Jump(t: Target)
    | JumpIfFalse(a: nat, t: Target)
    | JumpIfTrue(a: nat, t: Target)
    | JumpIfNull(a: nat, t: Target)
    | CallWrite(a: nat, c: nat)
    | Ret(a: nat)
    | RetNull
    | TryPush(t: Target)
    | TryPop
    | LoadExc(a: nat)
    | Throw(a: nat)

  type Code = seq<Instr>
  type Regs = map<nat, Value>

  datatype Proto = Proto(code: Code, pool: seq<Value>)

  // Registers start out null (`regs_.resize`).
  function Reg(regs: Regs, r: nat): Value {
    if r in regs then regs[r] else Null
  }

  // `globals` holds the globals this run has stored; the others are `ops.global`.
  datatype Machine =
    | Running(pc: nat, regs: Regs, out: string, globals: map<string, Value>, tries: seq<nat>, exc: Value)
    | Done(v: Value, final: string)
    | Uncaught(thrown: Value)
    | Stuck

  function Goto(m: Machine, t: Target): Machine
    requires m.Running?
  {
    if t.At? then m.(pc := t.ip) else Stuck
  }

  function Set(m: Machine, a: nat, v: Value): Machine
    requires m.Running?
  {
    m.(pc := m.pc + 1, regs := m.regs[a := v])
  }

  function GlobalName(p: Proto, k: nat): string {
    if k < |p.pool| && p.pool[k].Str? then p.pool[k].s else ""
  }

  function Step(ops: Ops, p: Proto, m: Machine): Machine {
    if !m.Running? then m
    else if m.pc >= |p.code| then Stuck
    else
      match p.code[m.pc]
      case LoadConst(a, k) => if k < |p.pool| then Set(m, a, p.pool[k]) else Stuck
      case LoadNull(a) => Set(m, a, Null)
      case LoadBool(a, f) => Set(m, a, Bool(f))
      case LoadInt(a, n) => Set(m, a, Int(n))
      case Move(a, b) => Set(m, a, Reg(m.regs, b))
      case LoadGlobal(a, k) =>
        var g := GlobalName(p, k);
        Set(m, a, if g in m.globals then m.globals[g] else ops.global(g))
      case StoreGlobal(a, k) =>
        m.(pc := m.pc + 1, globals := m.globals[GlobalName(p, k) := Reg(m.regs, a)])
      case Bin2(op, a, b, c) => Set(m, a, Apply2(ops, op, Reg(m.regs, b), Reg(m.regs, c)))
      case Un1(op, a, b) => Set(m, a, Apply1(ops, op, Reg(m.regs, b)))
      case Jump(t) => Goto(m, t)
      case JumpIfFalse(a, t) => if !Truthy(Reg(m.regs, a)) then Goto(m, t) else m.(pc := m.pc + 1)
      case JumpIfTrue(a, t) => if Truthy(Reg(m.regs, a)) then Goto(m, t) else m.(pc := m.pc + 1)
      case JumpIfNull(a, t) => if Reg(m.regs, a) == Null then Goto(m, t) else m.(pc := m.pc + 1)
      // The builtin `write` appends its argument and returns null into r[a].
      case CallWrite(a, c) => Set(m.(out := m.out + ToStr(ops, Reg(m.regs, c))), a, Null)
      case Ret(a) => Done(Reg(m.regs, a), m.out)
      case RetNull => Done(Null, m.out)
      case TryPush(t) =>
        if t.At? then m.(pc := m.pc + 1, tries := m.tries + [t.ip]) else Stuck
      case TryPop =>
        m.(pc := m.pc + 1, tries := if m.tries == [] then [] else m.tries[..|m.tries| - 1])
      case LoadExc(a) => Set(m, a, m.exc)
      case Throw(a) =>
        if m.tries == [] then Uncaught(Reg(m.regs, a))
        else m.(pc := m.tries[|m.tries| - 1], tries := m.tries[..|m.tries| - 1], exc := Reg(m.regs, a))
  }

  function Run(ops: Ops, p: Proto, m: Machine, n: nat): Machine
    decreases n
  {
    if n == 0 then m else Run(ops, p, Step(ops, p, m), n - 1)
  }

  lemma {:induction false} RunAdd(ops: Ops, p: Proto, m: Machine, i: nat, j: nat)
    ensures Run(ops, p, m, i + j) == Run(ops, p, Run(ops, p, m, i), j)
    decreases i
  {
    if i > 0 {
      RunAdd(ops, p, Step(ops, p, m), i - 1, j);
    }
  }

  lemma {:induction false} RunHalted(ops: Ops, p: Proto, m: Machine, n: nat)
    requires !m.Running?
    ensures Run(ops, p, m, n) == m
    decreases n
  {
    if n > 0 {
      RunHalted(ops, p, m, n - 1);
    }
  }

  // ---------- symbolic targets ----------

  // The addresses of one loop-stack entry, once they are known.
  datatype Fix = Fix(brk: nat, cont: nat, starts: seq<nat>)

  function FixTarget(t: Target, level: nat, fx: Fix): Target {
    if t.At? || t.level != level then t
    else match t
      case ToBreak(_) => At(fx.brk)
      case ToEnd(_) => At(fx.brk)
      case ToContinue(_) => At(fx.cont)
      case ToCase(_, i) => if i < |fx.starts| then At(fx.starts[i]) else t
  }

  function MapTarget(i: Instr, level: nat, fx: Fix): Instr {
    match i
    case Jump(t) => Jump(FixTarget(t, level, fx))
    case JumpIfFalse(a, t) => JumpIfFalse(a, FixTarget(t, level, fx))
    case JumpIfTrue(a, t) => JumpIfTrue(a, FixTarget(t, level, fx))
    case JumpIfNull(a, t) => JumpIfNull(a, FixTarget(t, level, fx))
    case TryPush(t) => TryPush(FixTarget(t, level, fx))
    case _ => i
  }

  function Patch(code: Code, level: nat, fx: Fix): (r: Code)
    ensures |r| == |code|
    ensures forall i :: 0 <= i < |code| ==> r[i] == MapTarget(code[i], level, fx)
  {
    seq(|code|, i requires 0 <= i < |code| => MapTarget(code[i], level, fx))
  }

  // The instruction under the addresses `env` of all open loop-stack entries.
  function Resolved(i: Instr, env: seq<Fix>): Instr {
    match i
    case Jump(t) => Jump(ResolvedTarget(t, env))
    case JumpIfFalse(a, t) => JumpIfFalse(a, ResolvedTarget(t, env))
    case JumpIfTrue(a, t) => JumpIfTrue(a, ResolvedTarget(t, env))
    case JumpIfNull(a, t) => JumpIfNull(a, ResolvedTarget(t, env))
    case TryPush(t) => TryPush(ResolvedTarget(t, env))
    case _ => i
  }

  function ResolvedTarget(t: Target, env: seq<Fix>): Target {
    if t.At? || t.level >= |env| then t else FixTarget(t, t.level, env[t.level])
  }

  // `c`, under `env`, stands in the code at `base`.
  predicate CodeAt(code: Code, base: nat, c: Code, env: seq<Fix>) {
    base + |c| <= |code| && forall i :: 0 <= i < |c| ==> code[base + i] == Resolved(c[i], env)
  }

  lemma CodeAtCat(code: Code, base: nat, c: Code, d: Code, env: seq<Fix>)
    requires CodeAt(code, base, c + d, env)
    ensures CodeAt(code, base, c, env) && CodeAt(code, base + |c|, d, env)
  {
    forall i | 0 <= i < |c|
      ensures code[base + i] == Resolved(c[i], env)
    {
      assert (c + d)[i] == c[i];
    }
    forall i | 0 <= i < |d|
      ensures code[base + |c| + i] == Resolved(d[i], env)
    {
      assert (c + d)[|c| + i] == d[i];
      assert base + (|c| + i) == base + |c| + i;
    }
  }

  // Code patched for one entry, under the outer entries, is the code under all of them.
  lemma CodeAtPatch(code: Code, base: nat, c: Code, env: seq<Fix>, fx: Fix)
    requires CodeAt(code, base, Patch(c, |env|, fx), env)
    ensures CodeAt(code, base, c, env + [fx])
  {
    forall i | 0 <= i < |c|
      ensures code[base + i] == Resolved(c[i], env + [fx])
    {
      assert Patch(c, |env|, fx)[i] == MapTarget(c[i], |env|, fx);
    }
  }
}
