/** Where the two engines part, and what exactly decides whether they agree: for the conditions
    of `WellFormed` on `write`, on literals, on returned locals and on `++`. That the short-circuit
    operators need theirs is `RawValues.LogicalExact`. The other conditions (no transfer out of a
    `finally` block, no name it uses declared under it, no name declared by a `for` step) are what
    the proofs ask for; no program is given here on which the engines part without them. */
module Divergences {
  import opened Options
  import opened Values
  import opened Syntax
  import opened Interpreter
  import opened Bytecode
  import opened CodeGen
  import opened RegisterDiscipline
  import opened EnvFacts
  import opened Theorems
  import opened Simulation
  import opened StmtShapes
  import opened Unwinding
  import opened LeafProof
  import opened EffectProof
  import opened Transfers
  import opened StmtProof

  const X := ["x"]

  function One(s: Stmt): Stmts {
    Cons(s, Nil)
  }

  // The compiler's state at the first statement of a function of `$x`.
  function InX(pool: seq<Value>): CState {
    CState(RegState(1, 1, 1, [], {}), [Local("x", 0, 0)], 1, pool)
  }

  lemma StartX()
    ensures PushScope(InitState(X)) == InX([])
  {
    assert ParamLocals(X) == [Local("x", 0, 0)];
  }

  lemma BindX(ops: Ops, v: Value)
    ensures Bind(X, [v]) == map["x" := v] && Lookup(ops, [map["x" := v]], "x") == v
  {
    assert X[..0] == [] && [v][..0] == [];
    assert Bind([], []) == map[];
  }

  lemma RunTwo(ops: Ops, p: Proto, m: Machine)
    ensures Run(ops, p, m, 2) == Step(ops, p, Step(ops, p, m))
  {
    OneStep(ops, p, m);
    ThenStep(ops, p, m, 1, Step(ops, p, m));
  }

  function WriteX(): Stmt {
    Write(ECons(Var("x"), ENil), false)
  }

  lemma WriteCode()
    ensures GenStmt(WriteX(), 0, InX([]), [], []) == Gen([CallWrite(0, 0)], InX([]))
    ensures GenStmt(Return(Some(Var("x"))), 1, InX([]), [], []) == Gen([Instr.Ret(0)], InX([]))
  {
    assert Slot([Local("x", 0, 0)], "x") == Some(0);
  }

  lemma WriteProto()
    ensures CompileFunction(X, Cons(WriteX(), One(Return(Some(Var("x")))))).code
            == [CallWrite(0, 0), Instr.Ret(0), RetNull]
  {
    hide GenStmt;
    WriteCode();
    StartX();
  }

  // `write($x)` overwrites the local it prints: the call writes its null result into the
  // register of its argument, which is the local's own.
  lemma WriteClobbersLocal(ops: Ops, v: Value)
    ensures var body := Cons(WriteX(), One(Return(Some(Var("x")))));
            && Returns(ops, X, body, [v], v, ToStr(ops, v))
            && Halts(ops, CompileFunction(X, body), [v], Null, ToStr(ops, v))
  {
    hide CompileFunction;
    var body := Cons(WriteX(), One(Return(Some(Var("x")))));
    var p := CompileFunction(X, body);
    WriteProto();
    assert "" + ToStr(ops, v) == ToStr(ops, v);
    RunTwo(ops, p, Start([v]));
    assert Run(ops, p, Start([v]), 2) == Done(Null, ToStr(ops, v));
    BindX(ops, v);
    assert Call(ops, 0, X, body, [v]) == Returned(v, ToStr(ops, v));
  }

  // In general: after `write($y)` of a local the variables still agree exactly when the local
  // was null already.
  lemma WriteExact(ops: Ops, p: Proto, y: string, env: Env, cs: CState, m: Machine)
    requires Good(cs) && Slot(cs.locals, y).Some?
             && Agrees(ops, {}, env, cs.locals, if m.Running? then m.regs else map[])
    requires m.Running? && m.pc < |p.code|
    requires p.code[m.pc..m.pc + 1] == GenWrites(ECons(Var(y), ENil), true, m.pc, cs).code
    ensures var m2 := Step(ops, p, m);
            && m2.Running? && m2.out == m.out + ToStr(ops, Lookup(ops, env, y))
            && (Agrees(ops, {}, env, cs.locals, m2.regs) <==> Lookup(ops, env, y) == Null)
  {
    var s := Slot(cs.locals, y).value;
    assert GenWrites(ECons(Var(y), ENil), true, m.pc, cs).code == [CallWrite(s, s)];
    assert p.code[m.pc] == p.code[m.pc..m.pc + 1][0];
    var m2 := Step(ops, p, m);
    if Lookup(ops, env, y) == Null {
      forall z | Slot(cs.locals, z).Some?
        ensures Reg(m2.regs, Slot(cs.locals, z).value) == Reg(m.regs, Slot(cs.locals, z).value)
      {
      }
    } else {
      assert Reg(m2.regs, s) == Null;
    }
  }

  // ---------- constants ----------

  // The pool as `add_const` keeps it: no two entries are `==`.
  ghost predicate Distinct(pool: seq<Value>) {
    forall i, j :: 0 <= i < j < |pool| ==> !LooseEq(pool[i], pool[j])
  }

  // A constant is loaded as itself exactly when the pool holds no other value `==` to it.
  lemma ConstExact(cs: CState, v: Value)
    requires Distinct(cs.pool)
    ensures var (k, cs1) := AddConst(cs, v);
            && Distinct(cs1.pool) && k < |cs1.pool|
            && (cs1.pool[k] == v <==> forall i :: 0 <= i < |cs.pool| && LooseEq(cs.pool[i], v) ==> cs.pool[i] == v)
  {
    FirstEqualFacts(cs.pool, v);
    var (k, cs1) := AddConst(cs, v);
    if k < |cs.pool| && cs.pool[k] == v {
      forall i | 0 <= i < |cs.pool| && LooseEq(cs.pool[i], v)
        ensures i == k
      {
        assert LooseEq(cs.pool[i], cs.pool[k]) && LooseEq(cs.pool[k], cs.pool[i]);
      }
    }
  }

  function NoParams(pool: seq<Value>): CState {
    CState(RegState(0, 0, 0, [], {}), [], 1, pool)
  }

  lemma StartNone()
    ensures PushScope(InitState([])) == NoParams([])
  {
    assert ParamLocals([]) == [];
  }

  // The float an integer is compared as.
  function Twin(n: int): Value {
    Float(AsDouble(n) as real)
  }

  function Clash(n: int): Stmts {
    Cons(Write(ECons(Lit(Int(n)), ENil), false), One(Return(Some(Lit(Twin(n))))))
  }

  lemma ClashProto(n: int)
    requires !(-128 <= n <= 127)
    ensures CompileFunction([], Clash(n))
            == Proto([LoadConst(0, 0), CallWrite(0, 0), LoadConst(0, 0), Instr.Ret(0), RetNull], [Int(n)])
  {
    hide LooseEq;
    StartNone();
    var cs1 := CState(RegState(0, 1, 1, [0], {}), [], 1, [Int(n)]);
    assert LooseEq(Int(n), Twin(n)) by {
      NumbersEqual(n);
    }
    assert FirstEqual([], Int(n)) == 0;
    assert FirstEqual([Int(n)], Twin(n)) == 0;
    var csA := CState(RegState(0, 1, 1, [], {}), [], 1, []);
    assert AllocTemp(NoParams([])) == (0, csA);
    var csB := csA.(pool := [Int(n)]);
    assert [] + [Int(n)] == [Int(n)];
    assert LoadValue(0, Int(n), csA) == Gen([LoadConst(0, 0)], csB);
    assert GenExpr(Lit(Int(n)), None, 0, NoParams([])) == GenE([LoadConst(0, 0)], 0, csB);
    assert [] + [0] == [0];
    assert FreeTemp(csB, 0) == cs1;
    assert GenWrites(Clash(n).head.args, true, 0, NoParams([])) == Gen([LoadConst(0, 0), CallWrite(0, 0)], cs1);
    assert GenStmt(Clash(n).head, 0, NoParams([]), [], []) == Gen([LoadConst(0, 0), CallWrite(0, 0)], cs1);
    var cs2 := CState(RegState(0, 1, 1, [], {}), [], 1, [Int(n)]);
    assert [0][..0] == [];
    assert AllocTemp(cs1) == (0, cs2);
    assert LoadValue(0, Twin(n), cs2) == Gen([LoadConst(0, 0)], cs2);
    assert GenExpr(Lit(Twin(n)), None, 2, cs1) == GenE([LoadConst(0, 0)], 0, cs2);
    assert GenStmt(Clash(n).tail.head, 2, cs1, [], []) == Gen([LoadConst(0, 0), Instr.Ret(0)], cs1);
    ClashBlock(n, cs1);
  }

  lemma ClashBlock(n: int, cs1: CState)
    requires GenStmt(Clash(n).head, 0, NoParams([]), [], []) == Gen([LoadConst(0, 0), CallWrite(0, 0)], cs1)
    requires GenStmt(Clash(n).tail.head, 2, cs1, [], []) == Gen([LoadConst(0, 0), Instr.Ret(0)], cs1)
    requires cs1.locals == [] && cs1.pool == [Int(n)]
    ensures CompileFunction([], Clash(n))
            == Proto([LoadConst(0, 0), CallWrite(0, 0), LoadConst(0, 0), Instr.Ret(0), RetNull], [Int(n)])
  {
    hide GenStmt;
    StartNone();
    assert GenStmts(Nil, 4, cs1, [], []) == Gen([], cs1);
    assert GenStmts(Clash(n).tail, 2, cs1, [], []).code == [LoadConst(0, 0), Instr.Ret(0)];
    assert GenStmts(Clash(n), 0, NoParams([]), [], [])
      == Gen([LoadConst(0, 0), CallWrite(0, 0), LoadConst(0, 0), Instr.Ret(0)], cs1);
    assert PopLocals(cs1) == cs1;
  }

  lemma NumbersEqual(n: int)
    ensures LooseEq(Int(n), Twin(n)) && Int(n) != Twin(n)
  {
    hide AsDouble;
  }

  // Up to 2^53 that is the float of the same value; beyond, the nearest one there is.
  lemma TwinIs(n: int)
    ensures -0x20_0000_0000_0000 < n < 0x20_0000_0000_0000 ==> Twin(n) == Float(n as real)
    ensures Twin(0x20_0000_0000_0001) == Float(0x20_0000_0000_0000 as real)
  {
    NearestIs(if n < 0 then -n else n);
    WideTwin();
  }

  lemma WideTwin()
    ensures AsDouble(0x20_0000_0000_0001) == 0x20_0000_0000_0000
  {
    assert 0x20_0000_0000_0001 / 2 == 0x10_0000_0000_0000;
    assert Ulp(0x10_0000_0000_0000) == 1;
    assert Ulp(0x20_0000_0000_0001) == 2;
  }

  // An integer and the float it is compared as, literals of one function, share a pool entry:
  // the function returns the integer.
  lemma LiteralsMerge(ops: Ops, n: int)
    requires !(-128 <= n <= 127)
    ensures Returns(ops, [], Clash(n), [], Twin(n), ops.show(Int(n)))
    ensures Halts(ops, CompileFunction([], Clash(n)), [], Int(n), ops.show(Int(n)))
  {
    hide CompileFunction, Step, ExecStmts;
    ClashRun(ops, n);
    ClashCall(ops, n);
  }

  function ClashCode(): Code {
    [LoadConst(0, 0), CallWrite(0, 0), LoadConst(0, 0), Instr.Ret(0), RetNull]
  }

  lemma ClashWrites(ops: Ops, p: Proto, n: int)
    requires p == Proto(ClashCode(), [Int(n)])
    ensures var m := Run(ops, p, Start([]), 2); m.Running? && m.pc == 2 && m.out == ops.show(Int(n))
  {
    hide Run;
    RunTwo(ops, p, Start([]));
    assert "" + ops.show(Int(n)) == ops.show(Int(n));
  }

  lemma ClashReturns(ops: Ops, p: Proto, n: int, m: Machine)
    requires p == Proto(ClashCode(), [Int(n)]) && m.Running? && m.pc == 2
    ensures Run(ops, p, m, 2) == Done(Int(n), m.out)
  {
    hide Run;
    RunTwo(ops, p, m);
  }

  lemma ClashRun(ops: Ops, n: int)
    requires !(-128 <= n <= 127)
    ensures Run(ops, CompileFunction([], Clash(n)), Start([]), 4) == Done(Int(n), ops.show(Int(n)))
  {
    hide CompileFunction, Run, Step;
    var p := CompileFunction([], Clash(n));
    ClashProto(n);
    ClashWrites(ops, p, n);
    var m := Run(ops, p, Start([]), 2);
    ClashReturns(ops, p, n, m);
    Chain(ops, p, Start([]), 2, m, 2, Done(Int(n), m.out));
  }

  lemma ClashCall(ops: Ops, n: int)
    ensures Call(ops, 0, [], Clash(n), []) == Returned(Twin(n), ops.show(Int(n)))
  {
    var st := St([map[]], "");
    assert "" + ops.show(Int(n)) + "" == ops.show(Int(n));
    assert Exec(ops, 0, Clash(n).head, st) == Normal(St([map[]], ops.show(Int(n))));
    assert Bind([], []) == map[];
    assert ExecStmts(ops, 0, Clash(n).tail, St([map[]], ops.show(Int(n))))
      == Outcome.Ret(Twin(n), St([map[]], ops.show(Int(n))));
  }

  // ---------- a finally block that assigns the returned local ----------

  const XY := ["x", "y"]

  // try { return $x; } finally { $x = $y; }
  function Reassign(): Stmts {
    One(Try(One(Return(Some(Var("x")))), None, Some(One(Do(Assign("x", Plain, Var("y")))))))
  }

  function InXY(depth: nat): CState {
    CState(RegState(2, 2, 2, [], {}), [Local("x", 0, 0), Local("y", 1, 0)], depth, [])
  }

  lemma SlotsXY()
    ensures Slot([Local("x", 0, 0), Local("y", 1, 0)], "x") == Some(0)
    ensures Slot([Local("x", 0, 0), Local("y", 1, 0)], "y") == Some(1)
  {
    assert [Local("x", 0, 0), Local("y", 1, 0)][..1] == [Local("x", 0, 0)];
  }

  lemma FinallyCode(base: nat, depth: nat)
    requires depth > 0
    ensures var f := One(Do(Assign("x", Plain, Var("y"))));
            GenBlock(f, base, InXY(depth), [], []) == Gen([Move(0, 1)], InXY(depth))
  {
    SlotsXY();
    var s := Do(Assign("x", Plain, Var("y")));
    assert GenStmt(s, base, InXY(depth + 1), [], []) == Gen([Move(0, 1)], InXY(depth + 1));
    assert GenStmts(One(s), base, InXY(depth + 1), [], []) == Gen([Move(0, 1)], InXY(depth + 1));
    assert PopLocals(InXY(depth + 1)) == InXY(depth + 1);
  }

  lemma ReturnCode(base: nat, depth: nat)
    requires depth > 0
    ensures var f := One(Do(Assign("x", Plain, Var("y"))));
            GenStmt(Return(Some(Var("x"))), base, InXY(depth), [], [f]) == Gen([Move(0, 1), Instr.Ret(0)], InXY(depth))
  {
    hide GenBlock;
    SlotsXY();
    FinallyCode(base, depth);
    var f := One(Do(Assign("x", Plain, Var("y"))));
    assert [f][..0] == [];
    assert GenPending([f], 0, base, InXY(depth), []) == Gen([Move(0, 1)], InXY(depth));
  }

  lemma ReassignBody()
    ensures var f := One(Do(Assign("x", Plain, Var("y"))));
            GenBlock(One(Return(Some(Var("x")))), 1, InXY(1), [], [f]) == Gen([Move(0, 1), Instr.Ret(0)], InXY(1))
  {
    hide GenStmt;
    var f := One(Do(Assign("x", Plain, Var("y"))));
    ReturnCode(1, 2);
    var r := One(Return(Some(Var("x"))));
    assert GenStmts(Nil, 3, InXY(2), [], [f]) == Gen([], InXY(2));
    assert GenStmts(r, 1, InXY(2), [], [f]) == Gen([Move(0, 1), Instr.Ret(0)], InXY(2));
    assert PopLocals(InXY(2)) == InXY(2);
  }

  lemma ReassignCode()
    ensures var p := CompileFunction(XY, Reassign());
            |p.code| > 3 && p.code[0].TryPush? && p.code[0].t.At? && p.code[1] == Move(0, 1)
              && p.code[2] == Instr.Ret(0)
  {
    hide GenHandling, GenBlock, GenStmt;
    var f := One(Do(Assign("x", Plain, Var("y"))));
    assert ParamLocals(XY) == [Local("x", 0, 0), Local("y", 1, 0)];
    var cs := InXY(1);
    assert PushScope(InitState(XY)) == cs;
    ReassignBody();
    assert [] + [f] == [f];
    TryCode(Reassign().head, 0, cs, [], []);
    var g := GenStmt(Reassign().head, 0, cs, [], []);
    assert g.code[1] == Move(0, 1) && g.code[2] == Instr.Ret(0) && g.code[0].TryPush? && |g.code| > 3;
    ReassignTop(g);
  }

  lemma ReassignTop(g: Gen)
    requires g == GenStmt(Reassign().head, 0, InXY(1), [], [])
    ensures CompileFunction(XY, Reassign()).code == g.code + [RetNull]
  {
    hide GenStmt;
    assert ParamLocals(XY) == [Local("x", 0, 0), Local("y", 1, 0)];
    assert PushScope(InitState(XY)) == InXY(1);
    assert GenStmts(Nil, |g.code|, g.cs, [], []) == Gen([], g.cs);
    assert g.code + [] == g.code;
  }

  lemma ReassignRun(ops: Ops, v: Value, w: Value)
    ensures Run(ops, CompileFunction(XY, Reassign()), Start([v, w]), 3) == Done(w, "")
  {
    hide CompileFunction;
    var p := CompileFunction(XY, Reassign());
    ReassignCode();
    var m := Start([v, w]);
    RunTwo(ops, p, m);
    ThenStep(ops, p, m, 2, Step(ops, p, Step(ops, p, m)));
  }

  lemma ReassignCall(ops: Ops, v: Value, w: Value)
    ensures Call(ops, 0, XY, Reassign(), [v, w]) == Returned(v, "")
  {
    var env := [map["x" := v, "y" := w]];
    assert Bind([], []) == map[];
    assert XY[..1] == X && [v, w][..1] == [v];
    BindX(ops, v);
    assert Bind(XY, [v, w]) == env[0];
    var f := One(Do(Assign("x", Plain, Var("y"))));
    var r := One(Return(Some(Var("x"))));
    var st := St(env, "");
    var inner := St(env + [map[]], "");
    assert inner.env[..1] == env;
    assert Lookup(ops, inner.env, "x") == v;
    assert ExecStmts(ops, 0, r, inner) == Outcome.Ret(v, inner);
    assert ExecBlock(ops, 0, r, st) == Outcome.Ret(v, st);
    assert ExecStmts(ops, 0, f, inner).Normal?;
    assert ExecBlock(ops, 0, f, st).Normal? && ExecBlock(ops, 0, f, st).st.out == "";
    var o := Exec(ops, 0, Reassign().head, st);
    assert o.Ret? && o.v == v && o.st.out == "";
  }

  // The value is returned from the local's own register, after the block assigned it: the
  // engines agree exactly when the assignment changes nothing.
  lemma ReassignedReturn(ops: Ops, v: Value, w: Value)
    ensures Returns(ops, XY, Reassign(), [v, w], v, "")
    ensures Halts(ops, CompileFunction(XY, Reassign()), [v, w], w, "")
    ensures Halts(ops, CompileFunction(XY, Reassign()), [v, w], v, "") <==> v == w
  {
    hide CompileFunction, Call, Run;
    ReassignRun(ops, v, w);
    ReassignCall(ops, v, w);
    var p := CompileFunction(XY, Reassign());
    if Halts(ops, p, [v, w], v, "") {
      var n: nat :| Run(ops, p, Start([v, w]), n) == Done(v, "");
      StillDone(ops, p, Start([v, w]), n, if n <= 3 then 3 else n);
      StillDone(ops, p, Start([v, w]), 3, if n <= 3 then 3 else n);
    }
  }

  // In general, for a local declared outside every `try` being left, and any pending blocks:
  // the machine returns what the local holds after the blocks, so it returns the value
  // computed before them exactly when they leave the local as it was.
  lemma ReturnExact(x: Ctx, w: World, y: string, mk: Mark, depth: nat, base: nat, cs: CState, st: St, m: Machine)
    returns (n: nat, m2: Machine)
    requires |w.marks| == |w.loops| == |x.fixes| && |w.pending| == |w.pends|
    requires Stands(m, base) && m.out == st.out && Good(cs) && NoShadow(st.env)
    requires Agrees(x.ops, w.dead, st.env, cs.locals, m.regs)
    requires ExitOk(x.lits, w, 0, mk, depth, st.env, cs.locals)
    requires var g := GenStmt(Return(Some(Var(y))), base, cs, w.loops, w.pending); Fits(x, g.code, base, g.cs.pool)
    requires Slot(cs.locals, y).Some? && y !in w.dead && y !in Later(cs.locals, mk.k)
    ensures Run(x.ops, x.p, m, n) == m2
    ensures var u := Unwind(x.ops, w.pending, w.pends, 0, mk.d, st);
            && (u.UOk? ==>
                  && m2 == Done(Lookup(x.ops, u.st.env, y), u.st.out)
                  && (m2 == Done(Lookup(x.ops, st.env, y), u.st.out)
                      <==> Lookup(x.ops, u.st.env, y) == Lookup(x.ops, st.env, y)))
            && (u.UOut? ==> u.i < |w.pending| && Out(m2, n, SizeStmts(w.pending[u.i]), w.pends[u.i].fuel))
  {
    hide GenPending, GenStmt, Fits, Good, NoShadow, ExitOk, PendPre, KeepsBut, Step, Unwind, Run;
    ReturnFits(x, w, Var(y), base, cs);
    var s := Slot(cs.locals, y).value;
    assert GenExpr(Var(y), None, base, cs) == GenE([], s, cs);
    var w1 := w.(wr := PendWrites(w.pending));
    ExitWrites(x.lits, w, 0, mk, depth, st.env, cs.locals);
    PendEnter(x, w1, 0, mk, depth, base, cs, st, m);
    n, m2 := PendSim(x, w1, 0, mk, w.dead, depth, base, cs, st, m);
    var u := Unwind(x.ops, w.pending, w.pends, 0, mk.d, st);
    if u.UOk? {
      SlotSplit(cs.locals, mk.k, y);
      SlotValue(x.ops, w.dead, u.st.env, cs.locals[..mk.k], m2.regs, y);
      ThenStep(x.ops, x.p, m, n, m2);
      RetStep(x, m2, s);
      n, m2 := n + 1, Step(x.ops, x.p, m2);
    }
  }

  lemma RetStep(x: Ctx, m: Machine, r: nat)
    requires m.Running? && m.pc < |x.p.code| && x.p.code[m.pc] == Instr.Ret(r)
    ensures Step(x.ops, x.p, m) == Done(Reg(m.regs, r), m.out)
  {
  }

  // ---------- incrementing a global ----------

  // { $g++; } return $g;
  function Increment(): Stmts {
    Cons(Block(One(Do(IncDec("g", true, false)))), One(Return(Some(Var("g")))))
  }

  function IncCode(): Code {
    [LoadInt(0, 1), LoadGlobal(1, 0), Bin2(Add, 2, 1, 0), StoreGlobal(2, 0)]
  }

  // The compiler's state behind the increment: three registers, back in the pool.
  function Behind(depth: nat, free: seq<nat>): CState {
    CState(RegState(0, 3, 3, free, {}), [], depth, [Str("g")])
  }

  lemma IncDecCode()
    ensures GenIncDec("g", true, false, NoParams([]).(depth := 2)) == GenE(IncCode(), 1, Behind(2, [2, 0]))
  {
    var cs := NoParams([]).(depth := 2);
    var cs1 := CState(RegState(0, 1, 1, [], {}), [], 2, []);
    var cs2 := CState(RegState(0, 2, 2, [], {}), [], 2, []);
    var cs2' := cs2.(pool := [Str("g")]);
    assert AllocTemp(cs) == (0, cs1) && AllocTemp(cs1) == (1, cs2) && AllocTemp(cs2') == (2, Behind(2, []));
    assert [] + [Str("g")] == [Str("g")];
    assert AddConst(cs2, Str("g")) == (0, cs2');
    assert [] + [2] == [2] && [2] + [0] == [2, 0];
    assert FreeTemp(FreeTemp(Behind(2, []), 2), 0) == Behind(2, [2, 0]);
    assert IncCode() + [] == IncCode();
  }

  lemma IncBlock()
    ensures GenStmt(Increment().head, 0, NoParams([]), [], []) == Gen(IncCode(), Behind(1, [2, 0, 1]))
  {
    hide GenIncDec, IncCode;
    var s := Increment().head.body.head;
    var cs := NoParams([]).(depth := 2);
    IncDecCode();
    assert [2, 0] + [1] == [2, 0, 1];
    assert FreeTemp(Behind(2, [2, 0]), 1) == Behind(2, [2, 0, 1]);
    assert GenStmt(s, 0, cs, [], []) == Gen(IncCode(), Behind(2, [2, 0, 1]));
    assert IncCode() + [] == IncCode();
    assert GenStmts(One(s), 0, cs, [], []) == Gen(IncCode(), Behind(2, [2, 0, 1])) by {
      hide GenStmt;
    }
    assert PopLocals(Behind(2, [2, 0, 1])) == Behind(2, [2, 0, 1]);
  }

  lemma IncReturn()
    ensures GenStmt(Return(Some(Var("g"))), 4, Behind(1, [2, 0, 1]), [], [])
         == Gen([LoadGlobal(1, 0), Instr.Ret(1)], Behind(1, [2, 0, 1]))
  {
    assert [2, 0, 1][..2] == [2, 0];
    assert AllocTemp(Behind(1, [2, 0, 1])) == (1, Behind(1, [2, 0]));
    assert FirstEqual([Str("g")], Str("g")) == 0;
    assert GenExpr(Var("g"), None, 4, Behind(1, [2, 0, 1])) == GenE([LoadGlobal(1, 0)], 1, Behind(1, [2, 0]));
    assert [2, 0] + [1] == [2, 0, 1];
  }

  lemma IncrementCode()
    ensures var p := CompileFunction([], Increment());
            p.pool == [Str("g")] && p.code == IncCode() + [LoadGlobal(1, 0), Instr.Ret(1)] + [RetNull]
  {
    hide GenStmt;
    StartNone();
    IncBlock();
    IncReturn();
    var cs := Behind(1, [2, 0, 1]);
    assert GenStmts(Nil, 6, cs, [], []) == Gen([], cs);
    assert GenStmts(Increment().tail, 4, cs, [], []) == Gen([LoadGlobal(1, 0), Instr.Ret(1)], cs);
    assert GenStmts(Increment(), 0, NoParams([]), [], []) == Gen(IncCode() + [LoadGlobal(1, 0), Instr.Ret(1)], cs);
    assert PopLocals(cs) == cs;
  }

  lemma IncrementRun(ops: Ops)
    ensures Run(ops, CompileFunction([], Increment()), Start([]), 6) == Done(ops.bin(Add, ops.global("g"), Int(1)), "")
  {
    hide CompileFunction;
    var p := CompileFunction([], Increment());
    IncrementCode();
    var m := Start([]);
    var v := ops.bin(Add, ops.global("g"), Int(1));
    RunTwo(ops, p, m);
    var m2 := Run(ops, p, m, 2);
    assert m2.pc == 2 && Reg(m2.regs, 0) == Int(1) && Reg(m2.regs, 1) == ops.global("g") && m2.out == "";
    RunTwo(ops, p, m2);
    var m4 := Run(ops, p, m2, 2);
    assert m4.pc == 4 && m4.globals == map["g" := v] && m4.out == "";
    RunTwo(ops, p, m4);
    Chain(ops, p, m, 2, m2, 2, m4);
    Chain(ops, p, m, 4, m4, 2, Done(v, ""));
  }

  lemma IncrementCall(ops: Ops)
    ensures Call(ops, 0, [], Increment(), []) == Returned(ops.global("g"), "")
  {
    var st := St([map[]], "");
    assert Bind([], []) == map[];
    var inner := Increment().head.body;
    var in2 := St([map[]] + [map[]], "");
    var o := ExecStmts(ops, 0, inner, in2);
    assert o.Normal? && o.st.env[..1] == [map[]] && o.st.out == "";
    assert Exec(ops, 0, Increment().head, st) == Normal(st);
    assert Lookup(ops, [map[]], "g") == ops.global("g") by {
      var e: Env := [map[]];
      assert e[..0] == [];
    }
  }

  // Incrementing a name that is no local changes the global itself; the interpreter makes
  // it a local of the block. The engines agree exactly when adding one changes nothing.
  lemma GlobalIncrement(ops: Ops)
    ensures Returns(ops, [], Increment(), [], ops.global("g"), "")
    ensures Halts(ops, CompileFunction([], Increment()), [], ops.bin(Add, ops.global("g"), Int(1)), "")
    ensures Halts(ops, CompileFunction([], Increment()), [], ops.global("g"), "")
       <==> ops.bin(Add, ops.global("g"), Int(1)) == ops.global("g")
  {
    hide CompileFunction, Call, Run;
    IncrementRun(ops);
    IncrementCall(ops);
    var p := CompileFunction([], Increment());
    if Halts(ops, p, [], ops.global("g"), "") {
      var n: nat :| Run(ops, p, Start([]), n) == Done(ops.global("g"), "");
      StillDone(ops, p, Start([]), n, if n <= 6 then 6 else n);
      StillDone(ops, p, Start([]), 6, if n <= 6 then 6 else n);
    }
  }

  // In general: `++` or `--` on a name that is no local leaves the locals alone and stores the
  // new value in the global, where every scope sees it. The interpreter declares the name in
  // the innermost scope; when that is left the engines agree on the name exactly when its
  // value is the one it had.
  lemma IncrementExact(ops: Ops, p: Proto, y: string, inc: bool, prefix: bool, env: Env, cs: CState, m: Machine)
    requires Good(cs) && env != [] && Slot(cs.locals, y).None? && !Visible(env, y)
    requires m.Running? && y !in m.globals && Agrees(ops, {}, env, cs.locals, m.regs)
    requires var g := GenIncDec(y, inc, prefix, cs);
             && m.pc + |g.code| <= |p.code| && p.code[m.pc..m.pc + |g.code|] == g.code && g.cs.pool <= p.pool
    ensures var g := GenIncDec(y, inc, prefix, cs);
            var m2 := Run(ops, p, m, |g.code|);
            var env2 := ExecEffect(ops, IncDec(y, inc, prefix), St(env, "")).env;
            var v := Apply2(ops, if inc then Add else Sub, ops.global(y), Int(1));
            && m2.Running? && m2.pc == m.pc + |g.code| && m2.out == m.out
            && m2.globals == m.globals[y := v] && Agrees(ops, {}, env, cs.locals, m2.regs)
            && |env2| == |env| && Lookup(ops, env2, y) == v
            && (m2.globals[y] == Lookup(ops, env2[..|env| - 1], y) <==> v == ops.global(y))
  {
    hide Good, Agrees, AllocTemp, FreeTemp, AddConst, Step, Run, GenIncDec, Apply2, Slot;
    var op := if inc then Add else Sub;
    var v := Apply2(ops, op, ops.global(y), Int(1));
    var one, r, nv, k := IncrementCodeIs(y, inc, prefix, cs, p.pool);
    IncrementSteps(ops, p, y, op, prefix, one, r, nv, k, m);
    var b := m.regs;
    ScratchAgrees(ops, {}, env, cs, b, one, Int(1));
    ScratchAgrees(ops, {}, env, cs, b[one := Int(1)], r, ops.global(y));
    ScratchAgrees(ops, {}, env, cs, b[one := Int(1)][r := ops.global(y)], nv, v);
    ScratchAgrees(ops, {}, env, cs, b[one := Int(1)][r := ops.global(y)][nv := v], r, v);
    DeclaredInside(ops, env, y, v);
  }

  function IncrementIs(op: BinOp, one: nat, r: nat, nv: nat, k: nat, prefix: bool): Code {
    [LoadInt(one, 1), LoadGlobal(r, k), Bin2(op, nv, r, one), StoreGlobal(nv, k)]
    + (if prefix then [Move(r, nv)] else [])
  }

  lemma IncrementCodeIs(y: string, inc: bool, prefix: bool, cs: CState, pool: seq<Value>)
    returns (one: nat, r: nat, nv: nat, k: nat)
    requires Good(cs) && Slot(cs.locals, y).None? && GenIncDec(y, inc, prefix, cs).cs.pool <= pool
    ensures GenIncDec(y, inc, prefix, cs).code == IncrementIs(if inc then Add else Sub, one, r, nv, k, prefix)
    ensures !Busy(cs.rs, one) && !Busy(cs.rs, r) && !Busy(cs.rs, nv) && one != r && r != nv && one != nv
    ensures k < |pool| && pool[k] == Str(y)
  {
    hide Good, Busy, Slot, AllocTemp;
    FreshThree(cs, Some(Str(y)));
    one := AllocTemp(cs).0;
    var cs1 := AllocTemp(cs).1;
    r := AllocTemp(cs1).0;
    var cs2 := AllocTemp(cs1).1;
    var cs3 := AddConst(cs2, Str(y)).1;
    k := AddConst(cs2, Str(y)).0;
    nv := AllocTemp(cs3).0;
    var cs4 := AllocTemp(cs3).1;
    PoolSame(cs3);
    KeepFree(cs4, nv);
    KeepFree(FreeTemp(cs4, nv), one);
    FirstEqualFacts(cs2.pool, Str(y));
    assert cs3.pool <= pool && cs3.pool[k] == Str(y);
  }

  lemma PoolSame(cs: CState)
    ensures AllocTemp(cs).1.pool == cs.pool
  {
  }

  lemma IncrementSteps(ops: Ops, p: Proto, y: string, op: BinOp, prefix: bool, one: nat, r: nat, nv: nat, k: nat,
      m: Machine)
    requires m.Running? && y !in m.globals && k < |p.pool| && p.pool[k] == Str(y) && one != r && r != nv && one != nv
    requires var c := IncrementIs(op, one, r, nv, k, prefix);
             m.pc + |c| <= |p.code| && p.code[m.pc..m.pc + |c|] == c
    ensures var n := |IncrementIs(op, one, r, nv, k, prefix)|;
            var v := Apply2(ops, op, ops.global(y), Int(1));
            var b := m.regs[one := Int(1)][r := ops.global(y)][nv := v];
            Run(ops, p, m, n) == m.(pc := m.pc + n, regs := if prefix then b[r := v]
                                    else b, globals := m.globals[y := v])
  {
    hide Apply2, Run;
    var c := IncrementIs(op, one, r, nv, k, prefix);
    forall i | 0 <= i < |c|
      ensures p.code[m.pc + i] == c[i]
    {
      assert p.code[m.pc + i] == p.code[m.pc..m.pc + |c|][i];
    }
    assert p.code[m.pc + 0] == c[0];
    assert p.code[m.pc + 1] == c[1];
    assert p.code[m.pc + 2] == c[2];
    assert p.code[m.pc + 3] == c[3];
    FourSteps(ops, p, y, op, one, r, nv, k, m);
    if prefix {
      assert p.code[m.pc + 4] == c[4];
      ThenStep(ops, p, m, 4, Run(ops, p, m, 4));
    }
  }

  lemma FourSteps(ops: Ops, p: Proto, y: string, op: BinOp, one: nat, r: nat, nv: nat, k: nat, m: Machine)
    requires m.Running? && y !in m.globals && k < |p.pool| && p.pool[k] == Str(y) && one != r && r != nv && one != nv
    requires m.pc + 4 <= |p.code| && p.code[m.pc] == LoadInt(one, 1) && p.code[m.pc + 1] == LoadGlobal(r, k)
    requires p.code[m.pc + 2] == Bin2(op, nv, r, one) && p.code[m.pc + 3] == StoreGlobal(nv, k)
    ensures var v := Apply2(ops, op, ops.global(y), Int(1));
            Run(ops, p, m, 4) == m.(pc := m.pc + 4, regs := m.regs[one := Int(1)][r := ops.global(y)][nv := v],
                                    globals := m.globals[y := v])
  {
    hide Apply2, Run;
    RunTwo(ops, p, m);
    var m2 := Run(ops, p, m, 2);
    assert m2 == m.(pc := m.pc + 2, regs := m.regs[one := Int(1)][r := ops.global(y)]);
    RunTwo(ops, p, m2);
    Chain(ops, p, m, 2, m2, 2, Run(ops, p, m2, 2));
  }

  // The interpreter's side: a new local of the innermost scope.
  lemma DeclaredInside(ops: Ops, env: Env, y: string, v: Value)
    requires env != [] && !Visible(env, y)
    ensures var env2 := SetVar(env, y, v);
            && |env2| == |env| && Lookup(ops, env2, y) == v && env2[..|env| - 1] == env[..|env| - 1]
            && Lookup(ops, env, y) == ops.global(y) && Lookup(ops, env[..|env| - 1], y) == ops.global(y)
  {
    LookupGlobal(ops, env, y);
    LookupGlobal(ops, env[..|env| - 1], y);
  }
}
