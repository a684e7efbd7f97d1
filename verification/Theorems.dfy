/** Both engines agree on every well-formed function. */
module Theorems {
  import opened Options
  import opened Values
  import opened Syntax
  import opened Interpreter
  import opened Bytecode
  import opened CodeGen
  import opened RegisterDiscipline
  import opened ScopeDiscipline
  import opened GenFacts
  import opened Discipline
  import opened EnvFacts
  import opened Simulation
  import opened ExprProof
  import opened Unwinding
  import opened LeafProof
  import opened Transfers
  import opened StmtShapes
  import opened StmtProof
  import opened Emission

  // ---------- a call, on both sides ----------

  // The parameters of a call, bound one after the other.
  function Bind(params: seq<string>, args: seq<Value>): map<string, Value>
    requires |args| == |params|
  {
    if params == [] then map[]
    else Bind(params[..|params| - 1], args[..|args| - 1])[params[|params| - 1] := args[|args| - 1]]
  }

  datatype Result = Returned(v: Value, out: string) | Exhausted

  // `call_function`: the statements run in the frame of the parameters.
  function Call(ops: Ops, fuel: nat, params: seq<string>, body: Stmts, args: seq<Value>): Result
    requires |args| == |params|
  {
    match ExecStmts(ops, fuel, body, St([Bind(params, args)], ""))
    case Normal(st) => Returned(Null, st.out)
    case Ret(v, st) => Returned(v, st.out)
    case Brk(st) => Returned(Null, st.out)
    case Cont(st) => Returned(Null, st.out)
    case OutOfFuel => Exhausted
  }

  function ParamLocals(params: seq<string>): seq<Local> {
    seq(|params|, i requires 0 <= i < |params| => Local(params[i], i, 0))
  }

  function InitState(params: seq<string>): CState {
    CState(RegState(|params|, |params|, |params|, [], {}), ParamLocals(params), 0, [])
  }

  // The body in a scope of its own, and a final `RETURN_NULL`.
  function CompileFunction(params: seq<string>, body: Stmts): Proto {
    var g := GenBlock(body, 0, InitState(params), [], []);
    Proto(g.code + [RetNull], g.cs.pool)
  }

  function ArgRegs(args: seq<Value>): Regs {
    map i: nat | i < |args| :: args[i]
  }

  function Start(args: seq<Value>): Machine {
    Running(0, ArgRegs(args), "", map[], [], Null)
  }

  // Conditions on the syntax, all of which a compiler could check.
  ghost predicate WellFormed(params: seq<string>, body: Stmts) {
    && StmtsOk(body, set i | 0 <= i < |params| :: params[i], [])
    && PlacedIn(body, false, false, true)
    && NoClash(StmtsLits(body))
  }

  // ---------- the start of a run ----------

  lemma {:induction false} ParamsAgree(ops: Ops, params: seq<string>, args: seq<Value>, regs: Regs, y: string)
    requires |args| == |params| && forall i :: 0 <= i < |args| ==> Reg(regs, i) == args[i]
    ensures var env := [Bind(params, args)];
            var locals := ParamLocals(params);
            && (y in Bind(params, args) <==> Slot(locals, y).Some?)
            && (y in params <==> y in Bind(params, args))
            && (y in Bind(params, args) ==> Reg(regs, Slot(locals, y).value) == Bind(params, args)[y])
    decreases |params|
  {
    var n := |params|;
    if n > 0 {
      ParamsAgree(ops, params[..n - 1], args[..n - 1], regs, y);
      assert ParamLocals(params)[..n - 1] == ParamLocals(params[..n - 1]);
      assert params == params[..n - 1] + [params[n - 1]];
    }
  }

  function TopWorld(body: Stmts): World {
    World([], [], [], [], [], {}, AssignedIn(body), false, false, true)
  }

  lemma InitGood(params: seq<string>)
    ensures Good(InitState(params))
  {
  }

  lemma TopReady(x: Ctx, params: seq<string>, body: Stmts, args: seq<Value>)
    requires |args| == |params| && x.fixes == []
    ensures Ready(x, TopWorld(body), set i | 0 <= i < |params| :: params[i], 0, PushScope(InitState(params)),
                  St([Bind(params, args)], ""), Start(args))
  {
    var env := [Bind(params, args)];
    var cs := PushScope(InitState(params));
    var vis := set i | 0 <= i < |params| :: params[i];
    InitGood(params);
    PushFacts(InitState(params));
    forall y
      ensures y in vis <==> Visible(env, y)
      ensures Visible(env, y) <==> Slot(cs.locals, y).Some?
      ensures Slot(cs.locals, y).Some? ==> Reg(ArgRegs(args), Slot(cs.locals, y).value) == Lookup(x.ops, env, y)
    {
      ParamsAgree(x.ops, params, args, ArgRegs(args), y);
      assert y in params <==> y in vis;
      assert Visible(env, y) <==> y in env[0];
      if y in env[0] {
        LookupIn(x.ops, env, 0, y);
      }
    }
    assert MarkOk(Mark(0, 0), {}, 0, env, cs.locals) by {
      assert env[..0] == [] && cs.locals[..0] == [];
    }
  }

  // What a run of the compiled function needs of its code.
  lemma TopCode(ops: Ops, params: seq<string>, body: Stmts)
    requires NoClash(StmtsLits(body))
    ensures var p := CompileFunction(params, body);
            var x := Ctx(ops, p, StmtsLits(body), []);
            var g := GenStmts(body, 0, PushScope(InitState(params)), [], []);
            && Fits(x, g.code, 0, g.cs.pool)
            && p.code == g.code + [RetNull]
            && StmtPost(PushScope(InitState(params)), g.cs)
  {
    var p := CompileFunction(params, body);
    var g := GenStmts(body, 0, PushScope(InitState(params)), [], []);
    InitGood(params);
    PushFacts(InitState(params));
    StmtsFacts(body, 0, PushScope(InitState(params)), [], []);
    PopPool(g.cs);
    BlockIn(body, 0, InitState(params), [], [], StmtsLits(body));
    forall i | 0 <= i < |g.code|
      ensures p.code[i] == Resolved(g.code[i], [])
    {
      NothingToPatch(g.code[i]);
    }
  }

  lemma NothingToPatch(i: Instr)
    ensures Resolved(i, []) == i
  {
  }

  // ---------- agreement ----------

  // With this much fuel, the interpreter returns and the machine halts with the same value
  // and output, or the interpreter is exhausted and the machine still running after nearly
  // as many steps.
  lemma FunctionSim(ops: Ops, fuel: nat, params: seq<string>, body: Stmts, args: seq<Value>)
    returns (n: nat, m2: Machine)
    requires WellFormed(params, body) && |args| == |params|
    ensures Run(ops, CompileFunction(params, body), Start(args), n) == m2
    ensures match Call(ops, fuel, params, body, args)
            case Returned(v, out) => m2 == Done(v, out)
            case Exhausted => m2.Running? && n + SizeStmts(body) >= fuel
  {
    hide Ready, GenStmts, Fits, Ends, ExecStmts, WorldOk, StmtPost;
    var p := CompileFunction(params, body);
    var x := Ctx(ops, p, StmtsLits(body), []);
    var w := TopWorld(body);
    var cs := PushScope(InitState(params));
    var st := St([Bind(params, args)], "");
    var vis := set i | 0 <= i < |params| :: params[i];
    TopReady(x, params, body, args);
    TopCode(ops, params, body);
    var g := GenStmts(body, 0, cs, [], []);
    n, m2 := StmtsSim(x, w, fuel, body, vis, 0, cs, st, Start(args));
    var o := ExecStmts(ops, fuel, body, st);
    TopEnds(x, w, cs, g.cs, |g.code|, SizeStmts(body), fuel, o, ArgRegs(args), n, m2);
    if o.Normal? {
      ThenStep(ops, p, Start(args), n, m2);
      n, m2 := n + 1, Step(ops, p, m2);
    }
  }

  lemma TopEnds(x: Ctx, w: World, cs: CState, cs1: CState, end: nat, size: nat, fuel: nat, o: Outcome, a: Regs, n: nat,
      m2: Machine)
    requires x.fixes == [] && w.loops == [] && w.marks == [] && w.pending == [] && w.pends == [] && !w.brk && !w.cont
    requires Ends(x, w, cs, cs1, end, size, fuel, o, a, n, m2)
    ensures match o
            case OutOfFuel => m2.Running? && n + size >= fuel
            case Normal(st) => m2.Running? && m2.pc == end && m2.out == st.out
            case Ret(v, st) => m2 == Done(v, st.out)
            case Brk(_) => false
            case Cont(_) => false
  {
  }

  ghost predicate Returns(ops: Ops, params: seq<string>, body: Stmts, args: seq<Value>, v: Value, out: string)
    requires |args| == |params|
  {
    exists fuel: nat :: Call(ops, fuel, params, body, args) == Returned(v, out)
  }

  ghost predicate Halts(ops: Ops, p: Proto, args: seq<Value>, v: Value, out: string) {
    exists n: nat :: Run(ops, p, Start(args), n) == Done(v, out)
  }

  lemma StillDone(ops: Ops, p: Proto, m: Machine, i: nat, j: nat)
    requires !Run(ops, p, m, i).Running? && i <= j
    ensures Run(ops, p, m, j) == Run(ops, p, m, i)
  {
    RunAdd(ops, p, m, i, j - i);
    RunHalted(ops, p, Run(ops, p, m, i), j - i);
  }

  // The main theorem: the compiled function halts with a value and an output exactly when
  // the interpreter returns that value with that output.
  lemma CompilerCorrect(ops: Ops, params: seq<string>, body: Stmts, args: seq<Value>, v: Value, out: string)
    requires WellFormed(params, body) && |args| == |params|
    ensures Returns(ops, params, body, args, v, out) <==> Halts(ops, CompileFunction(params, body), args, v, out)
  {
    hide CompileFunction, Call, WellFormed;
    var p := CompileFunction(params, body);
    if Returns(ops, params, body, args, v, out) {
      var fuel: nat :| Call(ops, fuel, params, body, args) == Returned(v, out);
      var n, m2 := FunctionSim(ops, fuel, params, body, args);
    }
    if Halts(ops, p, args, v, out) {
      var n0: nat :| Run(ops, p, Start(args), n0) == Done(v, out);
      var fuel := n0 + SizeStmts(body) + 1;
      var n, m2 := FunctionSim(ops, fuel, params, body, args);
      if n <= n0 {
        if m2.Done? {
          StillDone(ops, p, Start(args), n, n0);
        }
      } else {
        StillDone(ops, p, Start(args), n0, n);
      }
      assert Call(ops, fuel, params, body, args) == Returned(v, out);
    }
  }

  // The interpreter never finishes exactly when the machine runs for ever; in particular
  // the machine never gets stuck and no exception escapes it.
  lemma DivergenceCorrect(ops: Ops, params: seq<string>, body: Stmts, args: seq<Value>)
    requires WellFormed(params, body) && |args| == |params|
    ensures (forall fuel: nat :: Call(ops, fuel, params, body, args).Exhausted?)
       <==> (forall n: nat :: Run(ops, CompileFunction(params, body), Start(args), n).Running?)
    ensures forall n: nat :: var m := Run(ops, CompileFunction(params, body), Start(args), n); m.Running? || m.Done?
  {
    hide CompileFunction, Call, WellFormed;
    var p := CompileFunction(params, body);
    forall n: nat
      ensures var m := Run(ops, p, Start(args), n);
              m.Running? || (m.Done? && exists fuel: nat :: !Call(ops, fuel, params, body, args).Exhausted?)
    {
      var fuel := n + SizeStmts(body) + 1;
      var n1, m1 := FunctionSim(ops, fuel, params, body, args);
      if !Run(ops, p, Start(args), n).Running? {
        if n1 <= n {
          StillDone(ops, p, Start(args), n1, n);
        } else {
          StillDone(ops, p, Start(args), n, n1);
        }
      }
    }
    if fuel: nat :| !Call(ops, fuel, params, body, args).Exhausted? {
      var n, m2 := FunctionSim(ops, fuel, params, body, args);
      assert !Run(ops, p, Start(args), n).Running?;
    }
    if n: nat :| !Run(ops, p, Start(args), n).Running? {
      var fuel: nat :| !Call(ops, fuel, params, body, args).Exhausted?;
    }
  }

  // More fuel never changes what the interpreter returns.
  lemma ReturnsOnce(ops: Ops, params: seq<string>, body: Stmts, args: seq<Value>, v1: Value, out1: string, v2: Value,
      out2: string)
    requires WellFormed(params, body) && |args| == |params|
    requires Returns(ops, params, body, args, v1, out1) && Returns(ops, params, body, args, v2, out2)
    ensures v1 == v2 && out1 == out2
  {
    hide CompileFunction, Call, WellFormed;
    var p := CompileFunction(params, body);
    CompilerCorrect(ops, params, body, args, v1, out1);
    CompilerCorrect(ops, params, body, args, v2, out2);
    var i: nat :| Run(ops, p, Start(args), i) == Done(v1, out1);
    var j: nat :| Run(ops, p, Start(args), j) == Done(v2, out2);
    StillDone(ops, p, Start(args), i, if i <= j then j else i);
    StillDone(ops, p, Start(args), j, if i <= j then j else i);
  }

  // Every jump of the compiled function, well-formed or not, has been patched, and lands on
  // one of its instructions.
  lemma JumpsPatched(params: seq<string>, body: Stmts)
    ensures var p := CompileFunction(params, body);
            CodeIn(p.code, 0, |p.code| - 1, 0)
  {
    BlockIn(body, 0, InitState(params), [], [], StmtsLits(body));
    var g := GenBlock(body, 0, InitState(params), [], []);
    SoundWith(g.code, RetNull, 0, |g.code| + 1, 0);
    forall i | 0 <= i < |g.code|
      ensures InstrIn((g.code + [RetNull])[i], 0, |g.code|, 0)
    {
      assert InstrIn(g.code[i], 0, |g.code|, 0);
    }
  }
}
