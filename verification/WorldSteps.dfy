/** How the surroundings of a statement change: after it, inside a block, a loop, a switch, a
    `try`, and in an inlined `finally` block. */
module WorldSteps {
  import opened Options
  import opened Values
  import opened Syntax
  import opened Interpreter
  import opened Bytecode
  import opened CodeGen
  import opened RegisterDiscipline
  import opened ScopeDiscipline
  import opened GenFacts
  import opened Discipline
  import opened EnvFacts
  import opened Simulation
  import opened ExprProof
  import opened Unwinding
  import opened LeafProof
  import opened EffectProof
  import opened Transfers

  // ---------- after a statement ----------

  // Only an assignment to a name that is not a local declares one.
  lemma StmtLocals(s: Stmt, base: nat, cs: CState, loops: seq<Loop>, pending: seq<Stmts>)
    requires Good(cs)
    ensures var g := GenStmt(s, base, cs, loops, pending);
            && StmtPost(cs, g.cs)
            && (g.cs.locals == cs.locals
                || (s.Do? && s.effect.Assign? && Slot(cs.locals, s.effect.x).None?
                    && |g.cs.locals| == |cs.locals| + 1 && g.cs.locals[|cs.locals|].name == s.effect.x))
  {
    hide Good, StmtPost, Neutral;
    hide GenExpr, GenBlock, GenStmts, GenPending, GenLoop, GenEffect, GenWrites, Alloc, Free, Slot, GenChecks, GenCases;
    var g := GenStmt(s, base, cs, loops, pending);
    StmtFacts(s, base, cs, loops, pending);
    match s
    case Do(f) => EffectLocals(f, base, cs);
    case While(c, body) => WhileLocals(c, body, base, cs, loops, pending);
    case _ => NonEffectLocals(s, base, cs, loops, pending);
  }

  lemma EffectLocals(f: Effect, base: nat, cs: CState)
    requires Good(cs)
    ensures var g := GenEffect(f, base, cs);
            || g.cs.locals == cs.locals
            || (f.Assign? && Slot(cs.locals, f.x).None?
                && |g.cs.locals| == |cs.locals| + 1 && g.cs.locals[|cs.locals|].name == f.x)
  {
    hide Good, GoodRegs, SameBusy, PlusTemp, Held, Busy, GenExpr, GenAssign, GenIncDec, Free, Alloc;
    if f.Assign? {
      AssignFacts(f.x, f.aop, f.rhs, base, cs);
    } else {
      EffectValueFacts(f, base, cs);
    }
  }

  lemma WhileLocals(c: Expr, body: Stmts, base: nat, cs: CState, loops: seq<Loop>, pending: seq<Stmts>)
    requires Good(cs)
    ensures GenLoop(Some(c), None, body, true, base, cs, loops, pending).cs.locals == cs.locals
  {
    hide Good, GenBlock, SameBusy;
    TestFacts(Some(c), 0, base, cs);
    var gt := GenTest(Some(c), 0, base, cs);
    NeutralLocals(cs, gt.cs);
    BlockFacts(body, base + |gt.code|, gt.cs, loops + [Loop(false, |pending|)], pending);
  }

  // Every other statement closes the scopes it opens.
  lemma NonEffectLocals(s: Stmt, base: nat, cs: CState, loops: seq<Loop>, pending: seq<Stmts>)
    requires Good(cs) && !s.Do? && !s.While?
    ensures GenStmt(s, base, cs, loops, pending).cs.locals == cs.locals
  {
    hide Neutral, GenStmt, Good;
    StmtFacts(s, base, cs, loops, pending);
    NeutralLocals(cs, GenStmt(s, base, cs, loops, pending).cs);
  }

  lemma LaterOne(locals: seq<Local>, locals1: seq<Local>)
    requires locals <= locals1 && |locals1| <= |locals| + 1
    ensures forall y :: y in Later(locals1, |locals|) ==> |locals1| == |locals| + 1 && y == locals1[|locals|].name
  {
  }

  // Both sides agree again, with what the statement declared in scope.
  lemma AfterStmt(x: Ctx, w: World, fuel: nat, s: Stmt, vis: set<string>, base: nat, cs: CState, st: St, m: Machine,
                  st2: St, m2: Machine)
    requires st.env != [] && Ready(x, w, vis, |st.env| - 1, cs, st, m)
    requires StmtOk(s, vis, w.fins) && StmtNames(s) !! w.dead
    requires Exec(x.ops, fuel, s, st) == Normal(st2)
    requires var g := GenStmt(s, base, cs, w.loops, w.pending);
             && m2.Running? && m2.out == st2.out && m2.globals == map[]
             && Agrees(x.ops, w.dead, st2.env, g.cs.locals, m2.regs) && KeepsBut(cs, w.wr, m.regs, m2.regs)
    ensures var g := GenStmt(s, base, cs, w.loops, w.pending);
            && st2.env != [] && |st2.env| == |st.env| && Ready(x, w, vis + Declares(s), |st2.env| - 1, g.cs, st2, m2)
            && Bridge(cs, g.cs, w.wr, m.regs, m2.regs)
  {
    hide WorldOk, KeepsBut, GenStmt, StmtOk, StmtNames, Exec, ScopePost;
    var g := GenStmt(s, base, cs, w.loops, w.pending);
    StmtLocals(s, base, cs, w.loops, w.pending);
    PostLocals(cs, g.cs);
    ExecGrows(x.ops, fuel, s, st);
    ExecScope(x.ops, fuel, s, st, vis, w.fins);
    BridgePost(cs, g.cs, w.wr, m.regs, m2.regs);
    LaterOne(cs.locals, g.cs.locals);
    NewName(x, w, s, vis, cs, st, m);
    WorldExtends(x, w, |st.env| - 1, st.env, cs.locals, st2.env, g.cs.locals);
  }

  lemma PostLocals(cs: CState, cs1: CState)
    requires StmtPost(cs, cs1)
    ensures Good(cs1) && cs.locals <= cs1.locals
  {
  }

  // A name an assignment declares is used by no `finally` block around it.
  lemma NewName(x: Ctx, w: World, s: Stmt, vis: set<string>, cs: CState, st: St, m: Machine)
    requires m.Running? && Agrees(x.ops, w.dead, st.env, cs.locals, m.regs) && Scope(st.env, vis)
    requires StmtOk(s, vis, w.fins) && StmtNames(s) !! w.dead
    ensures s.Do? && s.effect.Assign? && Slot(cs.locals, s.effect.x).None? ==> NotIn(s.effect.x, w.fins)
  {
    if s.Do? && s.effect.Assign? {
      assert s.effect.x in StmtNames(s);
    }
  }

  // ---------- in a block ----------

  function Pushed(st: St): St {
    st.(env := st.env + [map[]])
  }

  lemma BlockStart(x: Ctx, w: World, vis: set<string>, depth: nat, cs: CState, st: St, m: Machine)
    requires Ready(x, w, vis, depth, cs, st, m)
    ensures Ready(x, w, vis, depth, PushScope(cs), Pushed(st), m)
  {
    hide WorldOk;
    PushFrame(x.ops, st.env);
    WorldExtends(x, w, depth, st.env, cs.locals, Pushed(st).env, cs.locals);
  }

  // The same start, read at the depth of a block.
  lemma Deeper(x: Ctx, w: World, vis: set<string>, depth: nat, cs: CState, st: St, m: Machine)
    requires Ready(x, w, vis, depth, cs, st, m)
    ensures Ready(x, w, vis, |st.env|, cs, st, m)
  {
    hide Good, Agrees, NoShadow, Scope, ExitOk;
    if w.ret {
      ExitDeeper(x.lits, w, 0, Mark(0, 0), depth, st.env, cs.locals);
    }
    if w.brk {
      ExitDeeper(x.lits, w, w.loops[|w.loops| - 1].floor, w.marks[|w.loops| - 1], depth, st.env, cs.locals);
    }
    if w.cont {
      var l := ContinueLevel(w.loops).value;
      ExitDeeper(x.lits, w, w.loops[l].floor, w.marks[l], depth, st.env, cs.locals);
    }
  }

  lemma ExitDeeper(lits: set<Value>, w: World, floor: nat, mk: Mark, depth: nat, env: Env, locals: seq<Local>)
    requires ExitOk(lits, w, floor, mk, depth, env, locals)
    ensures ExitOk(lits, w, floor, mk, |env|, env, locals)
  {
    forall i | floor <= i < |w.pending|
      ensures PendOk(lits, w, i, |env|, env, locals)
    {
      assert PendOk(lits, w, i, depth, env, locals);
    }
  }

  // Code that only computed something: same state, same locals.
  lemma StillReady(x: Ctx, w: World, vis: set<string>, depth: nat, cs: CState, cs1: CState, st: St, m: Machine,
      m1: Machine)
    requires Ready(x, w, vis, depth, cs, st, m)
    requires m1.Running? && m1.out == m.out && m1.globals == m.globals
    requires Good(cs1) && cs1.locals == cs.locals && Agrees(x.ops, w.dead, st.env, cs1.locals, m1.regs)
    ensures Ready(x, w, vis, depth, cs1, st, m1)
  {
  }

  // ---------- in a loop or a switch ----------

  function InLoop(w: World, isSwitch: bool, mk: Mark): World {
    w.(loops := w.loops + [Loop(isSwitch, |w.pending|)], marks := w.marks + [mk],
       brk := true, cont := w.cont || !isSwitch)
  }

  function InCtx(x: Ctx, fx: Fix): Ctx {
    x.(fixes := x.fixes + [fx])
  }

  // The point right here: nothing has to be unwound to reach it.
  lemma MarkHere(ops: Ops, dead: set<string>, env: Env, locals: seq<Local>, regs: Regs)
    requires Agrees(ops, dead, env, locals, regs)
    ensures MarkOk(Mark(|env|, |locals|), dead, |env|, env, locals)
  {
    assert env[..|env|] == env && locals[..|locals|] == locals;
  }

  // An exit depends only on the pending blocks, the forbidden names and the `finally` blocks.
  lemma ExitSame(lits: set<Value>, w: World, w1: World, floor: nat, mk: Mark, depth: nat, env: Env, locals: seq<Local>)
    requires ExitOk(lits, w, floor, mk, depth, env, locals)
    requires w1.pending == w.pending && w1.pends == w.pends && w1.dead == w.dead && w1.wr == w.wr && w1.fins == w.fins
    ensures ExitOk(lits, w1, floor, mk, depth, env, locals)
  {
    forall i | floor <= i < |w.pending|
      ensures PendOk(lits, w1, i, depth, env, locals)
    {
      assert PendOk(lits, w, i, depth, env, locals);
    }
  }

  lemma ContinueIn(loops: seq<Loop>, l: Loop)
    ensures ContinueLevel(loops + [l]) == if l.isSwitch then ContinueLevel(loops) else Some(|loops|)
  {
    assert (loops + [l])[..|loops|] == loops;
  }

  lemma LoopReady(x: Ctx, w: World, vis: set<string>, cs: CState, st: St, m: Machine, isSwitch: bool, fx: Fix)
    requires Ready(x, w, vis, |st.env|, cs, st, m)
    ensures Ready(InCtx(x, fx), InLoop(w, isSwitch, Mark(|st.env|, |cs.locals|)), vis, |st.env|, cs, st, m)
  {
    hide Good, Agrees, NoShadow, Scope, MarkOk, ExitOk;
    var mk := Mark(|st.env|, |cs.locals|);
    var w1 := InLoop(w, isSwitch, mk);
    var l := |w.loops|;
    MarkHere(x.ops, w.dead, st.env, cs.locals, m.regs);
    ContinueIn(w.loops, Loop(isSwitch, |w.pending|));
    ExitHere(x.lits, w1, mk, |st.env|, st.env, cs.locals);
    assert w1.loops[l] == Loop(isSwitch, |w.pending|) && w1.marks[l] == mk;
    if w.ret {
      ExitSame(x.lits, w, w1, 0, Mark(0, 0), |st.env|, st.env, cs.locals);
    }
    if w1.cont && isSwitch {
      var c := ContinueLevel(w.loops).value;
      assert w1.loops[c] == w.loops[c] && w1.marks[c] == w.marks[c];
      ExitSame(x.lits, w, w1, w.loops[c].floor, w.marks[c], |st.env|, st.env, cs.locals);
    }
  }

  lemma ExitHere(lits: set<Value>, w: World, mk: Mark, depth: nat, env: Env, locals: seq<Local>)
    requires MarkOk(mk, w.dead, depth, env, locals) && |w.pends| == |w.pending|
    ensures ExitOk(lits, w, |w.pending|, mk, depth, env, locals)
  {
  }

  // What the body of a loop or switch leaves behind when it stops normally, by `break`, or by
  // a `continue` meant for it: the state at the loop itself.
  lemma BodyHere(x: Ctx, w: World, cs: CState, csb: CState, cs1: CState, end: nat, size: nat, fuel: nat,
      isSwitch: bool, fx: Fix,
                 d: nat, o: Outcome, a: Regs, n: nat, m2: Machine)
    requires |w.marks| == |w.loops| == |x.fixes| && |w.pending| == |w.pends|
    requires cs1.locals == csb.locals == cs.locals
    requires Ends(InCtx(x, fx), InLoop(w, isSwitch, Mark(d, |cs.locals|)), csb, cs1, end, size, fuel, o, a, n, m2)
    requires o.Normal? || o.Brk? || (o.Cont? && !isSwitch)
    requires |o.st.env| == d
    ensures Stands(m2, if o.Normal? then end else if o.Brk? then fx.brk else fx.cont)
    ensures m2.out == o.st.out && Agrees(x.ops, w.dead, o.st.env, cs.locals, m2.regs) && KeepsBut(csb, w.wr, a, m2.regs)
  {
    hide Agrees, KeepsBut;
    var l := |w.loops|;
    var x1, w1 := InCtx(x, fx), InLoop(w, isSwitch, Mark(d, |cs.locals|));
    ContinueIn(w.loops, Loop(isSwitch, |w.pending|));
    assert w1.loops[l] == Loop(isSwitch, |w.pending|) && w1.marks[l] == Mark(d, |cs.locals|) && x1.fixes[l] == fx;
    assert o.st.env[..d] == o.st.env && csb.locals[..|cs.locals|] == cs.locals;
  }

  // A transfer out of the body that is not meant for this loop or switch.
  lemma BodyAway(x: Ctx, w: World, csb: CState, cs1: CState, cs2: CState, end: nat, end2: nat, size: nat, size2: nat,
                 fuel: nat, fuel2: nat, isSwitch: bool, fx: Fix, mk: Mark, o: Outcome, a: Regs, n: nat, m2: Machine)
    requires |w.marks| == |w.loops| == |x.fixes| && |w.pending| == |w.pends|
    requires Ends(InCtx(x, fx), InLoop(w, isSwitch, mk), csb, cs1, end, size, fuel, o, a, n, m2)
    requires o.Ret? || (o.Cont? && isSwitch)
    ensures Ends(x, w, csb, cs2, end2, size2, fuel2, o, a, n, m2)
  {
    hide Agrees, KeepsBut, Unwind;
    var x1, w1 := InCtx(x, fx), InLoop(w, isSwitch, mk);
    ContinueIn(w.loops, Loop(isSwitch, |w.pending|));
    if o.Cont? {
      ContinueLevelBound(w.loops);
      var c := ContinueLevel(w.loops).value;
      assert w1.loops[c] == w.loops[c] && w1.marks[c] == w.marks[c] && x1.fixes[c] == x.fixes[c];
    }
  }

  // ---------- in a try with a finally ----------

  function InTry(w: World, f: Stmts, pm: PendMark): World {
    w.(pending := w.pending + [f], pends := w.pends + [pm], fins := w.fins + [f])
  }

  lemma ExitPushed(lits: set<Value>, w: World, f: Stmts, pm: PendMark, floor: nat, mk: Mark, depth: nat, env: Env,
      locals: seq<Local>)
    requires ExitOk(lits, w, floor, mk, depth, env, locals)
    requires pm.at == Mark(depth, |locals|)
    requires |w.pending| == |w.pends| && PendOk(lits, InTry(w, f, pm), |w.pending|, depth, env, locals)
    ensures ExitOk(lits, InTry(w, f, pm), floor, mk, depth, env, locals)
  {
    hide MarkOk;
    var w1 := InTry(w, f, pm);
    forall i | floor <= i < |w1.pending|
      ensures PendOk(lits, w1, i, depth, env, locals)
      ensures i < |w.pending| ==>
                w1.pends[i] == w.pends[i] && w.pends[i].at.d <= depth && w.pends[i].at.k <= |locals|
    {
      if i < |w.pending| {
        assert PendOk(lits, w, i, depth, env, locals);
        MarkBounds(w.pends[i].at, w.dead, depth, env, locals);
      }
    }
    MarkBounds(mk, w.dead, depth, env, locals);
  }

  lemma MarkBounds(mk: Mark, dead: set<string>, depth: nat, env: Env, locals: seq<Local>)
    requires MarkOk(mk, dead, depth, env, locals)
    ensures mk.d <= depth <= |env| && mk.k <= |locals|
  {
  }

  lemma TryReady(x: Ctx, w: World, vis: set<string>, cs: CState, st: St, m: Machine, f: Stmts, fuel: nat)
    requires Ready(x, w, vis, |st.env|, cs, st, m)
    requires PlacedIn(f, false, false, false) && StmtsOk(f, vis, []) && StmtsLits(f) <= x.lits
    requires StmtsNames(f) !! w.dead && AssignedIn(f) <= w.wr
    ensures Ready(x, InTry(w, f, PendMark(Mark(|st.env|, |cs.locals|), fuel, vis)), vis, |st.env|, cs, st, m)
  {
    hide Good, Agrees, NoShadow, Scope, MarkOk, ExitOk, StmtsOk;
    var pm := PendMark(Mark(|st.env|, |cs.locals|), fuel, vis);
    var w1 := InTry(w, f, pm);
    MarkHere(x.ops, w.dead, st.env, cs.locals, m.regs);
    assert w1.pending[|w.pending|] == f && w1.pends[|w.pending|] == pm;
    assert st.env[..|st.env|] == st.env;
    assert Later(cs.locals, |cs.locals|) == {};
    assert f in w1.fins by {
      assert w1.fins[|w.fins|] == f;
    }
    assert PendOk(x.lits, w1, |w.pending|, |st.env|, st.env, cs.locals);
    if w.ret {
      ExitPushed(x.lits, w, f, pm, 0, Mark(0, 0), |st.env|, st.env, cs.locals);
    }
    if w.brk {
      ExitPushed(x.lits, w, f, pm, w.loops[|w.loops| - 1].floor, w.marks[|w.loops| - 1], |st.env|, st.env, cs.locals);
    }
    if w.cont {
      var c := ContinueLevel(w.loops).value;
      ExitPushed(x.lits, w, f, pm, w.loops[c].floor, w.marks[c], |st.env|, st.env, cs.locals);
    }
  }

  // The body of a `try` left early: running its block first, then unwinding from there, is
  // unwinding with the block pending.
  lemma TryAway(x: Ctx, w: World, cs: CState, cs1: CState, cs2: CState, end: nat, end2: nat, size: nat, size2: nat,
      fuel: nat,
                f: Stmts, pm: PendMark, o: Outcome, a: Regs, n: nat, m2: Machine)
    requires |w.marks| == |w.loops| == |x.fixes| && |w.pending| == |w.pends|
    requires w.brk ==> |w.loops| > 0 && w.loops[|w.loops| - 1].floor <= |w.pending|
    requires w.cont ==> ContinueLevel(w.loops).Some? && ContinueLevel(w.loops).value < |w.loops|
                        && w.loops[ContinueLevel(w.loops).value].floor <= |w.pending|
    requires Ends(x, InTry(w, f, pm), cs, cs1, end, size, fuel, o, a, n, m2)
    requires o.Brk? || o.Cont? || o.Ret?
    requires |o.st.env| == pm.at.d && pm.fuel == fuel && SizeStmts(f) <= size2
    ensures var o2 := ExecBlock(x.ops, fuel, f, o.st);
            && (o2.Normal? ==> Ends(x, w, cs, cs2, end2, size2, fuel, WithState(o, o2.st), a, n, m2))
            && (o2.OutOfFuel? ==> Ends(x, w, cs, cs2, end2, size2, fuel, OutOfFuel, a, n, m2))
  {
    hide Agrees, KeepsBut, Unwind, ExecBlock;
    var w1 := InTry(w, f, pm);
    var o2 := ExecBlock(x.ops, fuel, f, o.st);
    assert Cut(o.st, pm.at.d) == o.st by {
      assert o.st.env[..pm.at.d] == o.st.env;
    }
    assert w1.pending[|w.pending|] == f && w1.pends[|w.pending|] == pm;
    var floor := if o.Ret? then 0 else if o.Brk? then w.loops[|w.loops| - 1].floor
      else w.loops[ContinueLevel(w.loops).value].floor;
    var d := if o.Ret? then 0 else if o.Brk? then w.marks[|w.loops| - 1].d else w.marks[ContinueLevel(w.loops).value].d;
    UnwindPush(x.ops, w.pending, w.pends, f, pm, floor, d, o.st);
    if o2.Normal? {
      UnwindIndex(x.ops, w.pending, w.pends, floor, d, o2.st);
    }
  }

  // ---------- in an inlined finally ----------

  // Block `i`, inlined where locals of inner scopes are still declared: no transfer out.
  function Inlined(w: World, floor: nat, dead: set<string>): World
    requires floor <= |w.pending| == |w.pends|
  {
    w.(pending := w.pending[..floor], pends := w.pends[..floor], fins := [], dead := dead,
       brk := false, cont := false, ret := false)
  }

  // After block `n - 1` has run, the exit goes through the others.
  lemma ExitShrink(lits: set<Value>, w: World, floor: nat, mk: Mark, depth: nat, env: Env, locals: seq<Local>,
      env2: Env)
    requires ExitOk(lits, w, floor, mk, depth, env, locals) && floor < |w.pending|
    requires var d := w.pends[|w.pending| - 1].at.d;
             |env2| == d && d <= |env| && forall i :: 0 <= i < d ==> env2[i].Keys == env[i].Keys
    ensures var n := |w.pending| - 1;
            var w2 := w.(pending := w.pending[..n], pends := w.pends[..n]);
            ExitOk(lits, w2, floor, mk, w.pends[n].at.d, env2, locals)
  {
    var n := |w.pending| - 1;
    var d := w.pends[n].at.d;
    var w2 := w.(pending := w.pending[..n], pends := w.pends[..n]);
    forall i | floor <= i < n
      ensures PendOk(lits, w2, i, d, env2, locals)
    {
      assert PendOk(lits, w, i, depth, env, locals);
      PendShrink(lits, w, w2, i, depth, d, env, locals, env2);
    }
    assert PendOk(lits, w, n, depth, env, locals);
    MarkShrink(mk, w.dead, depth, d, env, locals, env2);
  }

  lemma MarkShrink(mk: Mark, dead: set<string>, depth: nat, d: nat, env: Env, locals: seq<Local>, env2: Env)
    requires MarkOk(mk, dead, depth, env, locals) && mk.d <= d == |env2| <= |env|
    requires forall i :: 0 <= i < d ==> env2[i].Keys == env[i].Keys
    ensures MarkOk(mk, dead, d, env2, locals)
  {
    forall y
      ensures Visible(env2[..mk.d], y) <==> Visible(env[..mk.d], y)
    {
      SameVisible(d, env, env2, mk.d, y);
    }
  }

  lemma PendShrink(lits: set<Value>, w: World, w2: World, i: nat, depth: nat, d: nat, env: Env, locals: seq<Local>,
      env2: Env)
    requires i < |w2.pending| == |w2.pends| && |w2.pending| <= |w.pending| == |w.pends|
    requires w2.pending[i] == w.pending[i] && w2.pends[i] == w.pends[i] && w2.dead == w.dead && w2.wr == w.wr
             && w2.fins == w.fins
    requires PendOk(lits, w, i, depth, env, locals) && w.pends[i].at.d <= d == |env2| <= |env|
    requires forall j :: 0 <= j < d ==> env2[j].Keys == env[j].Keys
    ensures PendOk(lits, w2, i, d, env2, locals)
  {
    var pm := w.pends[i];
    MarkShrink(pm.at, w.dead, depth, d, env, locals, env2);
    forall y
      ensures Visible(env2[..pm.at.d], y) <==> Visible(env[..pm.at.d], y)
    {
      SameVisible(d, env, env2, pm.at.d, y);
    }
  }

  lemma LaterMono(locals: seq<Local>, j: nat, k: nat)
    requires j <= k
    ensures Later(locals, k) <= Later(locals, j)
  {
  }
}
