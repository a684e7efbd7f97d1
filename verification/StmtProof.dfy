/** The code of every statement does what the interpreter does. */
module StmtProof {
  import opened Options
  import opened Values
  import opened Syntax
  import opened Interpreter
  import opened Bytecode
  import opened CodeGen
  import opened RegisterDiscipline
  import opened ScopeDiscipline
  import opened GenFacts
  import opened Discipline
  import opened RawValues
  import opened EnvFacts
  import opened Simulation
  import opened ExprProof
  import opened Unwinding
  import opened LeafProof
  import opened EffectProof
  import opened SwitchProof
  import opened Transfers
  import opened WorldSteps
  import opened StmtShapes

  // ---------- what each construct needs ----------

  ghost predicate StmtPre(x: Ctx, w: World, s: Stmt, vis: set<string>, base: nat, cs: CState, st: St, m: Machine) {
    var g := GenStmt(s, base, cs, w.loops, w.pending);
    && st.env != [] && Ready(x, w, vis, |st.env| - 1, cs, st, m) && m.pc == base
    && Fits(x, g.code, base, g.cs.pool)
    && StmtOk(s, vis, w.fins) && Placed(s, w.brk, w.cont, w.ret)
    && StmtLits(s) <= x.lits && StmtNames(s) !! w.dead && Assigned(s) <= w.wr
  }

  ghost predicate StmtsPre(x: Ctx, w: World, ss: Stmts, vis: set<string>, base: nat, cs: CState, st: St, m: Machine) {
    var g := GenStmts(ss, base, cs, w.loops, w.pending);
    && st.env != [] && Ready(x, w, vis, |st.env| - 1, cs, st, m) && m.pc == base
    && Fits(x, g.code, base, g.cs.pool)
    && StmtsSide(x, w, ss, vis)
  }

  // The conditions on the statements of a block themselves.
  ghost predicate StmtsSide(x: Ctx, w: World, ss: Stmts, vis: set<string>) {
    && StmtsOk(ss, vis, w.fins) && PlacedIn(ss, w.brk, w.cont, w.ret)
    && StmtsLits(ss) <= x.lits && StmtsNames(ss) !! w.dead && AssignedIn(ss) <= w.wr
  }

  ghost predicate BlockPre(x: Ctx, w: World, ss: Stmts, vis: set<string>, base: nat, cs: CState, st: St, m: Machine) {
    var g := GenBlock(ss, base, cs, w.loops, w.pending);
    && Ready(x, w, vis, |st.env|, cs, st, m) && m.pc == base
    && Fits(x, g.code, base, g.cs.pool)
    && StmtsSide(x, w, ss, vis)
  }

  // Two outcomes that are not normal do not depend on where the code goes on.
  lemma EndsWiden(x: Ctx, w: World, cs: CState, cs1: CState, cs2: CState, end: nat, end2: nat, size: nat, size2: nat,
      fuel: nat,
                  o: Outcome, a: Regs, n: nat, m2: Machine)
    requires |w.marks| == |w.loops| == |x.fixes| && |w.pending| == |w.pends|
    requires Ends(x, w, cs, cs1, end, size, fuel, o, a, n, m2) && size <= size2
    requires !o.Normal? || (end2 == end && cs2.locals == cs1.locals)
    ensures Ends(x, w, cs, cs2, end2, size2, fuel, o, a, n, m2)
  {
  }

  lemma ReadyLengths(x: Ctx, w: World, vis: set<string>, depth: nat, cs: CState, st: St, m: Machine)
    requires Ready(x, w, vis, depth, cs, st, m)
    ensures |w.marks| == |w.loops| == |x.fixes| && |w.pending| == |w.pends|
    ensures m.Running? && Good(cs) && NoShadow(st.env) && st.env != [] && Scope(st.env, vis)
    ensures Agrees(x.ops, w.dead, st.env, cs.locals, m.regs) && m.out == st.out && m.globals == map[]
  {
  }

  // ---------- blocks ----------

  lemma {:induction false} BlockSim(x: Ctx, w: World, fuel: nat, ss: Stmts, vis: set<string>, base: nat, cs: CState,
      st: St, m: Machine)
    returns (n: nat, m2: Machine)
    requires |w.marks| == |w.loops| == |x.fixes| && |w.pending| == |w.pends|
    requires BlockPre(x, w, ss, vis, base, cs, st, m)
    ensures Run(x.ops, x.p, m, n) == m2
    ensures var g := GenBlock(ss, base, cs, w.loops, w.pending);
            Ends(x, w, cs, g.cs, base + |g.code|, SizeStmts(ss), fuel, ExecBlock(x.ops, fuel, ss, st), m.regs, n, m2)
    decreases SizeStmts(ss) + SizePending(w.pending), 1, fuel
  {
    hide GenStmts, PopScope, Ends, Ready, StmtsSide, ExecStmts, OutcomeGrows, StmtPost;
    var g := GenStmts(ss, base, PushScope(cs), w.loops, w.pending);
    ReadyLengths(x, w, vis, |st.env|, cs, st, m);
    BlockStart(x, w, vis, |st.env|, cs, st, m);
    PushFacts(cs);
    PushFrame(x.ops, st.env);
    StmtsFacts(ss, base, PushScope(cs), w.loops, w.pending);
    PopPool(g.cs);
    StmtsGrows(x.ops, fuel, ss, Pushed(st));
    n, m2 := StmtsSim(x, w, fuel, ss, vis, base, PushScope(cs), Pushed(st), m);
    LeaveScope(x, w, vis, cs, g.cs, base + |g.code|, SizeStmts(ss), fuel, ExecStmts(x.ops, fuel, ss, Pushed(st)), st,
               m, n, m2);
  }

  lemma StmtsSplit(x: Ctx, w: World, ss: Stmts, vis: set<string>, base: nat, cs: CState, st: St, m: Machine)
    requires ss.Cons? && StmtsPre(x, w, ss, vis, base, cs, st, m)
    ensures var g := GenStmt(ss.head, base, cs, w.loops, w.pending);
            var gr := GenStmts(ss.tail, base + |g.code|, g.cs, w.loops, w.pending);
            && StmtPre(x, w, ss.head, vis, base, cs, st, m)
            && Fits(x, gr.code, base + |g.code|, gr.cs.pool)
            && StmtsSide(x, w, ss.tail, vis + Declares(ss.head))
            && GenStmts(ss, base, cs, w.loops, w.pending).cs == gr.cs
            && |GenStmts(ss, base, cs, w.loops, w.pending).code| == |g.code| + |gr.code|
  {
    hide GenStmt, Fits, Agrees, WorldOk, Good, ScopePost;
    var g := GenStmt(ss.head, base, cs, w.loops, w.pending);
    StmtFacts(ss.head, base, cs, w.loops, w.pending);
    PostPool(cs, g.cs);
    var gr := GenStmts(ss.tail, base + |g.code|, g.cs, w.loops, w.pending);
    StmtsFacts(ss.tail, base + |g.code|, g.cs, w.loops, w.pending);
    PostPool(g.cs, gr.cs);
    FitsCat(x, g.code, gr.code, base, gr.cs.pool, g.cs.pool);
  }

  lemma {:induction false} StmtsSim(x: Ctx, w: World, fuel: nat, ss: Stmts, vis: set<string>, base: nat, cs: CState,
      st: St, m: Machine)
    returns (n: nat, m2: Machine)
    requires |w.marks| == |w.loops| == |x.fixes| && |w.pending| == |w.pends|
    requires StmtsPre(x, w, ss, vis, base, cs, st, m)
    ensures Run(x.ops, x.p, m, n) == m2
    ensures var g := GenStmts(ss, base, cs, w.loops, w.pending);
            Ends(x, w, cs, g.cs, base + |g.code|, SizeStmts(ss), fuel, ExecStmts(x.ops, fuel, ss, st), m.regs, n, m2)
    decreases SizeStmts(ss) + SizePending(w.pending), 0, fuel
  {
    hide Exec, GenStmt, Ready, Fits, Agrees, KeepsBut, StmtOk, Placed, StmtLits, StmtNames, Assigned, StmtsSide, Lands,
         Unwind, WorldOk, Bridge, Good, Step, SizePending, SizeStmt, StmtPost, PlacedIn, StmtsNames, StmtsLits, StmtsOk;
    ReadyLengths(x, w, vis, |st.env| - 1, cs, st, m);
    if ss.Nil? {
      KeepsRefl(cs, m.regs);
      KeepsButSelf(cs, w.wr, m.regs, m.regs);
      n, m2 := 0, m;
    } else {
      StmtsSplit(x, w, ss, vis, base, cs, st, m);
      var g := GenStmt(ss.head, base, cs, w.loops, w.pending);
      var at := base + |g.code|;
      var gr := GenStmts(ss.tail, at, g.cs, w.loops, w.pending);
      n, m2 := StmtSim(x, w, fuel, ss.head, vis, base, cs, st, m);
      var o := Exec(x.ops, fuel, ss.head, st);
      if o.Normal? {
        AfterStmt(x, w, fuel, ss.head, vis, base, cs, st, m, o.st, m2);
        var n2, m3 := StmtsSim(x, w, fuel, ss.tail, vis + Declares(ss.head), at, g.cs, o.st, m2);
        Chain(x.ops, x.p, m, n, m2, n2, m3);
        ReadyWorld(x, w, vis, |st.env| - 1, cs, st, m);
        EndsLater(x, w, |st.env| - 1, st.env, cs, g.cs, gr.cs, at + |gr.code|, SizeStmts(ss.tail), SizeStmts(ss), fuel,
                  ExecStmts(x.ops, fuel, ss.tail, o.st), m.regs, m2.regs, n, n2, m3);
        n, m2 := n + n2, m3;
      } else {
        EndsWiden(x, w, cs, g.cs, gr.cs, at, at + |gr.code|, SizeStmt(ss.head), SizeStmts(ss), fuel, o, m.regs, n, m2);
      }
    }
  }

  lemma ReadyWorld(x: Ctx, w: World, vis: set<string>, depth: nat, cs: CState, st: St, m: Machine)
    requires Ready(x, w, vis, depth, cs, st, m)
    ensures WorldOk(x, w, depth, st.env, cs.locals)
  {
  }

  // ---------- pending blocks ----------

  ghost predicate PendPre(x: Ctx, w: World, floor: nat, mk: Mark, hid: set<string>, depth: nat, base: nat, cs: CState,
      st: St, m: Machine) {
    var g := GenPending(w.pending, floor, base, cs, w.loops);
    && Stands(m, base) && m.out == st.out
    && Good(cs) && NoShadow(st.env) && Agrees(x.ops, hid, st.env, cs.locals, m.regs)
    && ExitOk(x.lits, w, floor, mk, depth, st.env, cs.locals)
    && hid <= w.dead + Later(cs.locals, mk.k)
    && (forall i :: floor <= i < |w.pending| ==> hid <= w.dead + Later(cs.locals, w.pends[i].at.k))
    && Fits(x, g.code, base, g.cs.pool)
  }

  lemma PendSplit(x: Ctx, w: World, floor: nat, base: nat, cs: CState)
    requires |w.pending| == |w.pends| && floor < |w.pending| && Good(cs)
    requires var g := GenPending(w.pending, floor, base, cs, w.loops); Fits(x, g.code, base, g.cs.pool)
    ensures var n := |w.pending| - 1;
            var gb := GenBlock(w.pending[n], base, cs, w.loops, w.pending[..floor]);
            var gr := GenPending(w.pending[..n], floor, base + |gb.code|, gb.cs, w.loops);
            && Neutral(cs, gb.cs)
            && Fits(x, gb.code, base, gb.cs.pool) && Fits(x, gr.code, base + |gb.code|, gr.cs.pool)
            && |GenPending(w.pending, floor, base, cs, w.loops).code| == |gb.code| + |gr.code|
            && SizePending(w.pending[..n]) + SizeStmts(w.pending[n]) < SizePending(w.pending)
            && SizePending(w.pending[..floor]) <= SizePending(w.pending[..n])
  {
    hide GenBlock, Fits, Good, SameScope;
    var n := |w.pending| - 1;
    assert w.pending[..n][..floor] == w.pending[..floor];
    SizePendingPrefix(w.pending[..n], floor);
    BlockFacts(w.pending[n], base, cs, w.loops, w.pending[..floor]);
    var gb := GenBlock(w.pending[n], base, cs, w.loops, w.pending[..floor]);
    NeutralLocals(cs, gb.cs);
    PendingFacts(w.pending[..n], floor, base + |gb.code|, gb.cs, w.loops);
    var gr := GenPending(w.pending[..n], floor, base + |gb.code|, gb.cs, w.loops);
    NeutralLocals(gb.cs, gr.cs);
    FitsCat(x, gb.code, gr.code, base, gr.cs.pool, gb.cs.pool);
  }

  // Everything the inlined block needs.
  lemma PendStart(x: Ctx, w: World, floor: nat, mk: Mark, hid: set<string>, depth: nat, base: nat, cs: CState, st: St,
      m: Machine)
    requires |w.marks| == |w.loops| == |x.fixes| && |w.pending| == |w.pends| && floor < |w.pending|
    requires PendPre(x, w, floor, mk, hid, depth, base, cs, st, m)
    ensures var n := |w.pending| - 1;
            var at := w.pends[n].at;
            var w1 := Inlined(w, floor, w.dead + Later(cs.locals, at.k));
            && at.d <= |st.env| && |Cut(st, at.d).env| == at.d
            && BlockPre(x, w1, w.pending[n], w.pends[n].vis, base, cs, Cut(st, at.d), m)
  {
    hide GenBlock, GenPending, Fits, Good, Agrees, NoShadow, StmtsOk, PlacedIn, StmtsNames, AssignedIn, StmtsLits,
         Scope;
    var n := |w.pending| - 1;
    var pm := w.pends[n];
    assert PendOk(x.lits, w, n, depth, st.env, cs.locals);
    PendSplit(x, w, floor, base, cs);
    CutAgrees(x.ops, pm.at, w.dead, hid, depth, st, cs.locals, m.regs);
  }

  // The next block starts from what the last one left.
  lemma PendNext(x: Ctx, w: World, floor: nat, mk: Mark, hid: set<string>, depth: nat, base: nat, cs: CState, st: St,
      m: Machine,
                 st2: St, m2: Machine)
    requires |w.marks| == |w.loops| == |x.fixes| && |w.pending| == |w.pends| && floor < |w.pending|
    requires PendPre(x, w, floor, mk, hid, depth, base, cs, st, m)
    requires var n := |w.pending| - 1;
             var at := w.pends[n].at;
             var gb := GenBlock(w.pending[n], base, cs, w.loops, w.pending[..floor]);
             && ExecBlock(x.ops, w.pends[n].fuel, w.pending[n], Cut(st, at.d)) == Normal(st2)
             && Stands(m2, base + |gb.code|) && m2.out == st2.out
             && Agrees(x.ops, w.dead + Later(cs.locals, at.k), st2.env, gb.cs.locals, m2.regs)
    ensures var n := |w.pending| - 1;
            var at := w.pends[n].at;
            var gb := GenBlock(w.pending[n], base, cs, w.loops, w.pending[..floor]);
            PendPre(x, w.(pending := w.pending[..n], pends := w.pends[..n]), floor, mk,
                    w.dead + Later(cs.locals, at.k), at.d,
                    base + |gb.code|, gb.cs, st2, m2)
  {
    hide GenBlock, GenPending, Fits, Good, Agrees, ExecBlock, Later, MarkOk;
    var n := |w.pending| - 1;
    var pm := w.pends[n];
    PendStart(x, w, floor, mk, hid, depth, base, cs, st, m);
    PendSplit(x, w, floor, base, cs);
    var gb := GenBlock(w.pending[n], base, cs, w.loops, w.pending[..floor]);
    NeutralLocals(cs, gb.cs);
    BlockGrows(x.ops, pm.fuel, w.pending[n], Cut(st, pm.at.d));
    assert forall i :: 0 <= i < pm.at.d ==> st2.env[i].Keys == st.env[i].Keys;
    ExitShrink(x.lits, w, floor, mk, depth, st.env, cs.locals, st2.env);
    LaterMono(cs.locals, mk.k, pm.at.k);
    forall i | floor <= i < n
      ensures Later(cs.locals, pm.at.k) <= Later(cs.locals, w.pends[i].at.k)
    {
      LaterMono(cs.locals, w.pends[i].at.k, pm.at.k);
    }
  }

  // All blocks above `floor`, innermost first, with the interpreter's effect and output.
  lemma {:induction false} PendSim(x: Ctx, w: World, floor: nat, mk: Mark, hid: set<string>, depth: nat, base: nat,
      cs: CState, st: St, m: Machine)
    returns (n: nat, m2: Machine)
    requires |w.marks| == |w.loops| == |x.fixes| && |w.pending| == |w.pends|
    requires PendPre(x, w, floor, mk, hid, depth, base, cs, st, m)
    ensures Run(x.ops, x.p, m, n) == m2
    ensures Lands(x, w, cs, floor, mk, base + |GenPending(w.pending, floor, base, cs, w.loops).code|, st, m.regs, n, m2)
    decreases SizePending(w.pending), 3, 0
  {
    hide GenBlock, Fits, Good, Agrees, ExecBlock, Later, KeepsBut, PendPre, BlockPre, GenPending, Lands, Unwind, Ends,
         Neutral;
    if |w.pending| <= floor {
      PendNone(x, w, floor, mk, hid, depth, base, cs, st, m);
      n, m2 := 0, m;
    } else {
      var k := |w.pending| - 1;
      var f := w.pending[k];
      var pm := w.pends[k];
      var w1 := Inlined(w, floor, w.dead + Later(cs.locals, pm.at.k));
      var gb := GenBlock(f, base, cs, w.loops, w.pending[..floor]);
      var at := base + |gb.code|;
      PendGood(x, w, floor, mk, hid, depth, base, cs, st, m);
      PendSplit(x, w, floor, base, cs);
      PendStart(x, w, floor, mk, hid, depth, base, cs, st, m);
      var st1 := Cut(st, pm.at.d);
      n, m2 := BlockSim(x, w1, pm.fuel, f, pm.vis, base, cs, st1, m);
      var o := ExecBlock(x.ops, pm.fuel, f, st1);
      EndsInlined(x, w1, cs, gb.cs, at, SizeStmts(f), pm.fuel, o, m.regs, n, m2);
      if o.Normal? {
        var w2 := w.(pending := w.pending[..k], pends := w.pends[..k]);
        EndsNormal(x, w1, cs, gb.cs, at, SizeStmts(f), pm.fuel, o.st, m.regs, n, m2);
        PendNext(x, w, floor, mk, hid, depth, base, cs, st, m, o.st, m2);
        var n2, m3 := PendSim(x, w2, floor, mk, w1.dead, pm.at.d, at, gb.cs, o.st, m2);
        Chain(x.ops, x.p, m, n, m2, n2, m3);
        LandsPrefix(x, w, w2, cs, gb.cs, floor, mk, at + |GenPending(w2.pending, floor, at, gb.cs, w.loops).code|, st,
                    o.st, m.regs, m2.regs, n, n2, m3);
        n, m2 := n + n2, m3;
      } else {
        EndsOutUse(x, w1, cs, gb.cs, at, SizeStmts(f), pm.fuel, m.regs, n, m2);
        LandsStuck(x, w, cs, floor, mk, base + |GenPending(w.pending, floor, base, cs, w.loops).code|, st, m.regs, n,
                   m2);
      }
    }
  }

  lemma PendGood(x: Ctx, w: World, floor: nat, mk: Mark, hid: set<string>, depth: nat, base: nat, cs: CState, st: St,
      m: Machine)
    requires PendPre(x, w, floor, mk, hid, depth, base, cs, st, m)
    ensures Good(cs) && m.Running?
    ensures var g := GenPending(w.pending, floor, base, cs, w.loops); Fits(x, g.code, base, g.cs.pool)
  {
  }

  // No transfer leaves an inlined block.
  lemma EndsInlined(x: Ctx, w: World, cs: CState, cs1: CState, end: nat, size: nat, fuel: nat, o: Outcome, a: Regs,
      n: nat, m2: Machine)
    requires |w.marks| == |w.loops| == |x.fixes| && |w.pending| == |w.pends|
    requires !w.brk && !w.cont && !w.ret && Ends(x, w, cs, cs1, end, size, fuel, o, a, n, m2)
    ensures o.Normal? || o.OutOfFuel?
  {
  }

  lemma LandsStuck(x: Ctx, w: World, cs: CState, floor: nat, mk: Mark, target: nat, st: St, a: Regs, n: nat,
      m2: Machine)
    requires |w.pending| == |w.pends| > floor
    requires var k := |w.pending| - 1;
             && ExecBlock(x.ops, w.pends[k].fuel, w.pending[k], Cut(st, w.pends[k].at.d)).OutOfFuel?
             && m2.Running? && n + SizeStmts(w.pending[k]) >= w.pends[k].fuel
    ensures Lands(x, w, cs, floor, mk, target, st, a, n, m2)
  {
  }

  lemma PendNone(x: Ctx, w: World, floor: nat, mk: Mark, hid: set<string>, depth: nat, base: nat, cs: CState, st: St,
      m: Machine)
    requires |w.pending| == |w.pends| && |w.pending| <= floor
    requires PendPre(x, w, floor, mk, hid, depth, base, cs, st, m)
    ensures Lands(x, w, cs, floor, mk, base + |GenPending(w.pending, floor, base, cs, w.loops).code|, st, m.regs, 0, m)
  {
    CutAgrees(x.ops, mk, w.dead, hid, depth, st, cs.locals, m.regs);
    KeepsRefl(cs, m.regs);
    KeepsButSelf(cs, w.wr, m.regs, m.regs);
  }

  lemma LandsPrefix(x: Ctx, w: World, w2: World, cs: CState, cs1: CState, floor: nat, mk: Mark, target: nat, st: St,
      st2: St,
                    a: Regs, b: Regs, n1: nat, n2: nat, m2: Machine)
    requires |w.pending| == |w.pends| > floor
    requires w2 == w.(pending := w.pending[..|w.pending| - 1], pends := w.pends[..|w.pends| - 1])
    requires var k := |w.pending| - 1;
             ExecBlock(x.ops, w.pends[k].fuel, w.pending[k], Cut(st, w.pends[k].at.d)) == Normal(st2)
    requires Neutral(cs, cs1) && KeepsBut(cs, w.wr, a, b)
    requires Lands(x, w2, cs1, floor, mk, target, st2, b, n2, m2)
    ensures Lands(x, w, cs, floor, mk, target, st, a, n1 + n2, m2)
  {
    hide Agrees, KeepsBut, ExecBlock, Cut;
    var u := Unwind(x.ops, w2.pending, w2.pends, floor, mk.d, st2);
    assert Unwind(x.ops, w.pending, w.pends, floor, mk.d, st) == u;
    if u.UOk? {
      KeepsButNeutral(cs, cs1, w.wr, a, b, m2.regs);
    }
  }

  // ---------- statements ----------

  lemma {:induction false} StmtSim(x: Ctx, w: World, fuel: nat, s: Stmt, vis: set<string>, base: nat, cs: CState,
      st: St, m: Machine)
    returns (n: nat, m2: Machine)
    requires |w.marks| == |w.loops| == |x.fixes| && |w.pending| == |w.pends|
    requires StmtPre(x, w, s, vis, base, cs, st, m)
    ensures Run(x.ops, x.p, m, n) == m2
    ensures var g := GenStmt(s, base, cs, w.loops, w.pending);
            Ends(x, w, cs, g.cs, base + |g.code|, SizeStmt(s), fuel, Exec(x.ops, fuel, s, st), m.regs, n, m2)
    decreases SizeStmt(s) + SizePending(w.pending), 3, fuel
  {
    hide StmtPre, GenStmt, Ends, Exec;
    match s
    case Do(_) => n, m2 := DoSim(x, w, fuel, s, vis, base, cs, st, m);
    case Write(_, _) => n, m2 := WriteSim(x, w, fuel, s, vis, base, cs, st, m);
    case Return(_) => n, m2 := ReturnSim(x, w, fuel, s, vis, base, cs, st, m);
    case Break => n, m2 := BreakSim(x, w, fuel, s, vis, base, cs, st, m);
    case Continue => n, m2 := ContinueSim(x, w, fuel, s, vis, base, cs, st, m);
    case Block(_) => n, m2 := NestedSim(x, w, fuel, s, vis, base, cs, st, m);
    case If(_, _, _) => n, m2 := IfSim(x, w, fuel, s, vis, base, cs, st, m);
    case While(_, _) => n, m2 := WhileSim(x, w, fuel, s, vis, base, cs, st, m);
    case For(_, _, _, _) => n, m2 := ForSim(x, w, fuel, s, vis, base, cs, st, m);
    case Switch(_, _) => n, m2 := SwitchSim(x, w, fuel, s, vis, base, cs, st, m);
    case Try(_, _, _) => n, m2 := TrySim(x, w, fuel, s, vis, base, cs, st, m);
  }

  lemma DoSim(x: Ctx, w: World, fuel: nat, s: Stmt, vis: set<string>, base: nat, cs: CState, st: St, m: Machine)
    returns (n: nat, m2: Machine)
    requires |w.marks| == |w.loops| == |x.fixes| && |w.pending| == |w.pends|
    requires s.Do? && StmtPre(x, w, s, vis, base, cs, st, m)
    ensures Run(x.ops, x.p, m, n) == m2
    ensures var g := GenStmt(s, base, cs, w.loops, w.pending);
            Ends(x, w, cs, g.cs, base + |g.code|, SizeStmt(s), fuel, Exec(x.ops, fuel, s, st), m.regs, n, m2)
  {
    hide GenEffect, Fits, Good, WorldOk, NoShadow, KeepsBut;
    EffectOut(x.ops, s.effect, st);
    if s.effect.IncDec? {
      assert s.effect.x in StmtNames(s);
    }
    n, m2 := RunEffect(x, s.effect, base, cs, st.env, w.dead, w.wr, m);
  }

  lemma EffectOut(ops: Ops, f: Effect, st: St)
    ensures ExecEffect(ops, f, st) == St(EffectEnv(ops, f, st.env), st.out)
  {
  }

  lemma WriteSim(x: Ctx, w: World, fuel: nat, s: Stmt, vis: set<string>, base: nat, cs: CState, st: St, m: Machine)
    returns (n: nat, m2: Machine)
    requires |w.marks| == |w.loops| == |x.fixes| && |w.pending| == |w.pends|
    requires s.Write? && StmtPre(x, w, s, vis, base, cs, st, m)
    ensures Run(x.ops, x.p, m, n) == m2
    ensures var g := GenStmt(s, base, cs, w.loops, w.pending);
            Ends(x, w, cs, g.cs, base + |g.code|, SizeStmt(s), fuel, Exec(x.ops, fuel, s, st), m.regs, n, m2)
  {
    hide GenWrites, GenLiteralOut, Fits, Good, WorldOk, NoShadow, KeepsBut, Keeps, Agrees, Neutral, Scope, WritesOk,
         ExprsLits, ExprsNames;
    var gw := GenWrites(s.args, true, base, cs);
    WritesFacts(s.args, true, base, cs);
    NeutralLocals(cs, gw.cs);
    var text := BuildOutput(x.ops, st.env, s.args);
    assert "" + text == text;
    if s.newline {
      LiteralOutFacts("\n", gw.cs);
      var gl := GenLiteralOut("\n", gw.cs);
      NeutralLocals(gw.cs, gl.cs);
      FitsCat(x, gw.code, gl.code, base, gl.cs.pool, gw.cs.pool);
      var n1, m1 := RunWrites(x, s.args, true, base, cs, vis, st.env, w.dead, m);
      var n2, m3 := RunLiteralOut(x, "\n", base + |gw.code|, gw.cs, st.env, w.dead, m1);
      WritesThen(x, cs, gw, text, base, st.env, w.dead, m, n1, m1, gl, "\n", n2, m3);
      n, m2 := n1 + n2, m3;
      assert st.out + (text + "\n") == st.out + text + "\n";
    } else {
      n, m2 := RunWrites(x, s.args, true, base, cs, vis, st.env, w.dead, m);
      assert st.out + text + "" == st.out + text;
    }
    KeepsButSelf(cs, w.wr, m.regs, m2.regs);
  }

  lemma {:induction false} NestedSim(x: Ctx, w: World, fuel: nat, s: Stmt, vis: set<string>, base: nat, cs: CState,
      st: St, m: Machine)
    returns (n: nat, m2: Machine)
    requires |w.marks| == |w.loops| == |x.fixes| && |w.pending| == |w.pends|
    requires s.Block? && StmtPre(x, w, s, vis, base, cs, st, m)
    ensures Run(x.ops, x.p, m, n) == m2
    ensures var g := GenStmt(s, base, cs, w.loops, w.pending);
            Ends(x, w, cs, g.cs, base + |g.code|, SizeStmt(s), fuel, Exec(x.ops, fuel, s, st), m.regs, n, m2)
    decreases SizeStmt(s) + SizePending(w.pending), 2, fuel
  {
    hide GenBlock, Fits, Ready, StmtsOk, PlacedIn, StmtsLits, StmtsNames, AssignedIn, Ends, ExecBlock;
    ReadyLengths(x, w, vis, |st.env| - 1, cs, st, m);
    Deeper(x, w, vis, |st.env| - 1, cs, st, m);
    n, m2 := BlockSim(x, w, fuel, s.body, vis, base, cs, st, m);
    var g := GenBlock(s.body, base, cs, w.loops, w.pending);
    EndsWiden(x, w, cs, g.cs, g.cs, base + |g.code|, base + |g.code|, SizeStmts(s.body), SizeStmt(s), fuel,
              ExecBlock(x.ops, fuel, s.body, st), m.regs, n, m2);
  }

  // A jump at the end of a part of the statement, taken when that part ended normally.
  lemma EndsJump(x: Ctx, w: World, cs: CState, cs1: CState, cs2: CState, end: nat, end2: nat, size: nat, size2: nat,
      fuel: nat,
                 o: Outcome, m: Machine, a: Regs, n: nat, m2: Machine) returns (n3: nat, m3: Machine)
    requires |w.marks| == |w.loops| == |x.fixes| && |w.pending| == |w.pends|
    requires Run(x.ops, x.p, m, n) == m2 && Ends(x, w, cs, cs1, end, size, fuel, o, a, n, m2)
    requires end < |x.p.code| && x.p.code[end] == Jump(At(end2))
    requires cs2.locals == cs1.locals && size <= size2
    ensures Run(x.ops, x.p, m, n3) == m3 && n <= n3 && (o.Normal? ==> n < n3)
    ensures Ends(x, w, cs, cs2, end2, size2, fuel, o, a, n3, m3)
  {
    hide Agrees, KeepsBut, Unwind, Lands;
    if o.Normal? {
      ThenStep(x.ops, x.p, m, n, m2);
      n3, m3 := n + 1, Step(x.ops, x.p, m2);
    } else {
      n3, m3 := n, m2;
    }
  }

  // The condition of an `if`: either branch can start.
  lemma IfCond(x: Ctx, w: World, s: Stmt, vis: set<string>, base: nat, cs: CState, st: St, m: Machine)
    returns (n1: nat, m1: Machine)
    requires |w.marks| == |w.loops| == |x.fixes| && |w.pending| == |w.pends|
    requires s.If? && StmtPre(x, w, s, vis, base, cs, st, m)
    ensures var gc := GenExpr(s.cond, None, base, cs);
            var cs1 := FreeTemp(gc.cs, gc.r);
            var thenAt := base + |gc.code| + 1;
            var gt := GenBlock(s.thn, thenAt, cs1, w.loops, w.pending);
            var alt := thenAt + |gt.code|;
            && m.Running? && Run(x.ops, x.p, m, n1) == m1 && m1.Running?
            && m1.pc == (if Truthy(EvalExpr(x.ops, st.env, s.cond)) then thenAt else if s.els.None? then alt
                         else alt + 1)
            && Ready(x, w, vis, |st.env|, cs1, st, m1) && Ready(x, w, vis, |st.env|, gt.cs, st, m1)
            && Bridge(cs, cs1, w.wr, m.regs, m1.regs) && Bridge(cs, gt.cs, w.wr, m.regs, m1.regs)
            && KeepsBut(cs, w.wr, m.regs, m1.regs) && WorldOk(x, w, |st.env| - 1, st.env, cs.locals)
            && gt.cs.locals == cs.locals
  {
    hide GenStmt, GenBlock, GenExpr, Fits, Ready, StmtsOk, PlacedIn, StmtsLits, StmtsNames, AssignedIn, Good, FreeTemp,
         Neutral, Agrees, KeepsBut, Keeps, TruthOk, ExprLits, ExprNames, WorldOk, EvalExpr, Bridge;
    ReadyLengths(x, w, vis, |st.env| - 1, cs, st, m);
    ReadyWorld(x, w, vis, |st.env| - 1, cs, st, m);
    IfShape(x, s, base, cs, w.loops, w.pending);
    var gc := GenExpr(s.cond, None, base, cs);
    var cs1 := FreeTemp(gc.cs, gc.r);
    var thenAt := base + |gc.code| + 1;
    var gt := GenBlock(s.thn, thenAt, cs1, w.loops, w.pending);
    var alt := thenAt + |gt.code|;
    NeutralLocals(cs, cs1);
    NeutralLocals(cs1, gt.cs);
    n1, m1 := RunCond(x, s.cond, At(if s.els.None? then alt else alt + 1), base, cs, gc.cs.pool, st.env, w.dead, m);
    KeepsButSelf(cs, w.wr, m.regs, m1.regs);
    StillReady(x, w, vis, |st.env| - 1, cs, cs1, st, m, m1);
    Deeper(x, w, vis, |st.env| - 1, cs1, st, m1);
    StillReady(x, w, vis, |st.env|, cs1, gt.cs, st, m1, m1);
    BridgeNeutral(cs, cs1, w.wr, m.regs, m1.regs);
    BridgeNeutral2(cs, cs1, gt.cs, w.wr, m.regs, m1.regs);
  }

  lemma IfSides(x: Ctx, w: World, fuel: nat, s: Stmt, vis: set<string>, base: nat, cs: CState, st: St, m: Machine)
    requires s.If? && StmtPre(x, w, s, vis, base, cs, st, m)
    ensures st.env != [] && Ready(x, w, vis, |st.env| - 1, cs, st, m)
    ensures var g := GenStmt(s, base, cs, w.loops, w.pending); Fits(x, g.code, base, g.cs.pool)
    ensures StmtsSide(x, w, s.thn, vis) && (s.els.Some? ==> StmtsSide(x, w, s.els.value, vis))
    ensures SizeStmts(s.thn) < SizeStmt(s) && (s.els.Some? ==> SizeStmts(s.els.value) < SizeStmt(s))
    ensures Exec(x.ops, fuel, s, st)
         == if Truthy(EvalExpr(x.ops, st.env, s.cond)) then ExecBlock(x.ops, fuel, s.thn, st)
            else if s.els.Some? then ExecBlock(x.ops, fuel, s.els.value, st)
            else Normal(st)
  {
    hide GenStmt, Fits, Ready, StmtsOk, PlacedIn, StmtsLits, StmtsNames, AssignedIn, ExecBlock, TruthOk;
  }

  lemma {:induction false} IfSim(x: Ctx, w: World, fuel: nat, s: Stmt, vis: set<string>, base: nat, cs: CState, st: St,
      m: Machine)
    returns (n: nat, m2: Machine)
    requires |w.marks| == |w.loops| == |x.fixes| && |w.pending| == |w.pends|
    requires s.If? && StmtPre(x, w, s, vis, base, cs, st, m)
    ensures Run(x.ops, x.p, m, n) == m2
    ensures var g := GenStmt(s, base, cs, w.loops, w.pending);
            Ends(x, w, cs, g.cs, base + |g.code|, SizeStmt(s), fuel, Exec(x.ops, fuel, s, st), m.regs, n, m2)
    decreases SizeStmt(s) + SizePending(w.pending), 2, fuel
  {
    hide StmtPre, StmtsSide, Exec, SizeStmt, GenStmt, GenBlock, GenExpr, Fits, Ready, StmtsOk, PlacedIn, StmtsLits,
         StmtsNames, AssignedIn, Ends, ExecBlock, Good, FreeTemp,
         Neutral, Agrees, KeepsBut, TruthOk, ExprLits, ExprNames, WorldOk, EvalExpr, Bridge;
    var g := GenStmt(s, base, cs, w.loops, w.pending);
    var end := base + |g.code|;
    IfSides(x, w, fuel, s, vis, base, cs, st, m);
    ReadyLengths(x, w, vis, |st.env| - 1, cs, st, m);
    IfShape(x, s, base, cs, w.loops, w.pending);
    var n1, m1 := IfCond(x, w, s, vis, base, cs, st, m);
    var gc := GenExpr(s.cond, None, base, cs);
    var cs1 := FreeTemp(gc.cs, gc.r);
    var thenAt := base + |gc.code| + 1;
    var gt := GenBlock(s.thn, thenAt, cs1, w.loops, w.pending);
    var alt := thenAt + |gt.code|;
    if Truthy(EvalExpr(x.ops, st.env, s.cond)) {
      var n2, m3 := BlockSim(x, w, fuel, s.thn, vis, thenAt, cs1, st, m1);
      var o := ExecBlock(x.ops, fuel, s.thn, st);
      if s.els.Some? {
        NeutralLocals(gt.cs, GenBlock(s.els.value, alt + 1, gt.cs, w.loops, w.pending).cs);
        n2, m3 := EndsJump(x, w, cs1, gt.cs, g.cs, alt, end, SizeStmts(s.thn), SizeStmt(s), fuel, o, m1, m1.regs, n2,
                           m3);
      } else {
        EndsWiden(x, w, cs1, gt.cs, g.cs, alt, end, SizeStmts(s.thn), SizeStmt(s), fuel, o, m1.regs, n2, m3);
      }
      Chain(x.ops, x.p, m, n1, m1, n2, m3);
      EndsLater(x, w, |st.env| - 1, st.env, cs, cs1, g.cs, end, SizeStmt(s), SizeStmt(s), fuel, o, m.regs, m1.regs, n1,
                n2, m3);
      n, m2 := n1 + n2, m3;
    } else if s.els.Some? {
      var n2, m3 := BlockSim(x, w, fuel, s.els.value, vis, alt + 1, gt.cs, st, m1);
      Chain(x.ops, x.p, m, n1, m1, n2, m3);
      EndsLater(x, w, |st.env| - 1, st.env, cs, gt.cs, g.cs, end, SizeStmts(s.els.value), SizeStmt(s), fuel,
                ExecBlock(x.ops, fuel, s.els.value, st), m.regs, m1.regs, n1, n2, m3);
      n, m2 := n1 + n2, m3;
    } else {
      n, m2 := n1, m1;
      ReadyLengths(x, w, vis, |st.env|, gt.cs, st, m1);
      EndsHere(x, w, cs, g.cs, end, SizeStmt(s), fuel, st, m.regs, n, m2);
    }
  }

  // The statement ended normally in the state it started from.
  lemma EndsHere(x: Ctx, w: World, cs: CState, cs1: CState, end: nat, size: nat, fuel: nat, st: St, a: Regs, n: nat,
      m2: Machine)
    requires |w.marks| == |w.loops| == |x.fixes| && |w.pending| == |w.pends|
    requires Stands(m2, end) && m2.out == st.out && Agrees(x.ops, w.dead, st.env, cs1.locals, m2.regs)
             && KeepsBut(cs, w.wr, a, m2.regs)
    ensures Ends(x, w, cs, cs1, end, size, fuel, Normal(st), a, n, m2)
  {
  }

  lemma BridgeNeutral(cs: CState, cs1: CState, wr: set<string>, a: Regs, b: Regs)
    requires Neutral(cs, cs1) && KeepsBut(cs, wr, a, b)
    ensures Bridge(cs, cs1, wr, a, b)
  {
    BridgeOver(cs, cs1, wr, a, b);
  }

  lemma BridgeNeutral2(cs: CState, cs1: CState, cs2: CState, wr: set<string>, a: Regs, b: Regs)
    requires Neutral(cs, cs1) && Neutral(cs1, cs2) && KeepsBut(cs, wr, a, b)
    ensures Bridge(cs, cs2, wr, a, b)
  {
    NeutralTrans(cs, cs1, cs2);
    BridgeNeutral(cs, cs2, wr, a, b);
  }

  // ---------- leaving: return, break, continue ----------

  lemma PendEnter(x: Ctx, w: World, floor: nat, mk: Mark, depth: nat, base: nat, cs: CState, st: St, m: Machine)
    requires Stands(m, base) && m.out == st.out
    requires Good(cs) && NoShadow(st.env) && Agrees(x.ops, w.dead, st.env, cs.locals, m.regs)
    requires ExitOk(x.lits, w, floor, mk, depth, st.env, cs.locals)
    requires var g := GenPending(w.pending, floor, base, cs, w.loops); Fits(x, g.code, base, g.cs.pool)
    ensures PendPre(x, w, floor, mk, w.dead, depth, base, cs, st, m)
  {
  }

  // The jump after the blocks of a `break` or `continue`.
  lemma LandsJump(x: Ctx, w: World, cs: CState, floor: nat, mk: Mark, at: nat, to: nat, st: St, a: Regs, m: Machine,
      n: nat, m2: Machine)
    returns (n3: nat, m3: Machine)
    requires |w.pending| == |w.pends| && Run(x.ops, x.p, m, n) == m2
    requires Lands(x, w, cs, floor, mk, at, st, a, n, m2)
    requires at < |x.p.code| && x.p.code[at] == Jump(At(to))
    ensures Run(x.ops, x.p, m, n3) == m3 && Lands(x, w, cs, floor, mk, to, st, a, n3, m3)
  {
    hide Agrees, KeepsBut;
    if Unwind(x.ops, w.pending, w.pends, floor, mk.d, st).UOk? {
      ThenStep(x.ops, x.p, m, n, m2);
      n3, m3 := n + 1, Step(x.ops, x.p, m2);
    } else {
      n3, m3 := n, m2;
    }
  }

  lemma {:induction false} BreakSim(x: Ctx, w: World, fuel: nat, s: Stmt, vis: set<string>, base: nat, cs: CState,
      st: St, m: Machine)
    returns (n: nat, m2: Machine)
    requires |w.marks| == |w.loops| == |x.fixes| && |w.pending| == |w.pends|
    requires s.Break? && StmtPre(x, w, s, vis, base, cs, st, m)
    ensures Run(x.ops, x.p, m, n) == m2
    ensures var g := GenStmt(s, base, cs, w.loops, w.pending);
            Ends(x, w, cs, g.cs, base + |g.code|, SizeStmt(s), fuel, Exec(x.ops, fuel, s, st), m.regs, n, m2)
    decreases SizeStmt(s) + SizePending(w.pending), 2, fuel
  {
    hide GenPending, Fits, Good, NoShadow, Agrees, Scope, ExitOk, Lands, PendPre;
    var l := |w.loops| - 1;
    var floor := w.loops[l].floor;
    var p := GenPending(w.pending, floor, base, cs, w.loops);
    FitsEnd(x, p.code, Jump(ToBreak(l)), base, p.cs.pool, p.cs.pool);
    PendEnter(x, w, floor, w.marks[l], |st.env| - 1, base, cs, st, m);
    var n1, m1 := PendSim(x, w, floor, w.marks[l], w.dead, |st.env| - 1, base, cs, st, m);
    n, m2 := LandsJump(x, w, cs, floor, w.marks[l], base + |p.code|, x.fixes[l].brk, st, m.regs, m, n1, m1);
  }

  lemma {:induction false} ContinueSim(x: Ctx, w: World, fuel: nat, s: Stmt, vis: set<string>, base: nat, cs: CState,
      st: St, m: Machine)
    returns (n: nat, m2: Machine)
    requires |w.marks| == |w.loops| == |x.fixes| && |w.pending| == |w.pends|
    requires s.Continue? && StmtPre(x, w, s, vis, base, cs, st, m)
    ensures Run(x.ops, x.p, m, n) == m2
    ensures var g := GenStmt(s, base, cs, w.loops, w.pending);
            Ends(x, w, cs, g.cs, base + |g.code|, SizeStmt(s), fuel, Exec(x.ops, fuel, s, st), m.regs, n, m2)
    decreases SizeStmt(s) + SizePending(w.pending), 2, fuel
  {
    hide GenPending, Fits, Good, NoShadow, Agrees, Scope, ExitOk, Lands, PendPre, ContinueLevel;
    var l := ContinueLevel(w.loops).value;
    var floor := w.loops[l].floor;
    var p := GenPending(w.pending, floor, base, cs, w.loops);
    FitsEnd(x, p.code, Jump(ToContinue(l)), base, p.cs.pool, p.cs.pool);
    PendEnter(x, w, floor, w.marks[l], |st.env| - 1, base, cs, st, m);
    var n1, m1 := PendSim(x, w, floor, w.marks[l], w.dead, |st.env| - 1, base, cs, st, m);
    n, m2 := LandsJump(x, w, cs, floor, w.marks[l], base + |p.code|, x.fixes[l].cont, st, m.regs, m, n1, m1);
  }

  // The names the pending blocks assign.
  ghost function PendWrites(pending: seq<Stmts>): set<string> {
    set i: nat, y | i < |pending| && y in AssignedIn(pending[i]) :: y
  }

  lemma ExitWrites(lits: set<Value>, w: World, floor: nat, mk: Mark, depth: nat, env: Env, locals: seq<Local>)
    requires ExitOk(lits, w, floor, mk, depth, env, locals)
    ensures ExitOk(lits, w.(wr := PendWrites(w.pending)), floor, mk, depth, env, locals)
  {
    var w1 := w.(wr := PendWrites(w.pending));
    forall i | floor <= i < |w.pending|
      ensures PendOk(lits, w1, i, depth, env, locals)
    {
      assert PendOk(lits, w, i, depth, env, locals);
      assert AssignedIn(w.pending[i]) <= w1.wr;
    }
  }

  lemma NotWritten(lits: set<Value>, w: World, y: string, depth: nat, env: Env, locals: seq<Local>)
    requires ExitOk(lits, w, 0, Mark(0, 0), depth, env, locals) && NotAssignedIn(y, w.fins)
    ensures y !in PendWrites(w.pending)
  {
    forall i | 0 <= i < |w.pending|
      ensures y !in AssignedIn(w.pending[i])
    {
      assert PendOk(lits, w, i, depth, env, locals);
    }
  }

  // The register a value is returned from survives the pending blocks.
  lemma ReturnKept(x: Ctx, w: World, e: Expr, vis: set<string>, base: nat, cs: CState, st: St, depth: nat, a: Regs,
      b: Regs)
    requires Good(cs) && Scope(st.env, vis) && ExprNames(e) !! w.dead
    requires forall y :: y !in w.dead ==> (Visible(st.env, y) <==> Slot(cs.locals, y).Some?)
    requires e.Var? && e.x in vis ==> NotAssignedIn(e.x, w.fins)
    requires ExitOk(x.lits, w, 0, Mark(0, 0), depth, st.env, cs.locals)
    requires var g := GenExpr(e, None, base, cs); KeepsBut(g.cs, PendWrites(w.pending), a, b)
    ensures var g := GenExpr(e, None, base, cs); Reg(b, g.r) == Reg(a, g.r)
  {
    var g := GenExpr(e, None, base, cs);
    var wr := PendWrites(w.pending);
    ExprFacts(e, None, base, cs);
    if e.Var? && e.x in vis {
      NotWritten(x.lits, w, e.x, depth, st.env, cs.locals);
    }
    if Touched(g.cs.locals, wr, g.r) {
      var y :| y in wr && Slot(g.cs.locals, y) == Some(g.r);
      SlotHeld(g.cs, y);
      if y != e.x {
        SlotsDiffer(cs, y, e.x);
      }
    }
  }

  lemma ReturnFits(x: Ctx, w: World, e: Expr, base: nat, cs: CState)
    requires Good(cs)
    requires var g := GenStmt(Return(Some(e)), base, cs, w.loops, w.pending); Fits(x, g.code, base, g.cs.pool)
    ensures var g := GenExpr(e, None, base, cs);
            var at := base + |g.code|;
            var p := GenPending(w.pending, 0, at, g.cs, w.loops);
            && Good(g.cs) && ExprPost(None, cs, g.r, g.cs)
            && Fits(x, g.code, base, g.cs.pool) && Fits(x, p.code, at, p.cs.pool)
            && at + |p.code| < |x.p.code| && x.p.code[at + |p.code|] == Instr.Ret(g.r)
  {
    hide GenExpr, GenPending, Fits, Good, Free, Neutral;
    ExprNeutral(e, base, cs);
    var g := GenExpr(e, None, base, cs);
    ResultBusy(cs, g.r, g.cs);
    var at := base + |g.code|;
    PendingFacts(w.pending, 0, at, g.cs, w.loops);
    var p := GenPending(w.pending, 0, at, g.cs, w.loops);
    NeutralLocals(g.cs, p.cs);
    PoolFree(p.cs, g.r);
    FitsEnd(x, g.code + p.code, Instr.Ret(g.r), base, p.cs.pool, p.cs.pool);
    FitsCat(x, g.code, p.code, base, p.cs.pool, g.cs.pool);
  }

  lemma {:induction false} ReturnSim(x: Ctx, w: World, fuel: nat, s: Stmt, vis: set<string>, base: nat, cs: CState,
      st: St, m: Machine)
    returns (n: nat, m2: Machine)
    requires |w.marks| == |w.loops| == |x.fixes| && |w.pending| == |w.pends|
    requires s.Return? && StmtPre(x, w, s, vis, base, cs, st, m)
    ensures Run(x.ops, x.p, m, n) == m2
    ensures var g := GenStmt(s, base, cs, w.loops, w.pending);
            Ends(x, w, cs, g.cs, base + |g.code|, SizeStmt(s), fuel, Exec(x.ops, fuel, s, st), m.regs, n, m2)
    decreases SizeStmt(s) + SizePending(w.pending), 2, fuel
  {
    hide StmtPre, GenStmt, Ready;
    var mk := Mark(0, 0);
    var depth := |st.env| - 1;
    ReturnReady(x, w, s, vis, base, cs, st, m);
    if s.value.None? {
      n, m2 := ReturnNull(x, w, vis, depth, base, cs, st, m);
    } else {
      n, m2 := ReturnValue(x, w, s.value.value, vis, depth, base, cs, st, m);
    }
  }

  lemma ReturnReady(x: Ctx, w: World, s: Stmt, vis: set<string>, base: nat, cs: CState, st: St, m: Machine)
    requires s.Return? && StmtPre(x, w, s, vis, base, cs, st, m)
    ensures w.ret && st.env != [] && m.Running? && ReturnPre(x, w, s.value, vis, |st.env| - 1, base, cs, st, m)
  {
    hide GenStmt, Fits, Good, NoShadow, Scope, ExitOk, Agrees, ExprNames, ExprLits, ValueOk;
  }

  ghost predicate ReturnPre(x: Ctx, w: World, value: Option<Expr>, vis: set<string>, depth: nat, base: nat, cs: CState,
      st: St, m: Machine) {
    && Stands(m, base) && m.out == st.out && Good(cs) && NoShadow(st.env) && Scope(st.env, vis)
    && Agrees(x.ops, w.dead, st.env, cs.locals, m.regs)
    && |w.pending| == |w.pends| && ExitOk(x.lits, w, 0, Mark(0, 0), depth, st.env, cs.locals)
    && (var g := GenStmt(Return(value), base, cs, w.loops, w.pending); Fits(x, g.code, base, g.cs.pool))
    && (value.Some? ==>
          var e := value.value;
          && ValueOk(e) && ExprLits(e) <= x.lits && ExprNames(e) !! w.dead
          && (e.Var? && e.x in vis ==> NotAssignedIn(e.x, w.fins)))
  }

  // After the pending blocks, the value is returned with the output they added.
  ghost predicate Returned(x: Ctx, w: World, v: Value, st: St, n: nat, m2: Machine)
    requires |w.pending| == |w.pends|
  {
    match Unwind(x.ops, w.pending, w.pends, 0, 0, st)
    case UOk(st3) => m2 == Done(v, st3.out)
    case UOut(i) => i < |w.pending| && Out(m2, n, SizeStmts(w.pending[i]), w.pends[i].fuel)
  }

  lemma {:induction false} ReturnNull(x: Ctx, w: World, vis: set<string>, depth: nat, base: nat, cs: CState, st: St,
      m: Machine)
    returns (n: nat, m2: Machine)
    requires |w.marks| == |w.loops| == |x.fixes| && |w.pending| == |w.pends|
    requires ReturnPre(x, w, None, vis, depth, base, cs, st, m)
    ensures Run(x.ops, x.p, m, n) == m2 && Returned(x, w, Null, st, n, m2)
    decreases 1 + SizePending(w.pending), 1, 0
  {
    hide GenPending, Fits, Good, NoShadow, Scope, ExitOk, PendPre, KeepsBut;
    var mk := Mark(0, 0);
    var p := GenPending(w.pending, 0, base, cs, w.loops);
    FitsEnd(x, p.code, RetNull, base, p.cs.pool, p.cs.pool);
    PendEnter(x, w, 0, mk, depth, base, cs, st, m);
    var n1, m1 := PendSim(x, w, 0, mk, w.dead, depth, base, cs, st, m);
    ThenStep(x.ops, x.p, m, n1, m1);
    n, m2 := n1, m1;
    if Unwind(x.ops, w.pending, w.pends, 0, 0, st).UOk? {
      n, m2 := n1 + 1, Step(x.ops, x.p, m1);
    }
  }

  lemma {:induction false} ReturnValue(x: Ctx, w: World, e: Expr, vis: set<string>, depth: nat, base: nat, cs: CState,
      st: St, m: Machine)
    returns (n: nat, m2: Machine)
    requires |w.marks| == |w.loops| == |x.fixes| && |w.pending| == |w.pends|
    requires ReturnPre(x, w, Some(e), vis, depth, base, cs, st, m)
    ensures Run(x.ops, x.p, m, n) == m2 && Returned(x, w, EvalExpr(x.ops, st.env, e), st, n, m2)
    decreases 1 + SizePending(w.pending), 1, 0
  {
    hide GenPending, GenStmt, Fits, Good, NoShadow, Scope, ExitOk, PendPre, KeepsBut, GenExpr, ExprPost, ExprNames,
         ExprLits, ValueOk;
    var mk := Mark(0, 0);
    ReturnFits(x, w, e, base, cs);
    var g := GenExpr(e, None, base, cs);
    var at := base + |g.code|;
    var n1, m1 := RunReturned(x, e, base, cs, st.env, w.dead, m);
    var w1 := w.(wr := PendWrites(w.pending));
    ExitWrites(x.lits, w, 0, mk, depth, st.env, cs.locals);
    PendEnter(x, w1, 0, mk, depth, at, g.cs, st, m1);
    var n2, m2' := PendSim(x, w1, 0, mk, w.dead, depth, at, g.cs, st, m1);
    Chain(x.ops, x.p, m, n1, m1, n2, m2');
    ThenStep(x.ops, x.p, m, n1 + n2, m2');
    n, m2 := n1 + n2, m2';
    if Unwind(x.ops, w.pending, w.pends, 0, 0, st).UOk? {
      ReturnKept(x, w, e, vis, base, cs, st, depth, m1.regs, m2'.regs);
      n, m2 := n1 + n2 + 1, Step(x.ops, x.p, m2');
    }
  }

  lemma RunReturned(x: Ctx, e: Expr, base: nat, cs: CState, env: Env, dead: set<string>, m: Machine)
    returns (n: nat, m1: Machine)
    requires Good(cs) && Stands(m, base) && Agrees(x.ops, dead, env, cs.locals, m.regs)
    requires var g := GenExpr(e, None, base, cs); Fits(x, g.code, base, g.cs.pool)
    requires ValueOk(e) && ExprLits(e) <= x.lits && ExprNames(e) !! dead
    ensures var g := GenExpr(e, None, base, cs);
            && Run(x.ops, x.p, m, n) == m1 && m1.Running? && m1 == m.(pc := base + |g.code|, regs := m1.regs)
            && Reg(m1.regs, g.r) == EvalExpr(x.ops, env, e)
            && Agrees(x.ops, dead, env, g.cs.locals, m1.regs) && g.cs.locals == cs.locals
            && Keeps(cs, None, m.regs, m1.regs) && Busy(g.cs.rs, g.r)
  {
    var g := GenExpr(e, None, base, cs);
    assert g.code + [] == g.code;
    n, m1 := RunRhs(x, e, base, cs, env, dead, [], g.cs.pool, m);
  }

  // ---------- loops ----------

  ghost predicate LoopSide(x: Ctx, w: World, test: Option<Expr>, post: Option<Effect>, body: Stmts, isWhile: bool,
      vis: set<string>) {
    && OptTruthOk(test) && PostOk(post, vis) && StmtsOk(body, vis, w.fins) && PlacedIn(body, true, true, w.ret)
    && (isWhile ==> test.Some? && post.None?)
    && (test.Some? ==> ExprLits(test.value) <= x.lits && ExprNames(test.value) !! w.dead)
    && (post.Some? ==>
          EffectLits(post.value) <= x.lits && EffectNames(post.value) !! w.dead && EffectTarget(post.value) <= w.wr)
    && StmtsLits(body) <= x.lits && StmtsNames(body) !! w.dead && AssignedIn(body) <= w.wr
  }

  ghost predicate LoopPre(x: Ctx, w: World, test: Option<Expr>, post: Option<Effect>, body: Stmts, isWhile: bool,
      vis: set<string>,
                          start: nat, cs: CState, st: St, m: Machine) {
    var g := GenLoop(test, post, body, isWhile, start, cs, w.loops, w.pending);
    && st.env != [] && Ready(x, w, vis, |st.env| - 1, cs, st, m) && m.pc == start
    && Fits(x, g.code, start, g.cs.pool)
    && LoopSide(x, w, test, post, body, isWhile, vis)
  }

  // The test: on to the body, or out of the loop.
  lemma RunTest(x: Ctx, test: Option<Expr>, after: nat, start: nat, cs: CState, env: Env, dead: set<string>, m: Machine)
    returns (n: nat, m1: Machine)
    requires Good(cs) && Stands(m, start) && Agrees(x.ops, dead, env, cs.locals, m.regs)
    requires var g := GenTest(test, after, start, cs); Fits(x, g.code, start, g.cs.pool)
    requires OptTruthOk(test) && (test.Some? ==> ExprLits(test.value) <= x.lits && ExprNames(test.value) !! dead)
    ensures var g := GenTest(test, after, start, cs);
            && (test.Some? ==> n > 0) && Run(x.ops, x.p, m, n) == m1 && m1.Running?
            && m1 == m.(pc := if test.Some? && !Truthy(EvalExpr(x.ops, env, test.value)) then after
                        else start + |g.code|, regs := m1.regs)
            && Keeps(cs, None, m.regs, m1.regs)
            && Neutral(cs, g.cs) && Agrees(x.ops, dead, env, g.cs.locals, m1.regs)
  {
    hide GenExpr, Fits, Agrees, Good, Neutral, Keeps, FreeTemp;
    if test.None? {
      KeepsRefl(cs, m.regs);
      NeutralRefl(cs);
      n, m1 := 0, m;
    } else {
      var c := test.value;
      var g := GenExpr(c, None, start, cs);
      PoolFree(g.cs, g.r);
      FitsEnd(x, g.code, JumpIfFalse(g.r, At(after)), start, g.cs.pool, g.cs.pool);
      n, m1 := RunCond(x, c, At(after), start, cs, g.cs.pool, env, dead, m);
    }
  }

  // After the body: the step and the jump back, ready for the next round.
  lemma RunRound(x: Ctx, w: World, test: Option<Expr>, post: Option<Effect>, body: Stmts, isWhile: bool,
      vis: set<string>,
                 start: nat, postAt: nat, cs: CState, csb: CState, st: St, m: Machine, st1: St, m1: Machine)
    returns (n: nat, m2: Machine)
    requires LoopPre(x, w, test, post, body, isWhile, vis, start, cs, st, m)
    requires Good(csb) && Neutral(cs, csb) && Stands(m1, postAt) && m1.out == st1.out
    requires SameKeys(st.env, st1.env) && NoShadow(st1.env) && Agrees(x.ops, w.dead, st1.env, cs.locals, m1.regs)
    requires KeepsBut(cs, w.wr, m.regs, m1.regs)
    requires var gp := GenPost(post, postAt, csb);
             && Fits(x, gp.code, postAt, gp.cs.pool)
             && postAt + |gp.code| < |x.p.code| && x.p.code[postAt + |gp.code|] == Jump(At(start))
    ensures n > 0 && Run(x.ops, x.p, m1, n) == m2 && m2.Running?
    ensures var st2 := if post.Some? then ExecEffect(x.ops, post.value, st1) else st1;
            && LoopPre(x, w, test, post, body, isWhile, vis, start, cs, st2, m2)
            && KeepsBut(cs, w.wr, m.regs, m2.regs)
  {
    hide LoopPre, GenLoop, GenPost, Fits, Good, Neutral, KeepsBut, StmtsOk, ExecEffect, EffectLits, EffectNames, Step,
         Agrees, Scope, NoShadow,
         SameKeys, PostOk;
    PostSides(x, w, test, post, body, isWhile, vis, start, cs, st, m);
    NeutralLocals(cs, csb);
    SameKeysScope(st.env, st1.env, vis);
    SameKeysLength(st.env, st1.env);
    PostTargets(x, w, post, vis, csb, st1, m1);
    var n1, m1' := RunPost(x, post, postAt, csb, st1.env, w.dead, w.wr, m1);
    var gp := GenPost(post, postAt, csb);
    ThenStep(x.ops, x.p, m1, n1, m1');
    JumpStep(x, m1', start);
    n, m2 := n1 + 1, Step(x.ops, x.p, m1');
    var st2 := if post.Some? then ExecEffect(x.ops, post.value, st1) else st1;
    if post.Some? {
      EffectOut(x.ops, post.value, st1);
      EffectKeys(x.ops, post.value, st1);
      EffectGrows(x.ops, post.value, st1);
      GrowsNoShadow(st1.env, st2.env);
    }
    SameKeysTrans(st.env, st1.env, st2.env);
    NeutralLocals(csb, gp.cs);
    KeepsButNeutral(cs, csb, w.wr, m.regs, m1.regs, m2.regs);
    RoundBack(x, w, test, post, body, isWhile, vis, start, cs, st, m, st2, m2);
  }

  lemma SameKeysLength(a: Env, b: Env)
    requires SameKeys(a, b)
    ensures |a| == |b|
  {
  }

  lemma GrowsNoShadow(a: Env, b: Env)
    requires Grows(a, b)
    ensures NoShadow(b)
  {
  }

  lemma JumpStep(x: Ctx, m: Machine, to: nat)
    requires m.Running? && m.pc < |x.p.code| && x.p.code[m.pc] == Jump(At(to))
    ensures Step(x.ops, x.p, m) == m.(pc := to)
  {
  }

  lemma PostSides(x: Ctx, w: World, test: Option<Expr>, post: Option<Effect>, body: Stmts, isWhile: bool,
      vis: set<string>,
                  start: nat, cs: CState, st: St, m: Machine)
    requires LoopPre(x, w, test, post, body, isWhile, vis, start, cs, st, m)
    ensures m.Running? && st.env != [] && Scope(st.env, vis) && PostOk(post, vis)
    ensures post.Some? ==>
              EffectLits(post.value) <= x.lits && EffectNames(post.value) !! w.dead && EffectTarget(post.value) <= w.wr
  {
    hide GenLoop, Fits, Good, Agrees, WorldOk, StmtsOk, PlacedIn, StmtsLits, StmtsNames, AssignedIn;
  }

  lemma SameKeysTrans(a: Env, b: Env, c: Env)
    requires SameKeys(a, b) && (b == c || SameKeys(b, c))
    ensures SameKeys(a, c)
  {
  }

  lemma ExtendsSame(w: World, depth: nat, env: Env, env1: Env, locals: seq<Local>)
    requires SameKeys(env, env1) && depth <= |env|
    ensures Extends(w, depth, env, locals, env1, locals)
  {
    assert Later(locals, |locals|) == {};
  }

  lemma PostTargets(x: Ctx, w: World, post: Option<Effect>, vis: set<string>, cs: CState, st: St, m: Machine)
    requires m.Running? && Scope(st.env, vis) && Agrees(x.ops, w.dead, st.env, cs.locals, m.regs)
    requires PostOk(post, vis) && (post.Some? ==> EffectNames(post.value) !! w.dead)
    ensures post.Some? ==>
              && (post.value.Assign? ==> ValueOk(post.value.rhs))
              && (!post.value.Eval? ==> Slot(cs.locals, post.value.x).Some?)
              && (forall y :: y in EffectTarget(post.value) ==> Visible(st.env, y))
  {
    if post.Some? && !post.value.Eval? {
      assert post.value.x in EffectTarget(post.value);
      assert post.value.x in EffectNames(post.value);
    }
  }

  lemma LoopBodyPre(x: Ctx, w: World, test: Option<Expr>, post: Option<Effect>, body: Stmts, isWhile: bool,
      vis: set<string>,
                    start: nat, cs: CState, st: St, m: Machine, m1: Machine)
    requires |w.marks| == |w.loops| == |x.fixes| && |w.pending| == |w.pends|
    requires LoopPre(x, w, test, post, body, isWhile, vis, start, cs, st, m)
    requires var g := GenLoop(test, post, body, isWhile, start, cs, w.loops, w.pending);
             var gt := GenTest(test, start + |g.code|, start, cs);
             && m1.Running? && m1 == m.(pc := start + |gt.code|, regs := m1.regs)
             && Agrees(x.ops, w.dead, st.env, gt.cs.locals, m1.regs)
    ensures var g := GenLoop(test, post, body, isWhile, start, cs, w.loops, w.pending);
            var after := start + |g.code|;
            var gt := GenTest(test, after, start, cs);
            var bodyAt := start + |gt.code|;
            var w1 := InLoop(w, false, Mark(|st.env|, |cs.locals|));
            var gb := GenBlock(body, bodyAt, gt.cs, w1.loops, w.pending);
            var fx := Fix(after, if isWhile then start else bodyAt + |gb.code|, []);
            BlockPre(InCtx(x, fx), w1, body, vis, bodyAt, gt.cs, st, m1)
  {
    hide GenLoop, GenTest, GenBlock, Fits, Good, Neutral, WorldOk, StmtsOk, PlacedIn, StmtsLits, StmtsNames,
         AssignedIn, Agrees, Scope, NoShadow;
    LoopShape(x, test, post, body, isWhile, start, cs, w.loops, w.pending);
    var g := GenLoop(test, post, body, isWhile, start, cs, w.loops, w.pending);
    var after := start + |g.code|;
    var gt := GenTest(test, after, start, cs);
    NeutralLocals(cs, gt.cs);
    var bodyAt := start + |gt.code|;
    var gb := GenBlock(body, bodyAt, gt.cs, w.loops + [Loop(false, |w.pending|)], w.pending);
    var fx := Fix(after, if isWhile then start else bodyAt + |gb.code|, []);
    StillReady(x, w, vis, |st.env| - 1, cs, gt.cs, st, m, m1);
    Deeper(x, w, vis, |st.env| - 1, gt.cs, st, m1);
    LoopReady(x, w, vis, gt.cs, st, m1, false, fx);
  }

  lemma {:induction false} LoopSim(x: Ctx, w: World, fuel: nat, test: Option<Expr>, post: Option<Effect>, body: Stmts,
      isWhile: bool,
                                   vis: set<string>, start: nat, cs: CState, st: St, m: Machine)
    returns (n: nat, m2: Machine)
    requires |w.marks| == |w.loops| == |x.fixes| && |w.pending| == |w.pends|
    requires LoopPre(x, w, test, post, body, isWhile, vis, start, cs, st, m)
    ensures Run(x.ops, x.p, m, n) == m2
    ensures var g := GenLoop(test, post, body, isWhile, start, cs, w.loops, w.pending);
            Ends(x, w, cs, g.cs, start + |g.code|, 1 + SizeStmts(body), fuel,
                 ExecLoop(x.ops, fuel, test, post, body, st), m.regs, n, m2)
    decreases SizeStmts(body) + SizePending(w.pending), 2, fuel
  {
    hide GenLoop, GenTest, GenBlock, GenPost, Fits, Good, Neutral, Agrees, Scope, NoShadow, Ends, Keeps, KeepsBut,
         LoopPre, ExecBlock, ExecEffect,
         EvalExpr, BlockPre, Bridge, WorldOk, TruthOk, ExprLits, ExprNames, Exec, Grows, Step, SizePending, SizeStmt,
           StmtPost, PlacedIn, GenExpr;
    LoopFactsHere(x, w, test, post, body, isWhile, vis, start, cs, st, m);
    var g := GenLoop(test, post, body, isWhile, start, cs, w.loops, w.pending);
    var after := start + |g.code|;
    var gt := GenTest(test, after, start, cs);
    NeutralLocals(cs, gt.cs);
    var n1, m1 := RunTest(x, test, after, start, cs, st.env, w.dead, m);
    KeepsButSelf(cs, w.wr, m.regs, m1.regs);
    if test.Some? && !Truthy(EvalExpr(x.ops, st.env, test.value)) {
      n, m2 := n1, m1;
      EndsHere(x, w, cs, g.cs, after, 1 + SizeStmts(body), fuel, st, m.regs, n, m2);
    } else if fuel == 0 {
      n, m2 := n1, m1;
      EndsOut(x, w, cs, g.cs, after, 1 + SizeStmts(body), 0, m.regs, n, m2);
    } else {
      var bodyAt := start + |gt.code|;
      var mk := Mark(|st.env|, |cs.locals|);
      var w1 := InLoop(w, false, mk);
      var gb := GenBlock(body, bodyAt, gt.cs, w1.loops, w.pending);
      var postAt := bodyAt + |gb.code|;
      var fx := Fix(after, if isWhile then start else postAt, []);
      var x1 := InCtx(x, fx);
      LoopBodyPre(x, w, test, post, body, isWhile, vis, start, cs, st, m, m1);
      var n2, m2' := BlockSim(x1, w1, fuel - 1, body, vis, bodyAt, gt.cs, st, m1);
      var o := ExecBlock(x.ops, fuel - 1, body, st);
      Chain(x.ops, x.p, m, n1, m1, n2, m2');
      n, m2 := n1 + n2, m2';
      if o.OutOfFuel? {
        EndsOutUse(x1, w1, gt.cs, gb.cs, postAt, SizeStmts(body), fuel - 1, m1.regs, n2, m2');
        EndsOut(x, w, cs, g.cs, after, 1 + SizeStmts(body), fuel, m.regs, n, m2);
      } else if o.Ret? {
        BodyAway(x, w, gt.cs, gb.cs, g.cs, postAt, after, SizeStmts(body), 1 + SizeStmts(body), fuel - 1, fuel, false,
                 fx, mk, o, m1.regs, n2, m2');
        BridgeNeutral(cs, gt.cs, w.wr, m.regs, m1.regs);
        EndsLater(x, w, |st.env| - 1, st.env, cs, gt.cs, g.cs, after, 1 + SizeStmts(body), 1 + SizeStmts(body), fuel,
                  o, m.regs, m1.regs, n1, n2, m2');
      } else {
        BlockKeys(x.ops, fuel - 1, body, st);
        NeutralLocals(gt.cs, gb.cs);
        BodyHere(x, w, cs, gt.cs, gb.cs, postAt, SizeStmts(body), fuel - 1, false, fx, |st.env|, o, m1.regs, n2, m2');
        KeepsButNeutral(cs, gt.cs, w.wr, m.regs, m1.regs, m2'.regs);
        if o.Brk? {
          EndsHere(x, w, cs, g.cs, after, 1 + SizeStmts(body), fuel, o.st, m.regs, n, m2);
        } else {
          var n3, m3 := 0, m2';
          NeutralTrans(cs, gt.cs, gb.cs);
          if o.Cont? && isWhile {
            RoundBack(x, w, test, post, body, isWhile, vis, start, cs, st, m, o.st, m2');
          } else {
            n3, m3 := RunRound(x, w, test, post, body, isWhile, vis, start, postAt, cs, gb.cs, st, m, o.st, m2');
          }
          Chain(x.ops, x.p, m, n1 + n2, m2', n3, m3);
          var st2 := if post.Some? then ExecEffect(x.ops, post.value, o.st) else o.st;
          var n4, m4 := LoopSim(x, w, fuel - 1, test, post, body, isWhile, vis, start, cs, st2, m3);
          Chain(x.ops, x.p, m, n1 + n2 + n3, m3, n4, m4);
          BridgeOver(cs, cs, w.wr, m.regs, m3.regs);
          var o2 := ExecLoop(x.ops, fuel - 1, test, post, body, st2);
          n, m2 := n1 + n2 + n3 + n4, m4;
          NextFuel(x, w, |st.env| - 1, st.env, cs, g.cs, after, 1 + SizeStmts(body), fuel, o2, m.regs, m3.regs,
                   n1 + n2 + n3, n4, m4);
        }
      }
    }
  }

  lemma BlockKeys(ops: Ops, fuel: nat, body: Stmts, st: St)
    requires NoShadow(st.env) && st.env != []
    ensures var o := ExecBlock(ops, fuel, body, st);
            !o.OutOfFuel? ==> SameKeys(st.env, o.st.env) && NoShadow(o.st.env) && |o.st.env| == |st.env|
  {
    BlockGrows(ops, fuel, body, st);
  }

  // One more round made at least one more step.
  lemma NextFuel(x: Ctx, w: World, depth: nat, env: Env, cs: CState, cs2: CState, end: nat, size: nat, fuel: nat,
                 o: Outcome, a: Regs, b: Regs, n1: nat, n2: nat, m2: Machine)
    requires WorldOk(x, w, depth, env, cs.locals) && Bridge(cs, cs, w.wr, a, b) && n1 > 0 && fuel > 0
    requires Ends(x, w, cs, cs2, end, size, fuel - 1, o, b, n2, m2)
    ensures Ends(x, w, cs, cs2, end, size, fuel, o, a, n1 + n2, m2)
  {
    hide Bridge, Lands, Unwind, Agrees, KeepsBut, ExitOk;
    if o.OutOfFuel? {
      assert Out(m2, n1 + n2, size, fuel);
    } else {
      EndsAnyFuel(x, w, cs, cs2, end, size, fuel - 1, fuel, o, b, n2, m2);
      EndsLater(x, w, depth, env, cs, cs, cs2, end, size, size, fuel, o, a, b, n1, n2, m2);
    }
  }

  lemma EndsAnyFuel(x: Ctx, w: World, cs: CState, cs2: CState, end: nat, size: nat, fuel: nat, fuel2: nat, o: Outcome,
      a: Regs, n: nat, m2: Machine)
    requires |w.marks| == |w.loops| == |x.fixes| && |w.pending| == |w.pends| && !o.OutOfFuel?
    requires Ends(x, w, cs, cs2, end, size, fuel, o, a, n, m2)
    ensures Ends(x, w, cs, cs2, end, size, fuel2, o, a, n, m2)
  {
  }

  lemma EndsOut(x: Ctx, w: World, cs: CState, cs1: CState, end: nat, size: nat, fuel: nat, a: Regs, n: nat, m2: Machine)
    requires |w.marks| == |w.loops| == |x.fixes| && |w.pending| == |w.pends|
    requires m2.Running? && n + size >= fuel
    ensures Ends(x, w, cs, cs1, end, size, fuel, OutOfFuel, a, n, m2)
  {
  }

  lemma EndsOutUse(x: Ctx, w: World, cs: CState, cs1: CState, end: nat, size: nat, fuel: nat, a: Regs, n: nat,
      m2: Machine)
    requires |w.marks| == |w.loops| == |x.fixes| && |w.pending| == |w.pends|
    requires Ends(x, w, cs, cs1, end, size, fuel, OutOfFuel, a, n, m2)
    ensures m2.Running? && n + size >= fuel
  {
  }

  // `continue` in a while loop lands at the test at once.
  lemma RoundBack(x: Ctx, w: World, test: Option<Expr>, post: Option<Effect>, body: Stmts, isWhile: bool,
      vis: set<string>,
                  start: nat, cs: CState, st: St, m: Machine, st1: St, m1: Machine)
    requires LoopPre(x, w, test, post, body, isWhile, vis, start, cs, st, m)
    requires Stands(m1, start) && m1.out == st1.out
    requires SameKeys(st.env, st1.env) && NoShadow(st1.env) && Agrees(x.ops, w.dead, st1.env, cs.locals, m1.regs)
    ensures LoopPre(x, w, test, post, body, isWhile, vis, start, cs, st1, m1)
  {
    hide GenLoop, Fits, Good, Agrees, WorldOk, LoopSide;
    SameKeysScope(st.env, st1.env, vis);
    ExtendsSame(w, |st.env| - 1, st.env, st1.env, cs.locals);
    WorldExtends(x, w, |st.env| - 1, st.env, cs.locals, st1.env, cs.locals);
  }

  // What the proof of a loop uses of its start.
  ghost predicate LoopParts(x: Ctx, w: World, test: Option<Expr>, post: Option<Effect>, body: Stmts, g: Gen,
      start: nat, cs: CState) {
    var after := start + |g.code|;
    var gt := GenTest(test, after, start, cs);
    var bodyAt := start + |gt.code|;
    var gb := GenBlock(body, bodyAt, gt.cs, w.loops + [Loop(false, |w.pending|)], w.pending);
    var postAt := bodyAt + |gb.code|;
    var gp := GenPost(post, postAt, gb.cs);
    && Fits(x, gt.code, start, gt.cs.pool) && Neutral(cs, gt.cs) && Neutral(gt.cs, gb.cs)
    && Fits(x, gp.code, postAt, gp.cs.pool) && postAt + |gp.code| < |x.p.code|
         && x.p.code[postAt + |gp.code|] == Jump(At(start))
    && g.cs.locals == cs.locals
  }

  lemma LoopFactsHere(x: Ctx, w: World, test: Option<Expr>, post: Option<Effect>, body: Stmts, isWhile: bool,
      vis: set<string>,
                      start: nat, cs: CState, st: St, m: Machine)
    requires |w.marks| == |w.loops| == |x.fixes| && |w.pending| == |w.pends|
    requires LoopPre(x, w, test, post, body, isWhile, vis, start, cs, st, m)
    ensures m.Running? && Good(cs) && Stands(m, start) && NoShadow(st.env) && st.env != [] && m.out == st.out
    ensures Agrees(x.ops, w.dead, st.env, cs.locals, m.regs) && WorldOk(x, w, |st.env| - 1, st.env, cs.locals)
    ensures OptTruthOk(test) && (isWhile ==> test.Some? && post.None?)
    ensures test.Some? ==> ExprLits(test.value) <= x.lits && ExprNames(test.value) !! w.dead
    ensures LoopParts(x, w, test, post, body, GenLoop(test, post, body, isWhile, start, cs, w.loops, w.pending), start,
                      cs)
  {
    hide GenTest, GenBlock, GenPost, Fits, Good, Neutral, WorldOk, StmtsOk, PlacedIn, StmtsLits, StmtsNames,
         AssignedIn, NoShadow, GenLoop;
    LoopShape(x, test, post, body, isWhile, start, cs, w.loops, w.pending);
    var g := GenLoop(test, post, body, isWhile, start, cs, w.loops, w.pending);
    var after := start + |g.code|;
    var gt := GenTest(test, after, start, cs);
    NeutralLocals(cs, gt.cs);
    var bodyAt := start + |gt.code|;
    var gb := GenBlock(body, bodyAt, gt.cs, w.loops + [Loop(false, |w.pending|)], w.pending);
    NeutralLocals(gt.cs, gb.cs);
    PostTargets(x, w, post, vis, gb.cs, st, m);
    PostNeutral(post, bodyAt + |gb.code|, gb.cs);
    NeutralLocals(gb.cs, g.cs);
  }

  lemma {:induction false} WhileSim(x: Ctx, w: World, fuel: nat, s: Stmt, vis: set<string>, base: nat, cs: CState,
      st: St, m: Machine)
    returns (n: nat, m2: Machine)
    requires |w.marks| == |w.loops| == |x.fixes| && |w.pending| == |w.pends|
    requires s.While? && StmtPre(x, w, s, vis, base, cs, st, m)
    ensures Run(x.ops, x.p, m, n) == m2
    ensures var g := GenStmt(s, base, cs, w.loops, w.pending);
            Ends(x, w, cs, g.cs, base + |g.code|, SizeStmt(s), fuel, Exec(x.ops, fuel, s, st), m.regs, n, m2)
    decreases SizeStmt(s) + SizePending(w.pending), 2, fuel
  {
    hide GenLoop, Fits, Ready, Ends, ExecLoop, StmtsOk, PlacedIn, StmtsLits, StmtsNames, AssignedIn;
    n, m2 := LoopSim(x, w, fuel, Some(s.cond), None, s.body, true, vis, base, cs, st, m);
  }

  lemma ForSides(x: Ctx, w: World, fuel: nat, s: Stmt, vis: set<string>, base: nat, cs: CState, st: St, m: Machine)
    requires s.For? && StmtPre(x, w, s, vis, base, cs, st, m)
    ensures st.env != [] && Ready(x, w, vis, |st.env| - 1, cs, st, m)
    ensures var g := GenStmt(s, base, cs, w.loops, w.pending); Fits(x, g.code, base, g.cs.pool)
    ensures s.init.Some? ==>
              && StmtOk(s.init.value, vis, w.fins) && Placed(s.init.value, w.brk, w.cont, w.ret)
              && StmtLits(s.init.value) <= x.lits && StmtNames(s.init.value) !! w.dead && Assigned(s.init.value) <= w.wr
              && SizeStmt(s.init.value) + 1 + SizeStmts(s.body) <= SizeStmt(s)
    ensures 1 + SizeStmts(s.body) <= SizeStmt(s)
    ensures LoopSide(x, w, s.test, s.post, s.body, false, if s.init.Some? then vis + Declares(s.init.value) else vis)
    ensures var o0 := match s.init case Some(i) => Exec(x.ops, fuel, i, Pushed(st)) case None => Normal(Pushed(st));
            Exec(x.ops, fuel, s, st)
            == Trim(if o0.Normal? then ExecLoop(x.ops, fuel, s.test, s.post, s.body, o0.st) else o0, |st.env|)
    ensures m.pc == base
  {
    hide GenStmt, Fits, Ready, ExecLoop, StmtsOk, PlacedIn, StmtsLits, StmtsNames, AssignedIn, PostOk, OptTruthOk, Trim;
  }

  // The initialiser, then the loop, in the frame and the scope of the whole statement.
  lemma {:induction false} ForInner(x: Ctx, w: World, fuel: nat, s: Stmt, vis: set<string>, base: nat, cs: CState,
      st: St, m: Machine)
    returns (n: nat, m2: Machine)
    requires |w.marks| == |w.loops| == |x.fixes| && |w.pending| == |w.pends|
    requires s.For? && StmtPre(x, w, s, vis, base, cs, st, m)
    ensures m.Running? && Run(x.ops, x.p, m, n) == m2
    ensures var gi := match s.init
                      case Some(i) => GenStmt(i, base, PushScope(cs), w.loops, w.pending)
                      case None => Gen([], PushScope(cs));
            var gl := GenLoop(s.test, s.post, s.body, false, base + |gi.code|, gi.cs, w.loops, w.pending);
            var o0 := match s.init case Some(i) => Exec(x.ops, fuel, i, Pushed(st)) case None => Normal(Pushed(st));
            var o := if o0.Normal? then ExecLoop(x.ops, fuel, s.test, s.post, s.body, o0.st) else o0;
            Ends(x, w, PushScope(cs), gl.cs, base + |gi.code| + |gl.code|, SizeStmt(s), fuel, o, m.regs, n, m2)
    decreases SizeStmt(s) + SizePending(w.pending), 1, fuel
  {
    hide StmtPre, GenStmt, GenLoop, Fits, Ready, Ends, Exec, ExecLoop, StmtOk, Placed, StmtLits, StmtNames, Assigned,
         LoopSide, Good,
         Bridge, WorldOk, SizeStmt, StmtPost, Agrees, KeepsBut;
    ForSides(x, w, fuel, s, vis, base, cs, st, m);
    ReadyLengths(x, w, vis, |st.env| - 1, cs, st, m);
    ForShape(x, s, base, cs, w.loops, w.pending);
    Deeper(x, w, vis, |st.env| - 1, cs, st, m);
    BlockStart(x, w, vis, |st.env|, cs, st, m);
    var cs1 := PushScope(cs);
    if s.init.None? {
      var gl := GenLoop(s.test, s.post, s.body, false, base, cs1, w.loops, w.pending);
      LoopEnter(x, w, s.test, s.post, s.body, vis, base, cs1, Pushed(st), m);
      n, m2 := LoopSim(x, w, fuel, s.test, s.post, s.body, false, vis, base, cs1, Pushed(st), m);
      EndsWiden(x, w, cs1, gl.cs, gl.cs, base + |gl.code|, base + |gl.code|, 1 + SizeStmts(s.body), SizeStmt(s), fuel,
                ExecLoop(x.ops, fuel, s.test, s.post, s.body, Pushed(st)), m.regs, n, m2);
    } else {
      var i := s.init.value;
      var gi := GenStmt(i, base, cs1, w.loops, w.pending);
      var at := base + |gi.code|;
      var gl := GenLoop(s.test, s.post, s.body, false, at, gi.cs, w.loops, w.pending);
      var o0 := Exec(x.ops, fuel, i, Pushed(st));
      StmtEnter(x, w, i, vis, base, cs1, Pushed(st), m);
      n, m2 := StmtSim(x, w, fuel, i, vis, base, cs1, Pushed(st), m);
      if o0.Normal? {
        EndsNormal(x, w, cs1, gi.cs, at, SizeStmt(i), fuel, o0.st, m.regs, n, m2);
        AfterStmt(x, w, fuel, i, vis, base, cs1, Pushed(st), m, o0.st, m2);
        LoopEnter(x, w, s.test, s.post, s.body, vis + Declares(i), at, gi.cs, o0.st, m2);
        var n2, m3 := LoopSim(x, w, fuel, s.test, s.post, s.body, false, vis + Declares(i), at, gi.cs, o0.st, m2);
        Chain(x.ops, x.p, m, n, m2, n2, m3);
        ReadyWorld(x, w, vis, |st.env|, cs1, Pushed(st), m);
        EndsLater(x, w, |st.env|, Pushed(st).env, cs1, gi.cs, gl.cs, at + |gl.code|, 1 + SizeStmts(s.body),
                  SizeStmt(s), fuel,
                  ExecLoop(x.ops, fuel, s.test, s.post, s.body, o0.st), m.regs, m2.regs, n, n2, m3);
        n, m2 := n + n2, m3;
      } else {
        EndsWiden(x, w, cs1, gi.cs, gl.cs, at, at + |gl.code|, SizeStmt(i), SizeStmt(s), fuel, o0, m.regs, n, m2);
      }
    }
  }

  lemma EndsNormal(x: Ctx, w: World, cs: CState, cs1: CState, end: nat, size: nat, fuel: nat, st: St, a: Regs, n: nat,
      m2: Machine)
    requires |w.marks| == |w.loops| == |x.fixes| && |w.pending| == |w.pends|
    requires Ends(x, w, cs, cs1, end, size, fuel, Normal(st), a, n, m2)
    ensures Stands(m2, end) && m2.out == st.out && Agrees(x.ops, w.dead, st.env, cs1.locals, m2.regs)
            && KeepsBut(cs, w.wr, a, m2.regs)
  {
  }

  lemma LoopEnter(x: Ctx, w: World, test: Option<Expr>, post: Option<Effect>, body: Stmts, vis: set<string>,
                  start: nat, cs: CState, st: St, m: Machine)
    requires st.env != [] && Ready(x, w, vis, |st.env| - 1, cs, st, m) && m.Running? && m.pc == start
    requires var g := GenLoop(test, post, body, false, start, cs, w.loops, w.pending); Fits(x, g.code, start, g.cs.pool)
    requires LoopSide(x, w, test, post, body, false, vis)
    ensures LoopPre(x, w, test, post, body, false, vis, start, cs, st, m)
  {
  }

  lemma StmtEnter(x: Ctx, w: World, s: Stmt, vis: set<string>, base: nat, cs: CState, st: St, m: Machine)
    requires st.env != [] && Ready(x, w, vis, |st.env| - 1, cs, st, m) && m.Running? && m.pc == base
    requires var g := GenStmt(s, base, cs, w.loops, w.pending); Fits(x, g.code, base, g.cs.pool)
    requires StmtOk(s, vis, w.fins) && Placed(s, w.brk, w.cont, w.ret)
    requires StmtLits(s) <= x.lits && StmtNames(s) !! w.dead && Assigned(s) <= w.wr
    ensures StmtPre(x, w, s, vis, base, cs, st, m)
  {
  }

  lemma ForGrows(ops: Ops, fuel: nat, s: Stmt, st: St)
    requires s.For? && NoShadow(st.env) && st.env != []
    ensures var o0 := match s.init case Some(i) => Exec(ops, fuel, i, Pushed(st)) case None => Normal(Pushed(st));
            var o := if o0.Normal? then ExecLoop(ops, fuel, s.test, s.post, s.body, o0.st) else o0;
            OutcomeGrows(o, st.env + [map[]])
  {
    PushFrame(ops, st.env);
    var o0 := match s.init case Some(i) => Exec(ops, fuel, i, Pushed(st)) case None => Normal(Pushed(st));
    if s.init.Some? {
      ExecGrows(ops, fuel, s.init.value, Pushed(st));
    }
    if o0.Normal? {
      LoopGrows(ops, fuel, s.test, s.post, s.body, o0.st);
      var o1 := ExecLoop(ops, fuel, s.test, s.post, s.body, o0.st);
      if !o1.OutOfFuel? {
        GrowsTrans(Pushed(st).env, o0.st.env, o1.st.env);
      }
    }
  }

  lemma {:induction false} ForSim(x: Ctx, w: World, fuel: nat, s: Stmt, vis: set<string>, base: nat, cs: CState,
      st: St, m: Machine)
    returns (n: nat, m2: Machine)
    requires |w.marks| == |w.loops| == |x.fixes| && |w.pending| == |w.pends|
    requires s.For? && StmtPre(x, w, s, vis, base, cs, st, m)
    ensures Run(x.ops, x.p, m, n) == m2
    ensures var g := GenStmt(s, base, cs, w.loops, w.pending);
            Ends(x, w, cs, g.cs, base + |g.code|, SizeStmt(s), fuel, Exec(x.ops, fuel, s, st), m.regs, n, m2)
    decreases SizeStmt(s) + SizePending(w.pending), 2, fuel
  {
    hide StmtPre, GenStmt, GenLoop, Fits, Ready, Ends, Exec, ExecLoop, StmtOk, Placed, LoopSide, Good, SizeStmt,
         StmtPost,
         Agrees, KeepsBut, PopScope, OutcomeGrows, NoShadow, Trim, Scope, StmtLits, StmtNames, Assigned;
    ForSides(x, w, fuel, s, vis, base, cs, st, m);
    ReadyLengths(x, w, vis, |st.env| - 1, cs, st, m);
    ForShape(x, s, base, cs, w.loops, w.pending);
    n, m2 := ForInner(x, w, fuel, s, vis, base, cs, st, m);
    ForGrows(x.ops, fuel, s, st);
    Deeper(x, w, vis, |st.env| - 1, cs, st, m);
    var gi := match s.init
              case Some(i) => GenStmt(i, base, PushScope(cs), w.loops, w.pending)
              case None => Gen([], PushScope(cs));
    var gl := GenLoop(s.test, s.post, s.body, false, base + |gi.code|, gi.cs, w.loops, w.pending);
    var o0 := match s.init case Some(i) => Exec(x.ops, fuel, i, Pushed(st)) case None => Normal(Pushed(st));
    var o := if o0.Normal? then ExecLoop(x.ops, fuel, s.test, s.post, s.body, o0.st) else o0;
    LeaveScope(x, w, vis, cs, gl.cs, base + |gi.code| + |gl.code|, SizeStmt(s), fuel, o, st, m, n, m2);
  }

  // ---------- switch ----------

  lemma SwitchSides(x: Ctx, w: World, fuel: nat, s: Stmt, vis: set<string>, base: nat, cs: CState, st: St, m: Machine)
    requires s.Switch? && StmtPre(x, w, s, vis, base, cs, st, m)
    ensures st.env != [] && Ready(x, w, vis, |st.env| - 1, cs, st, m) && m.pc == base
    ensures var g := GenStmt(s, base, cs, w.loops, w.pending); Fits(x, g.code, base, g.cs.pool)
    ensures ValueOk(s.subject) && ExprLits(s.subject) <= x.lits && ExprNames(s.subject) !! w.dead
    ensures CasesOk(s.cases, vis, w.fins) && PlacedCases(s.cases, w.cont, w.ret)
    ensures CasesLits(s.cases) <= x.lits && CasesNames(s.cases) !! w.dead && AssignedCases(s.cases) <= w.wr
    ensures SizeCases(s.cases) < SizeStmt(s)
    ensures var k := Chosen(x.ops, st.env, EvalExpr(x.ops, st.env, s.subject), s.cases);
            Exec(x.ops, fuel, s, st)
            == if k.None? then Normal(st)
               else var o := ExecBlock(x.ops, fuel, BodyAt(s.cases, k.value), st);
                    if o.Brk? then Normal(o.st) else o
  {
    hide GenStmt, Fits, Ready, CasesOk, PlacedCases, CasesLits, CasesNames, AssignedCases, ExecBlock, Select, Chosen,
         BodyAt;
    SelectChosen(x.ops, st.env, EvalExpr(x.ops, st.env, s.subject), s.cases, None);
  }

  function SwitchCtx(x: Ctx, s: Stmt, g: Gen, base: nat, cs: CState, loops: seq<Loop>, pending: seq<Stmts>): Ctx
    requires s.Switch?
  {
    var gs := GenExpr(s.subject, None, base, cs);
    var gv := GenChecks(s.cases, gs.r, |loops|, 0, base + |gs.code|, gs.cs);
    var gb := GenCases(s.cases, base + |gs.code| + |gv.code| + 1, gv.cs, loops + [Loop(true, |pending|)], pending);
    InCtx(x, Fix(base + |g.code|, base + |g.code|, gb.starts))
  }

  // The subject and the comparisons: the machine reaches the chosen case, or the end.
  lemma SwitchReach(x: Ctx, w: World, s: Stmt, g: Gen, vis: set<string>, base: nat, cs: CState, st: St, m: Machine)
    returns (n: nat, m2: Machine)
    requires |w.loops| == |x.fixes| && s.Switch? && SwitchParts(x, s, g, base, cs, w.loops, w.pending)
    requires Good(cs) && Stands(m, base) && Agrees(x.ops, w.dead, st.env, cs.locals, m.regs)
    requires ValueOk(s.subject) && ExprLits(s.subject) <= x.lits && ExprNames(s.subject) !! w.dead
    requires CasesOk(s.cases, vis, w.fins) && CasesLits(s.cases) <= x.lits && CasesNames(s.cases) !! w.dead
    ensures var x1 := SwitchCtx(x, s, g, base, cs, w.loops, w.pending);
            var k := Chosen(x.ops, st.env, EvalExpr(x.ops, st.env, s.subject), s.cases);
            && |x1.fixes| == |x.fixes| + 1 && |x1.fixes[|w.loops|].starts| == Count(s.cases)
            && Run(x.ops, x.p, m, n) == m2 && m2.Running?
            && m2 == m.(pc := if k.Some? then x1.fixes[|w.loops|].starts[k.value] else base + |g.code|, regs := m2.regs)
            && Keeps(cs, None, m.regs, m2.regs)
  {
    hide GenExpr, GenChecks, GenCases, Fits, Good, Agrees, Keeps, Neutral, CasesOk, CasesLits, CasesNames, ValueOk,
         ExprLits, ExprNames,
         DefaultStart, Busy, MatchIndex, LastDefault, EvalExpr, Count, ExprPost;
    var gs := GenExpr(s.subject, None, base, cs);
    var checksAt := base + |gs.code|;
    var gv := GenChecks(s.cases, gs.r, |w.loops|, 0, checksAt, gs.cs);
    var jumpAt := checksAt + |gv.code|;
    var gb := GenCases(s.cases, jumpAt + 1, gv.cs, w.loops + [Loop(true, |w.pending|)], w.pending);
    var x1 := SwitchCtx(x, s, g, base, cs, w.loops, w.pending);
    CountStarts(s.cases, jumpAt + 1, gv.cs, w.loops + [Loop(true, |w.pending|)], w.pending);
    var v := EvalExpr(x.ops, st.env, s.subject);
    var n1, m1 := RunReturned(x, s.subject, base, cs, st.env, w.dead, m);
    var n2, m2' := RunChecks(x1, s.cases, gs.r, |w.loops|, 0, checksAt, gs.cs, v, vis, w.fins, st.env, w.dead, m1);
    Chain(x.ops, x.p, m, n1, m1, n2, m2');
    KeepsUp(cs, gs.r, gs.cs, m.regs, m1.regs, m2'.regs);
    n, m2 := n1 + n2, m2';
    if MatchIndex(x.ops, st.env, v, s.cases).None? {
      DefaultChosen(s.cases, gb.starts, base + |g.code|);
      ThenStep(x.ops, x.p, m, n, m2');
      n, m2 := n + 1, Step(x.ops, x.p, m2');
    }
  }

  lemma KeepsUp(cs: CState, r: nat, cs1: CState, a: Regs, b: Regs, c: Regs)
    requires ExprPost(None, cs, r, cs1) && Keeps(cs, None, a, b) && Keeps(cs1, None, b, c)
    ensures Keeps(cs, None, a, c)
  {
  }

  lemma BridgeCase(cs: CState, r: nat, cs1: CState, cs2: CState, csk: CState, wr: set<string>, a: Regs, b: Regs)
    requires ExprPost(None, cs, r, cs1) && Neutral(cs1, cs2) && Neutral(cs2, csk) && Keeps(cs, None, a, b)
    ensures Bridge(cs, csk, wr, a, b) && Good(csk) && csk.locals == cs.locals
  {
    KeepsButSelf(cs, wr, a, b);
    BridgeOver(cs, csk, wr, a, b);
  }

  lemma {:induction false} SwitchSim(x: Ctx, w: World, fuel: nat, s: Stmt, vis: set<string>, base: nat, cs: CState,
      st: St, m: Machine)
    returns (n: nat, m2: Machine)
    requires |w.marks| == |w.loops| == |x.fixes| && |w.pending| == |w.pends|
    requires s.Switch? && StmtPre(x, w, s, vis, base, cs, st, m)
    ensures Run(x.ops, x.p, m, n) == m2
    ensures var g := GenStmt(s, base, cs, w.loops, w.pending);
            Ends(x, w, cs, g.cs, base + |g.code|, SizeStmt(s), fuel, Exec(x.ops, fuel, s, st), m.regs, n, m2)
    decreases SizeStmt(s) + SizePending(w.pending), 2, fuel
  {
    hide StmtPre, GenStmt, Fits, Ready, Ends, Exec, CasesOk, PlacedCases, CasesLits, CasesNames, AssignedCases, Good,
         Agrees, KeepsBut, Keeps,
         SizeStmt, SwitchParts, SwitchCtx, Chosen, EvalExpr, ExecBlock, WorldOk, NoShadow, Scope, ValueOk, ExprLits,
           ExprNames, BodyAt;
    SwitchSides(x, w, fuel, s, vis, base, cs, st, m);
    ReadyLengths(x, w, vis, |st.env| - 1, cs, st, m);
    ReadyWorld(x, w, vis, |st.env| - 1, cs, st, m);
    SwitchShape(x, s, base, cs, w.loops, w.pending);
    var g := GenStmt(s, base, cs, w.loops, w.pending);
    var k := Chosen(x.ops, st.env, EvalExpr(x.ops, st.env, s.subject), s.cases);
    var n1, m1 := SwitchReach(x, w, s, g, vis, base, cs, st, m);
    KeepsButSelf(cs, w.wr, m.regs, m1.regs);
    KeepAll(x.ops, w.dead, st.env, cs, m.regs, m1.regs);
    if k.None? {
      n, m2 := n1, m1;
      SwitchLocals(x, s, g, base, cs, w.loops, w.pending);
      EndsHere(x, w, cs, g.cs, base + |g.code|, SizeStmt(s), fuel, st, m.regs, n, m2);
    } else {
      var n2, m3 := CaseSim(x, w, fuel, s, k.value, vis, base, cs, st, m, m1);
      Chain(x.ops, x.p, m, n1, m1, n2, m3);
      var o := Exec(x.ops, fuel, s, st);
      BridgeOver(cs, cs, w.wr, m.regs, m1.regs);
      EndsLater(x, w, |st.env| - 1, st.env, cs, cs, g.cs, base + |g.code|, SizeStmt(s), SizeStmt(s), fuel, o, m.regs,
                m1.regs, n1, n2, m3);
      n, m2 := n1 + n2, m3;
    }
  }

  lemma SwitchLocals(x: Ctx, s: Stmt, g: Gen, base: nat, cs: CState, loops: seq<Loop>, pending: seq<Stmts>)
    requires s.Switch? && SwitchParts(x, s, g, base, cs, loops, pending)
    ensures g.cs.locals == cs.locals
  {
  }

  // The chosen case, from its first instruction.
  lemma {:induction false} CaseSim(x: Ctx, w: World, fuel: nat, s: Stmt, k: nat, vis: set<string>, base: nat,
      cs: CState, st: St,
                                   m: Machine, m1: Machine) returns (n: nat, m2: Machine)
    requires |w.marks| == |w.loops| == |x.fixes| && |w.pending| == |w.pends|
    requires s.Switch? && StmtPre(x, w, s, vis, base, cs, st, m) && k < Count(s.cases)
    requires var g := GenStmt(s, base, cs, w.loops, w.pending);
             var x1 := SwitchCtx(x, s, g, base, cs, w.loops, w.pending);
             && |x1.fixes| == |x.fixes| + 1 && |x1.fixes[|w.loops|].starts| == Count(s.cases)
             && m.Running? && m1.Running? && m1 == m.(pc := x1.fixes[|w.loops|].starts[k], regs := m1.regs)
    requires Agrees(x.ops, w.dead, st.env, cs.locals, m1.regs)
    ensures Run(x.ops, x.p, m1, n) == m2
    ensures var g := GenStmt(s, base, cs, w.loops, w.pending);
            var o := ExecBlock(x.ops, fuel, BodyAt(s.cases, k), st);
            Ends(x, w, cs, g.cs, base + |g.code|, SizeStmt(s), fuel, if o.Brk? then Normal(o.st) else o, m1.regs, n, m2)
    decreases SizeStmt(s) + SizePending(w.pending), 1, fuel
  {
    hide StmtPre, GenStmt, GenBlock, Fits, Ready, Ends, Exec, CasesOk, PlacedCases, CasesLits, CasesNames,
         AssignedCases, Good, Agrees, KeepsBut,
         SizeStmt, Chosen, EvalExpr, ExecBlock, WorldOk, NoShadow, Scope, ValueOk, ExprLits, ExprNames, BodyAt, Bridge,
           BlockPre, SwitchCtx;
    SwitchSides(x, w, fuel, s, vis, base, cs, st, m);
    ReadyLengths(x, w, vis, |st.env| - 1, cs, st, m);
    ReadyWorld(x, w, vis, |st.env| - 1, cs, st, m);
    var g := GenStmt(s, base, cs, w.loops, w.pending);
    var after := base + |g.code|;
    var x1 := SwitchCtx(x, s, g, base, cs, w.loops, w.pending);
    var fx := x1.fixes[|w.loops|];
    var mk := Mark(|st.env|, |cs.locals|);
    var w1 := InLoop(w, true, mk);
    var body := BodyAt(s.cases, k);
    var csk := CaseStart(x, w, fuel, s, k, vis, base, cs, st, m, m1);
    CaseBody(s.cases, k, vis, w.fins, w.cont, w.ret);
    var gb := GenBlock(body, fx.starts[k], csk, w1.loops, w.pending);
    var end := fx.starts[k] + |gb.code|;
    var o := ExecBlock(x.ops, fuel, body, st);
    n, m2 := BlockSim(x1, w1, fuel, body, vis, fx.starts[k], csk, st, m1);
    if o.OutOfFuel? {
      EndsOutUse(x1, w1, csk, gb.cs, end, SizeStmts(body), fuel, m1.regs, n, m2);
      EndsOut(x, w, cs, g.cs, after, SizeStmt(s), fuel, m1.regs, n, m2);
    } else if o.Ret? || o.Cont? {
      BodyAway(x, w, csk, gb.cs, g.cs, end, after, SizeStmts(body), SizeStmt(s), fuel, fuel, true, fx, mk, o, m1.regs,
               n, m2);
      EndsLater(x, w, |st.env| - 1, st.env, cs, csk, g.cs, after, SizeStmt(s), SizeStmt(s), fuel, o, m1.regs, m1.regs,
                0, n, m2);
    } else {
      BlockKeys(x.ops, fuel, body, st);
      BodyHere(x, w, cs, csk, gb.cs, end, SizeStmts(body), fuel, true, fx, |st.env|, o, m1.regs, n, m2);
      BridgeUse(cs, csk, w.wr, m1.regs, m1.regs, m2.regs);
      if o.Normal? {
        ThenStep(x.ops, x.p, m1, n, m2);
        n, m2 := n + 1, Step(x.ops, x.p, m2);
      }
      EndsHere(x, w, cs, g.cs, after, SizeStmt(s), fuel, o.st, m1.regs, n, m2);
    }
  }

  // What stands at the start of case `k` and after its body.
  ghost predicate CaseParts(x: Ctx, w: World, s: Stmt, k: nat, after: nat, cs: CState, csk: CState, x1: Ctx)
    requires s.Switch? && k < Count(s.cases)
  {
    && |x1.fixes| == |x.fixes| + 1 && |w.loops| == |x.fixes|
    && k < |x1.fixes[|w.loops|].starts|
    && var start := x1.fixes[|w.loops|].starts[k];
       var gb := GenBlock(BodyAt(s.cases, k), start, csk, w.loops + [Loop(true, |w.pending|)], w.pending);
       && Fits(x1, gb.code, start, gb.cs.pool) && gb.cs.locals == cs.locals
       && start + |gb.code| < |x.p.code| && x.p.code[start + |gb.code|] == Jump(At(after))
  }

  lemma CaseStart(x: Ctx, w: World, fuel: nat, s: Stmt, k: nat, vis: set<string>, base: nat, cs: CState, st: St,
                  m: Machine, m1: Machine) returns (csk: CState)
    requires |w.marks| == |w.loops| == |x.fixes| && |w.pending| == |w.pends|
    requires s.Switch? && StmtPre(x, w, s, vis, base, cs, st, m) && k < Count(s.cases)
    requires var g := GenStmt(s, base, cs, w.loops, w.pending);
             var x1 := SwitchCtx(x, s, g, base, cs, w.loops, w.pending);
             && |x1.fixes| == |x.fixes| + 1 && |x1.fixes[|w.loops|].starts| == Count(s.cases)
             && m.Running? && m1.Running? && m1 == m.(pc := x1.fixes[|w.loops|].starts[k], regs := m1.regs)
    requires Agrees(x.ops, w.dead, st.env, cs.locals, m1.regs)
    ensures var g := GenStmt(s, base, cs, w.loops, w.pending);
            var x1 := SwitchCtx(x, s, g, base, cs, w.loops, w.pending);
            && x1 == InCtx(x, x1.fixes[|w.loops|]) && x1.fixes[|w.loops|].brk == base + |g.code|
            && csk.locals == cs.locals == g.cs.locals && Bridge(cs, csk, w.wr, m1.regs, m1.regs)
            && CaseParts(x, w, s, k, base + |g.code|, cs, csk, x1)
            && BlockPre(x1, InLoop(w, true, Mark(|st.env|, |cs.locals|)), BodyAt(s.cases, k), vis,
                        x1.fixes[|w.loops|].starts[k], csk, st, m1)
  {
    hide StmtPre, GenStmt, GenBlock, GenExpr, GenChecks, GenCases, Fits, Ready, Exec, CasesOk, PlacedCases, CasesLits,
         CasesNames, AssignedCases,
         Good, Agrees, KeepsBut, SizeStmt, Chosen, EvalExpr, WorldOk, NoShadow, Scope, ValueOk, ExprLits, ExprNames,
           BodyAt, Neutral,
         Bridge, Keeps, ExprPost, StmtsOk, PlacedIn, StmtsLits, StmtsNames, AssignedIn, DefaultStart;
    SwitchSides(x, w, fuel, s, vis, base, cs, st, m);
    ReadyLengths(x, w, vis, |st.env| - 1, cs, st, m);
    SwitchShape(x, s, base, cs, w.loops, w.pending);
    var g := GenStmt(s, base, cs, w.loops, w.pending);
    var gs := GenExpr(s.subject, None, base, cs);
    var gv := GenChecks(s.cases, gs.r, |w.loops|, 0, base + |gs.code|, gs.cs);
    var loops1 := w.loops + [Loop(true, |w.pending|)];
    var x1 := SwitchCtx(x, s, g, base, cs, w.loops, w.pending);
    var fx := x1.fixes[|w.loops|];
    NeutralLocals(gs.cs, gv.cs);
    csk := FindCase(x1, s.cases, k, base + |gs.code| + |gv.code| + 1, gv.cs, loops1, w.pending);
    KeepsRefl(cs, m1.regs);
    BridgeCase(cs, gs.r, gs.cs, gv.cs, csk, w.wr, m1.regs, m1.regs);
    BlockFacts(BodyAt(s.cases, k), fx.starts[k], csk, loops1, w.pending);
    NeutralLocals(csk, GenBlock(BodyAt(s.cases, k), fx.starts[k], csk, loops1, w.pending).cs);
    CaseBody(s.cases, k, vis, w.fins, w.cont, w.ret);
    StillReady(x, w, vis, |st.env| - 1, cs, csk, st, m, m1);
    Deeper(x, w, vis, |st.env| - 1, csk, st, m1);
    LoopReady(x, w, vis, csk, st, m1, true, fx);
  }

  // ---------- try ----------

  lemma TrySides(x: Ctx, w: World, fuel: nat, s: Stmt, vis: set<string>, base: nat, cs: CState, st: St, m: Machine)
    requires s.Try? && StmtPre(x, w, s, vis, base, cs, st, m)
    ensures st.env != [] && Ready(x, w, vis, |st.env| - 1, cs, st, m) && m.pc == base
    ensures var g := GenStmt(s, base, cs, w.loops, w.pending); Fits(x, g.code, base, g.cs.pool)
    ensures s.fin.None? ==> StmtsSide(x, w, s.body, vis)
    ensures s.fin.Some? ==>
              var f := s.fin.value;
              && StmtsSide(x, InTry(w, f, PendMark(Mark(|st.env|, |cs.locals|), fuel, vis)), s.body, vis)
              && StmtsOk(f, vis, []) && PlacedIn(f, false, false, false) && StmtsLits(f) <= x.lits
              && StmtsNames(f) !! w.dead && AssignedIn(f) <= w.wr
    ensures SizeStmts(s.body) + 2 + SizeFin(s.fin) <= SizeStmt(s)
    ensures var o := ExecBlock(x.ops, fuel, s.body, st);
            Exec(x.ops, fuel, s, st)
            == if o.OutOfFuel? || s.fin.None? then o
               else var o2 := ExecBlock(x.ops, fuel, s.fin.value, o.st); if o2.Normal? then WithState(o, o2.st) else o2
  {
    hide GenStmt, Fits, Ready, ExecBlock, StmtsOk, PlacedIn, StmtsLits, StmtsNames, AssignedIn, WithState;
  }

  // The statements of the body, in their own world.
  function TryWorld(w: World, s: Stmt, mk: Mark, fuel: nat, vis: set<string>): World
    requires s.Try?
  {
    if s.fin.Some? then InTry(w, s.fin.value, PendMark(mk, fuel, vis)) else w
  }

  lemma TryEnter(x: Ctx, w: World, fuel: nat, s: Stmt, vis: set<string>, base: nat, cs: CState, st: St, m: Machine,
      end: nat, csF: CState)
    returns (m1: Machine)
    requires |w.marks| == |w.loops| == |x.fixes| && |w.pending| == |w.pends|
    requires s.Try? && StmtPre(x, w, s, vis, base, cs, st, m)
    requires TryParts(x, s, GenStmt(s, base, cs, w.loops, w.pending), base, cs, w.loops, w.pending, end, csF)
    ensures m.Running? && m1.Running? && Run(x.ops, x.p, m, 1) == m1 && m1.regs == m.regs
    ensures var w1 := TryWorld(w, s, Mark(|st.env|, |cs.locals|), fuel, vis);
            && |w1.marks| == |w1.loops| == |x.fixes| && |w1.pending| == |w1.pends|
            && w1.loops == w.loops && w1.pending == WithFin(w.pending, s.fin) && w1.dead == w.dead && w1.wr == w.wr
            && BlockPre(x, w1, s.body, vis, base + 1, cs, st, m1)
  {
    hide GenStmt, GenBlock, Fits, StmtsOk, PlacedIn, StmtsLits, StmtsNames, AssignedIn, Good, Agrees, WorldOk,
         NoShadow, Scope, StmtPre, Neutral, Exec;
    TrySides(x, w, fuel, s, vis, base, cs, st, m);
    OneStep(x.ops, x.p, m);
    m1 := Step(x.ops, x.p, m);
    StillReady(x, w, vis, |st.env| - 1, cs, cs, st, m, m1);
    Deeper(x, w, vis, |st.env| - 1, cs, st, m1);
    if s.fin.Some? {
      TryReady(x, w, vis, cs, st, m1, s.fin.value, fuel);
    }
  }

  // The body ended normally: the handler is popped and the code for exceptions skipped.
  lemma TryLeave(x: Ctx, m: Machine, n: nat, m1: Machine, out: nat, end: nat) returns (m2: Machine)
    requires Run(x.ops, x.p, m, n) == m1 && m1.Running? && m1.pc == out
    requires out + 1 < |x.p.code| && x.p.code[out] == TryPop && x.p.code[out + 1] == Jump(At(end))
    ensures Run(x.ops, x.p, m, n + 2) == m2 && m2.Running? && m2 == m1.(pc := end, tries := m2.tries)
  {
    ThenStep(x.ops, x.p, m, n, m1);
    ThenStep(x.ops, x.p, m, n + 1, Step(x.ops, x.p, m1));
    m2 := Step(x.ops, x.p, Step(x.ops, x.p, m1));
  }

  // The copy of the `finally` block for the normal path: no transfer leaves it.
  function Sealed(w: World): World {
    w.(fins := [], brk := false, cont := false, ret := false)
  }

  lemma {:induction false} FinallySim(x: Ctx, w: World, fuel: nat, f: Stmts, vis: set<string>, end: nat, cs: CState,
      st: St, m: Machine)
    returns (n: nat, m2: Machine)
    requires |w.marks| == |w.loops| == |x.fixes| && |w.pending| == |w.pends|
    requires Ready(x, w, vis, |st.env|, cs, st, m) && m.Running? && m.pc == end
    requires var g := GenBlock(f, end, cs, w.loops, w.pending); Fits(x, g.code, end, g.cs.pool)
    requires StmtsOk(f, vis, []) && PlacedIn(f, false, false, false) && StmtsLits(f) <= x.lits
    requires StmtsNames(f) !! w.dead && AssignedIn(f) <= w.wr
    ensures Run(x.ops, x.p, m, n) == m2
    ensures var g := GenBlock(f, end, cs, w.loops, w.pending);
            var o := ExecBlock(x.ops, fuel, f, st);
            && (o.Normal? || o.OutOfFuel?)
            && Ends(x, w, cs, g.cs, end + |g.code|, SizeStmts(f), fuel, o, m.regs, n, m2)
    decreases SizeStmts(f) + SizePending(w.pending), 2, fuel
  {
    hide GenBlock, Fits, StmtsOk, PlacedIn, StmtsLits, StmtsNames, AssignedIn, Good, Agrees, NoShadow, Scope, KeepsBut,
         ExecBlock, Lands, Unwind, ExitOk;
    n, m2 := BlockSim(x, Sealed(w), fuel, f, vis, end, cs, st, m);
  }

  lemma {:induction false} TrySim(x: Ctx, w: World, fuel: nat, s: Stmt, vis: set<string>, base: nat, cs: CState,
      st: St, m: Machine)
    returns (n: nat, m2: Machine)
    requires |w.marks| == |w.loops| == |x.fixes| && |w.pending| == |w.pends|
    requires s.Try? && StmtPre(x, w, s, vis, base, cs, st, m)
    ensures Run(x.ops, x.p, m, n) == m2
    ensures var g := GenStmt(s, base, cs, w.loops, w.pending);
            Ends(x, w, cs, g.cs, base + |g.code|, SizeStmt(s), fuel, Exec(x.ops, fuel, s, st), m.regs, n, m2)
    decreases SizeStmt(s) + SizePending(w.pending), 2, fuel
  {
    hide StmtPre, GenStmt, GenBlock, Fits, Ready, Ends, Exec, StmtsOk, PlacedIn, StmtsLits, StmtsNames, AssignedIn,
         Good, Agrees, KeepsBut,
         SizeStmt, ExecBlock, NoShadow, Scope, BlockPre, StmtsSide, TryWorld, WithFin, WithState, Neutral, WorldOk,
           Step, SizePending, StmtPost, GenExpr;
    TrySides(x, w, fuel, s, vis, base, cs, st, m);
    ReadyLengths(x, w, vis, |st.env| - 1, cs, st, m);
    ReadyWorld(x, w, vis, |st.env| - 1, cs, st, m);
    var end, csF := TryShape(x, s, base, cs, w.loops, w.pending);
    var g := GenStmt(s, base, cs, w.loops, w.pending);
    var pend := WithFin(w.pending, s.fin);
    var gb := GenBlock(s.body, base + 1, cs, w.loops, pend);
    var out := base + 1 + |gb.code|;
    var w1 := TryWorld(w, s, Mark(|st.env|, |cs.locals|), fuel, vis);
    var m1 := TryEnter(x, w, fuel, s, vis, base, cs, st, m, end, csF);
    var n2, m3 := BlockSim(x, w1, fuel, s.body, vis, base + 1, cs, st, m1);
    Chain(x.ops, x.p, m, 1, m1, n2, m3);
    var o := ExecBlock(x.ops, fuel, s.body, st);
    n, m2 := 1 + n2, m3;
    if o.OutOfFuel? {
      EndsOutUse(x, w1, cs, gb.cs, out, SizeStmts(s.body), fuel, m1.regs, n2, m3);
      EndsOut(x, w, cs, g.cs, base + |g.code|, SizeStmt(s), fuel, m.regs, n, m2);
    } else if o.Normal? {
      EndsNormal(x, w1, cs, gb.cs, out, SizeStmts(s.body), fuel, o.st, m1.regs, n2, m3);
      NeutralLocals(cs, gb.cs);
      var m4 := TryLeave(x, m, n, m3, out, end);
      var n5, m5 := AfterBody(x, w, fuel, s, vis, base, cs, st, m, o.st, m4, end, csF);
      Chain(x.ops, x.p, m, n + 2, m4, n5, m5);
      EndsMore(x, w, cs, g.cs, base + |g.code|, SizeStmt(s), fuel, Exec(x.ops, fuel, s, st), m.regs, n + 2, n5, m5);
      n, m2 := n + 2 + n5, m5;
    } else {
      TryTransfer(x, w, fuel, s, vis, base, cs, st, m, o, n2, m3);
      EndsMore(x, w, cs, g.cs, base + |g.code|, SizeStmt(s), fuel, Exec(x.ops, fuel, s, st), m.regs, 1, n2, m3);
    }
  }

  lemma EndsMore(x: Ctx, w: World, cs: CState, cs1: CState, end: nat, size: nat, fuel: nat, o: Outcome, a: Regs,
      n1: nat, n2: nat, m2: Machine)
    requires |w.marks| == |w.loops| == |x.fixes| && |w.pending| == |w.pends|
    requires Ends(x, w, cs, cs1, end, size, fuel, o, a, n2, m2)
    ensures Ends(x, w, cs, cs1, end, size, fuel, o, a, n1 + n2, m2)
  {
    hide Unwind, Agrees, KeepsBut;
  }

  // The body of a `try` ended by a transfer.
  lemma TryTransfer(x: Ctx, w: World, fuel: nat, s: Stmt, vis: set<string>, base: nat, cs: CState, st: St, m: Machine,
                    o: Outcome, n: nat, m2: Machine)
    requires |w.marks| == |w.loops| == |x.fixes| && |w.pending| == |w.pends|
    requires s.Try? && StmtPre(x, w, s, vis, base, cs, st, m) && m.Running?
    requires o == ExecBlock(x.ops, fuel, s.body, st) && (o.Brk? || o.Cont? || o.Ret?)
    requires var w1 := TryWorld(w, s, Mark(|st.env|, |cs.locals|), fuel, vis);
             var gb := GenBlock(s.body, base + 1, cs, w.loops, WithFin(w.pending, s.fin));
             && |w1.marks| == |w1.loops| == |x.fixes| && |w1.pending| == |w1.pends|
             && Ends(x, w1, cs, gb.cs, base + 1 + |gb.code|, SizeStmts(s.body), fuel, o, m.regs, n, m2)
    ensures var g := GenStmt(s, base, cs, w.loops, w.pending);
            Ends(x, w, cs, g.cs, base + |g.code|, SizeStmt(s), fuel, Exec(x.ops, fuel, s, st), m.regs, n, m2)
  {
    hide StmtPre, GenStmt, GenBlock, Fits, Ready, Ends, Exec, StmtsOk, PlacedIn, StmtsLits, StmtsNames, AssignedIn,
         Good, Agrees, KeepsBut,
         SizeStmt, ExecBlock, NoShadow, Scope, StmtsSide, WithFin, WithState;
    TrySides(x, w, fuel, s, vis, base, cs, st, m);
    ReadyLengths(x, w, vis, |st.env| - 1, cs, st, m);
    var g := GenStmt(s, base, cs, w.loops, w.pending);
    var end := base + |g.code|;
    var gb := GenBlock(s.body, base + 1, cs, w.loops, WithFin(w.pending, s.fin));
    var out := base + 1 + |gb.code|;
    if s.fin.None? {
      EndsWiden(x, w, cs, gb.cs, g.cs, out, end, SizeStmts(s.body), SizeStmt(s), fuel, o, m.regs, n, m2);
    } else {
      var f := s.fin.value;
      var pm := PendMark(Mark(|st.env|, |cs.locals|), fuel, vis);
      BlockKeys(x.ops, fuel, s.body, st);
      Floors(x, w, vis, |st.env| - 1, cs, st, m);
      TryAway(x, w, cs, gb.cs, g.cs, out, end, SizeStmts(s.body), SizeStmt(s), fuel, f, pm, o, m.regs, n, m2);
      BlockPossible(x.ops, fuel, f, o.st, false, false, false);
    }
  }

  lemma Floors(x: Ctx, w: World, vis: set<string>, depth: nat, cs: CState, st: St, m: Machine)
    requires Ready(x, w, vis, depth, cs, st, m)
    ensures w.brk ==> |w.loops| > 0 && w.loops[|w.loops| - 1].floor <= |w.pending|
    ensures w.cont ==> ContinueLevel(w.loops).Some? && ContinueLevel(w.loops).value < |w.loops|
    ensures w.cont ==> w.loops[ContinueLevel(w.loops).value].floor <= |w.pending|
  {
  }

  // The normal end of a `try`: the `finally` block, if any, in the place behind the code for
  // exceptions.
  lemma {:induction false} AfterBody(x: Ctx, w: World, fuel: nat, s: Stmt, vis: set<string>, base: nat, cs: CState,
      st: St, m: Machine,
                                     st1: St, m4: Machine, end: nat, csF: CState) returns (n: nat, m2: Machine)
    requires |w.marks| == |w.loops| == |x.fixes| && |w.pending| == |w.pends|
    requires s.Try? && StmtPre(x, w, s, vis, base, cs, st, m)
    requires TryParts(x, s, GenStmt(s, base, cs, w.loops, w.pending), base, cs, w.loops, w.pending, end, csF)
    requires ExecBlock(x.ops, fuel, s.body, st) == Normal(st1)
    requires m.Running? && Stands(m4, end) && m4.out == st1.out
    requires Agrees(x.ops, w.dead, st1.env, cs.locals, m4.regs) && KeepsBut(cs, w.wr, m.regs, m4.regs)
    ensures Run(x.ops, x.p, m4, n) == m2
    ensures var g := GenStmt(s, base, cs, w.loops, w.pending);
            Ends(x, w, cs, g.cs, base + |g.code|, SizeStmt(s), fuel, Exec(x.ops, fuel, s, st), m.regs, n, m2)
    decreases SizeStmt(s) + SizePending(w.pending), 1, fuel
  {
    hide StmtPre, GenStmt, GenBlock, Fits, Ends, Exec, StmtsOk, PlacedIn, StmtsLits, StmtsNames, AssignedIn, Good,
         Agrees, KeepsBut,
         SizeStmt, ExecBlock, NoShadow, Scope, StmtsSide, WithFin, Neutral, Bridge, WorldOk, SameKeys;
    TrySides(x, w, fuel, s, vis, base, cs, st, m);
    ReadyWorld(x, w, vis, |st.env| - 1, cs, st, m);
    BlockKeys(x.ops, fuel, s.body, st);
    NeutralLocals(cs, csF);
    SameKeysScope(st.env, st1.env, vis);
    ExtendsSame(w, |st.env| - 1, st.env, st1.env, cs.locals);
    WorldExtends(x, w, |st.env| - 1, st.env, cs.locals, st1.env, cs.locals);
    var g := GenStmt(s, base, cs, w.loops, w.pending);
    if s.fin.None? {
      n, m2 := 0, m4;
      EndsHere(x, w, cs, g.cs, base + |g.code|, SizeStmt(s), fuel, st1, m.regs, 0, m4);
    } else {
      assert Ready(x, w, vis, |st.env| - 1, csF, st1, m4);
      Deeper(x, w, vis, |st.env| - 1, csF, st1, m4);
      n, m2 := FinallySim(x, w, fuel, s.fin.value, vis, end, csF, st1, m4);
      BridgeNeutral(cs, csF, w.wr, m.regs, m4.regs);
      EndsLater(x, w, |st.env| - 1, st1.env, cs, csF, g.cs, base + |g.code|, SizeStmts(s.fin.value), SizeStmt(s), fuel,
                ExecBlock(x.ops, fuel, s.fin.value, st1), m.regs, m4.regs, 0, n, m2);
    }
  }
}
