/** Leaving a scope early: the `finally` blocks between a statement and its target. */
module Unwinding {
  import opened Options
  import opened Values
  import opened Syntax
  import opened Interpreter
  import opened Bytecode
  import opened CodeGen
  import opened RegisterDiscipline
  import opened ScopeDiscipline
  import opened Discipline
  import opened EnvFacts
  import opened Simulation

  // A point outside the statement at hand: `d` interpreter frames and `k` compiler locals
  // are still in scope there.
  datatype Mark = Mark(d: nat, k: nat)

  // The `try` a pending block belongs to, the fuel it was entered with and the names in
  // scope there.
  datatype PendMark = PendMark(at: Mark, fuel: nat, vis: set<string>)

  // Where a statement stands: the loop stack and pending `finally` blocks of the compiler,
  // with their marks; the blocks a new local must not collide with; the names of locals the
  // interpreter has already left; the names that may be assigned; and which transfers out
  // of the statement are possible.
  datatype World = World(
    loops: seq<Loop>, marks: seq<Mark>,
    pending: seq<Stmts>, pends: seq<PendMark>,
    fins: seq<Stmts>, dead: set<string>, wr: set<string>,
    brk: bool, cont: bool, ret: bool)

  // Either all blocks ran, or block `i` ran out of fuel.
  datatype Unwound = UOk(st: St) | UOut(i: nat)

  // The interpreter's unwinding from `st` down to `floor` and a target with `d` frames: the
  // blocks in turn, innermost first, each in the frames of its own `try`.
  function Unwind(ops: Ops, pending: seq<Stmts>, pends: seq<PendMark>, floor: nat, d: nat, st: St): Unwound
    requires |pends| == |pending|
    decreases |pending|
  {
    var n := |pending|;
    if n <= floor then UOk(Cut(st, d))
    else
      var o := ExecBlock(ops, pends[n - 1].fuel, pending[n - 1], Cut(st, pends[n - 1].at.d));
      if o.Normal? then Unwind(ops, pending[..n - 1], pends[..n - 1], floor, d, o.st) else UOut(n - 1)
  }

  // Frames the first target drops anyway make no difference.
  lemma UnwindCut(ops: Ops, pending: seq<Stmts>, pends: seq<PendMark>, floor: nat, d: nat, st: St, depth: nat)
    requires |pends| == |pending| && d <= depth
    requires forall i :: floor <= i < |pends| ==> pends[i].at.d <= depth
    ensures Unwind(ops, pending, pends, floor, d, Cut(st, depth)) == Unwind(ops, pending, pends, floor, d, st)
  {
    if depth <= |st.env| {
      assert st.env[..depth][..d] == st.env[..d];
      if |pends| > floor {
        var d1 := pends[|pends| - 1].at.d;
        assert st.env[..depth][..d1] == st.env[..d1];
      }
    }
  }

  lemma {:induction false} UnwindIndex(ops: Ops, pending: seq<Stmts>, pends: seq<PendMark>, floor: nat, d: nat, st: St)
    requires |pends| == |pending|
    ensures var u := Unwind(ops, pending, pends, floor, d, st); u.UOut? ==> floor <= u.i < |pending|
    decreases |pending|
  {
    var n := |pending|;
    if n > floor {
      var o := ExecBlock(ops, pends[n - 1].fuel, pending[n - 1], Cut(st, pends[n - 1].at.d));
      if o.Normal? {
        UnwindIndex(ops, pending[..n - 1], pends[..n - 1], floor, d, o.st);
      }
    }
  }

  // One more block, entered from a state with exactly the frames of its `try`.
  lemma UnwindPush(ops: Ops, pending: seq<Stmts>, pends: seq<PendMark>, f: Stmts, pm: PendMark, floor: nat, d: nat,
      st: St)
    requires |pends| == |pending| && floor <= |pending|
    ensures var o := ExecBlock(ops, pm.fuel, f, Cut(st, pm.at.d));
            Unwind(ops, pending + [f], pends + [pm], floor, d, st)
            == if o.Normal? then Unwind(ops, pending, pends, floor, d, o.st) else UOut(|pending|)
  {
    assert (pending + [f])[..|pending|] == pending;
    assert (pends + [pm])[..|pends|] == pends;
  }

  // ---------- how a statement can end ----------

  predicate Possible(o: Outcome, brk: bool, cont: bool, ret: bool) {
    && (o.Brk? ==> brk) && (o.Cont? ==> cont) && (o.Ret? ==> ret)
  }

  lemma {:induction false} ExecPossible(ops: Ops, fuel: nat, s: Stmt, st: St, brk: bool, cont: bool, ret: bool)
    requires Placed(s, brk, cont, ret)
    ensures Possible(Exec(ops, fuel, s, st), brk, cont, ret)
    decreases fuel, s, 2
  {
    match s
    case Block(body) => BlockPossible(ops, fuel, body, st, brk, cont, ret);
    case If(c, thn, els) =>
      BlockPossible(ops, fuel, thn, st, brk, cont, ret);
      if els.Some? {
        BlockPossible(ops, fuel, els.value, st, brk, cont, ret);
      }
    case While(c, body) => LoopPossible(ops, fuel, Some(c), None, body, st, ret);
    case For(init, test, post, body) =>
      var scoped := st.(env := st.env + [map[]]);
      if init.Some? {
        ExecPossible(ops, fuel, init.value, scoped, brk, cont, ret);
      }
      var o0 := match init case Some(i) => Exec(ops, fuel, i, scoped) case None => Normal(scoped);
      if o0.Normal? {
        LoopPossible(ops, fuel, test, post, body, o0.st, ret);
      }
    case Switch(subject, cases) =>
      var v := EvalExpr(ops, st.env, subject);
      var sel := Select(ops, st.env, v, cases, None);
      if sel.Some? {
        SelectSmaller(ops, st.env, v, cases, None);
        SelectPlaced(ops, st.env, v, cases, None, cont, ret);
        BlockPossible(ops, fuel, sel.value, st, true, cont, ret);
      }
    case Try(body, _, fin) =>
      BlockPossible(ops, fuel, body, st, brk, cont, ret);
      var o := ExecBlock(ops, fuel, body, st);
      if !o.OutOfFuel? && fin.Some? {
        BlockPossible(ops, fuel, fin.value, o.st, false, false, false);
      }
    case _ =>
  }

  lemma {:induction false} SelectPlaced(ops: Ops, env: Env, subject: Value, cases: Cases, dflt: Option<Stmts>,
      cont: bool, ret: bool)
    requires PlacedCases(cases, cont, ret) && (dflt.Some? ==> PlacedIn(dflt.value, true, cont, ret))
    ensures var sel := Select(ops, env, subject, cases, dflt);
            sel.Some? ==> PlacedIn(sel.value, true, cont, ret)
    decreases cases
  {
    if cases.Case? {
      SelectPlaced(ops, env, subject, cases.rest, dflt, cont, ret);
      SelectPlaced(ops, env, subject, cases.rest, Some(cases.body), cont, ret);
    }
  }

  lemma {:induction false} BlockPossible(ops: Ops, fuel: nat, ss: Stmts, st: St, brk: bool, cont: bool, ret: bool)
    requires PlacedIn(ss, brk, cont, ret)
    ensures Possible(ExecBlock(ops, fuel, ss, st), brk, cont, ret)
    decreases fuel, ss, 1
  {
    StmtsPossible(ops, fuel, ss, st.(env := st.env + [map[]]), brk, cont, ret);
  }

  lemma {:induction false} StmtsPossible(ops: Ops, fuel: nat, ss: Stmts, st: St, brk: bool, cont: bool, ret: bool)
    requires PlacedIn(ss, brk, cont, ret)
    ensures Possible(ExecStmts(ops, fuel, ss, st), brk, cont, ret)
    decreases fuel, ss, 0
  {
    if ss.Cons? {
      ExecPossible(ops, fuel, ss.head, st, brk, cont, ret);
      var o := Exec(ops, fuel, ss.head, st);
      if o.Normal? {
        StmtsPossible(ops, fuel, ss.tail, o.st, brk, cont, ret);
      }
    }
  }

  lemma {:induction false} LoopPossible(ops: Ops, fuel: nat, test: Option<Expr>, post: Option<Effect>, body: Stmts,
      st: St, ret: bool)
    requires PlacedIn(body, true, true, ret)
    ensures Possible(ExecLoop(ops, fuel, test, post, body, st), false, false, ret)
    decreases fuel, body, 2
  {
    if (test.Some? ==> Truthy(EvalExpr(ops, st.env, test.value))) && fuel > 0 {
      BlockPossible(ops, fuel - 1, body, st, true, true, ret);
      var o := ExecBlock(ops, fuel - 1, body, st);
      if o.Normal? || o.Cont? {
        LoopPossible(ops, fuel - 1, test, post, body, if post.Some? then ExecEffect(ops, post.value, o.st)
                     else o.st, ret);
      }
    }
  }

  // ---------- marks ----------

  // The locals from position `k` on.
  ghost function Later(locals: seq<Local>, k: nat): set<string> {
    set i: nat | k <= i < |locals| :: locals[i].name
  }

  // Outside `dead`, the frames and the locals still in scope at the mark hold the same
  // names, and no later local has one of them.
  ghost predicate MarkOk(mk: Mark, dead: set<string>, depth: nat, env: Env, locals: seq<Local>) {
    && mk.d <= depth <= |env| && mk.k <= |locals|
    && (forall y :: y !in dead ==> (Visible(env[..mk.d], y) <==> Slot(locals[..mk.k], y).Some?))
    && (forall y :: y in Later(locals, mk.k) ==> Slot(locals[..mk.k], y).None?)
  }

  // A pending block can run where it is inlined: it transfers no control out and mentions
  // no local declared after its `try`.
  ghost predicate PendOk(lits: set<Value>, w: World, i: nat, depth: nat, env: Env, locals: seq<Local>)
    requires i < |w.pending| == |w.pends|
  {
    var f := w.pending[i];
    var pm := w.pends[i];
    && MarkOk(pm.at, w.dead, depth, env, locals)
    && pm.at.d > 0
    && PlacedIn(f, false, false, false)
    && StmtsOk(f, pm.vis, []) && Scope(env[..pm.at.d], pm.vis)
    && StmtsLits(f) <= lits
    && StmtsNames(f) !! w.dead && StmtsNames(f) !! Later(locals, pm.at.k)
    && AssignedIn(f) <= w.wr
    && f in w.fins
  }

  ghost predicate PendsOk(lits: set<Value>, w: World, floor: nat, depth: nat, env: Env, locals: seq<Local>) {
    && floor <= |w.pending| == |w.pends|
    && (forall i :: floor <= i < |w.pending| ==> PendOk(lits, w, i, depth, env, locals))
    && (forall i, j :: floor <= i < j < |w.pending| ==>
          w.pends[i].at.d <= w.pends[j].at.d && w.pends[i].at.k <= w.pends[j].at.k)
  }

  // Control can leave for `mk` through the blocks above `floor`.
  ghost predicate ExitOk(lits: set<Value>, w: World, floor: nat, mk: Mark, depth: nat, env: Env, locals: seq<Local>) {
    && PendsOk(lits, w, floor, depth, env, locals)
    && MarkOk(mk, w.dead, depth, env, locals)
    && (forall i :: floor <= i < |w.pending| ==> mk.d <= w.pends[i].at.d && mk.k <= w.pends[i].at.k)
  }

  ghost predicate WorldOk(x: Ctx, w: World, depth: nat, env: Env, locals: seq<Local>) {
    && |w.marks| == |w.loops| == |x.fixes|
    && |w.pending| == |w.pends|
    && (w.ret ==> ExitOk(x.lits, w, 0, Mark(0, 0), depth, env, locals))
    && (w.brk ==> |w.loops| > 0
                  && ExitOk(x.lits, w, w.loops[|w.loops| - 1].floor, w.marks[|w.loops| - 1], depth, env, locals))
    && (w.cont ==> ContinueLevel(w.loops).Some? && ContinueLevel(w.loops).value < |w.loops|
                   && var l := ContinueLevel(w.loops).value;
                      ExitOk(x.lits, w, w.loops[l].floor, w.marks[l], depth, env, locals))
  }

  // ---------- marks stay right ----------

  // The first `depth` frames keep their names, the locals only grow by names that are new.
  ghost predicate Extends(w: World, depth: nat, env: Env, locals: seq<Local>, env1: Env, locals1: seq<Local>) {
    && depth <= |env| && depth <= |env1|
    && (forall i :: 0 <= i < depth ==> env1[i].Keys == env[i].Keys)
    && locals <= locals1
    && (forall y :: y in Later(locals1, |locals|) ==> Slot(locals, y).None? && NotIn(y, w.fins))
  }

  lemma SameVisible(depth: nat, env: Env, env1: Env, d: nat, y: string)
    requires d <= depth <= |env| && depth <= |env1|
    requires forall i :: 0 <= i < depth ==> env1[i].Keys == env[i].Keys
    ensures Visible(env1[..d], y) <==> Visible(env[..d], y)
  {
    if Visible(env[..d], y) {
      var i :| 0 <= i < d && y in env[..d][i];
      assert env1[i].Keys == env[i].Keys;
      assert y in env1[..d][i];
    }
    if Visible(env1[..d], y) {
      var i :| 0 <= i < d && y in env1[..d][i];
      assert env1[i].Keys == env[i].Keys;
      assert y in env[..d][i];
    }
  }

  lemma MarkExtends(mk: Mark, w: World, depth: nat, env: Env, locals: seq<Local>, env1: Env, locals1: seq<Local>)
    requires MarkOk(mk, w.dead, depth, env, locals) && Extends(w, depth, env, locals, env1, locals1)
    ensures MarkOk(mk, w.dead, depth, env1, locals1)
    ensures forall y :: y in Later(locals1, mk.k) ==> y in Later(locals, mk.k) || y in Later(locals1, |locals|)
  {
    assert locals1[..mk.k] == locals[..mk.k];
    forall y | y !in w.dead
      ensures Visible(env1[..mk.d], y) <==> Slot(locals1[..mk.k], y).Some?
    {
      SameVisible(depth, env, env1, mk.d, y);
    }
    forall y | y in Later(locals1, mk.k)
      ensures y in Later(locals, mk.k) || y in Later(locals1, |locals|)
      ensures Slot(locals1[..mk.k], y).None?
    {
      var i: nat :| mk.k <= i < |locals1| && locals1[i].name == y;
      if i >= |locals| {
        assert y in Later(locals1, |locals|);
        SlotNone(locals, y);
        SlotNone(locals[..mk.k], y);
        assert forall j :: 0 <= j < mk.k ==> locals[..mk.k][j] == locals[j];
      } else {
        assert locals[i].name == y;
        assert y in Later(locals, mk.k);
      }
    }
  }

  lemma PendExtends(lits: set<Value>, w: World, i: nat, depth: nat, env: Env, locals: seq<Local>, env1: Env,
      locals1: seq<Local>)
    requires i < |w.pending| == |w.pends|
    requires PendOk(lits, w, i, depth, env, locals) && Extends(w, depth, env, locals, env1, locals1)
    ensures PendOk(lits, w, i, depth, env1, locals1)
  {
    var pm := w.pends[i];
    MarkExtends(pm.at, w, depth, env, locals, env1, locals1);
    forall y
      ensures Visible(env1[..pm.at.d], y) <==> Visible(env[..pm.at.d], y)
    {
      SameVisible(depth, env, env1, pm.at.d, y);
    }
    forall y | y in Later(locals1, pm.at.k)
      ensures y !in StmtsNames(w.pending[i])
    {
    }
  }

  lemma ExitExtends(lits: set<Value>, w: World, floor: nat, mk: Mark, depth: nat,
                    env: Env, locals: seq<Local>, env1: Env, locals1: seq<Local>)
    requires ExitOk(lits, w, floor, mk, depth, env, locals) && Extends(w, depth, env, locals, env1, locals1)
    ensures ExitOk(lits, w, floor, mk, depth, env1, locals1)
  {
    hide MarkOk, PendOk, Extends;
    MarkExtends(mk, w, depth, env, locals, env1, locals1);
    forall i | floor <= i < |w.pending|
      ensures PendOk(lits, w, i, depth, env1, locals1)
    {
      PendExtends(lits, w, i, depth, env, locals, env1, locals1);
    }
  }

  lemma WorldExtends(x: Ctx, w: World, depth: nat, env: Env, locals: seq<Local>, env1: Env, locals1: seq<Local>)
    requires WorldOk(x, w, depth, env, locals) && Extends(w, depth, env, locals, env1, locals1)
    ensures WorldOk(x, w, depth, env1, locals1)
  {
    hide ExitOk, Extends;
    if w.ret {
      ExitExtends(x.lits, w, 0, Mark(0, 0), depth, env, locals, env1, locals1);
    }
    if w.brk {
      ExitExtends(x.lits, w, w.loops[|w.loops| - 1].floor, w.marks[|w.loops| - 1], depth, env, locals, env1, locals1);
    }
    if w.cont {
      var l := ContinueLevel(w.loops).value;
      ExitExtends(x.lits, w, w.loops[l].floor, w.marks[l], depth, env, locals, env1, locals1);
    }
  }

  // ---------- cutting back to a mark ----------

  lemma {:induction false} SlotSplit(locals: seq<Local>, k: nat, y: string)
    requires k <= |locals| && y !in Later(locals, k)
    ensures Slot(locals, y) == Slot(locals[..k], y)
    decreases |locals|
  {
    if k < |locals| {
      assert locals[|locals| - 1].name in Later(locals, k);
      assert locals[..|locals| - 1][..k] == locals[..k];
      assert forall z :: z in Later(locals[..|locals| - 1], k) ==> z in Later(locals, k);
      SlotSplit(locals[..|locals| - 1], k, y);
    } else {
      assert locals[..k] == locals;
    }
  }

  // What holds outside `hid`, names declared after the mark, holds at the mark outside the
  // names declared after it, and for the locals of the mark outside `dead`.
  lemma CutAgrees(ops: Ops, mk: Mark, dead: set<string>, hid: set<string>, depth: nat, st: St, locals: seq<Local>,
      regs: Regs)
    requires NoShadow(st.env) && MarkOk(mk, dead, depth, st.env, locals)
    requires hid <= dead + Later(locals, mk.k)
    requires Agrees(ops, hid, st.env, locals, regs)
    ensures var env1 := Cut(st, mk.d).env;
            && NoShadow(env1) && |env1| == mk.d
            && Agrees(ops, dead + Later(locals, mk.k), env1, locals, regs)
            && Agrees(ops, dead, env1, locals[..mk.k], regs)
  {
    var env1 := st.env[..mk.d];
    CutFrames(ops, st.env, mk.d);
    forall y | y !in dead
      ensures Visible(env1, y) <==> Slot(locals[..mk.k], y).Some?
      ensures y !in Later(locals, mk.k) ==> Slot(locals, y) == Slot(locals[..mk.k], y)
      ensures Slot(locals[..mk.k], y).Some? ==> Reg(regs, Slot(locals[..mk.k], y).value) == Lookup(ops, env1, y)
    {
      if y !in Later(locals, mk.k) {
        SlotSplit(locals, mk.k, y);
      }
    }
  }
}
