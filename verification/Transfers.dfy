/** What running the code of a statement achieves, for each way the statement can end. */
module Transfers {
  import opened Options
  import opened Values
  import opened Syntax
  import opened Interpreter
  import opened Bytecode
  import opened CodeGen
  import opened RegisterDiscipline
  import opened ScopeDiscipline
  import opened GenFacts
  import opened Discipline
  import opened EnvFacts
  import opened Simulation
  import opened Unwinding
  import opened LeafProof
  import opened EffectProof

  // The interpreter ran out of fuel: the machine is still running after at least that many
  // steps, up to the size of the code.
  ghost predicate Out(m2: Machine, n: nat, size: nat, fuel: nat) {
    m2.Running? && n + size >= fuel
  }

  // Control left for `target`: the pending blocks have run in turn, the machine stands
  // there, and agrees on what is in scope there.
  ghost predicate Lands(x: Ctx, w: World, cs: CState, floor: nat, mk: Mark, target: nat, st: St, a: Regs, n: nat,
      m2: Machine)
    requires |w.pending| == |w.pends|
  {
    match Unwind(x.ops, w.pending, w.pends, floor, mk.d, st)
    case UOk(st3) =>
      && Stands(m2, target) && m2.out == st3.out && mk.k <= |cs.locals|
      && Agrees(x.ops, w.dead, st3.env, cs.locals[..mk.k], m2.regs) && KeepsBut(cs, w.wr, a, m2.regs)
    case UOut(i) => i < |w.pending| && Out(m2, n, SizeStmts(w.pending[i]), w.pends[i].fuel)
  }

  // Every way a statement ends. `a` are the registers it started with, `n` the steps made.
  ghost predicate Ends(x: Ctx, w: World, cs: CState, cs1: CState, end: nat, size: nat, fuel: nat, o: Outcome, a: Regs,
      n: nat, m2: Machine)
    requires |w.marks| == |w.loops| == |x.fixes| && |w.pending| == |w.pends|
  {
    match o
    case OutOfFuel => Out(m2, n, size, fuel)
    case Normal(st2) =>
      && Stands(m2, end) && m2.out == st2.out
      && Agrees(x.ops, w.dead, st2.env, cs1.locals, m2.regs) && KeepsBut(cs, w.wr, a, m2.regs)
    case Brk(st2) =>
      && w.brk && |w.loops| > 0
      && (var l := |w.loops| - 1; Lands(x, w, cs, w.loops[l].floor, w.marks[l], x.fixes[l].brk, st2, a, n, m2))
    case Cont(st2) =>
      && w.cont && ContinueLevel(w.loops).Some? && ContinueLevel(w.loops).value < |w.loops|
      && (var l := ContinueLevel(w.loops).value;
          Lands(x, w, cs, w.loops[l].floor, w.marks[l], x.fixes[l].cont, st2, a, n, m2))
    case Ret(v, st2) =>
      && w.ret
      && (match Unwind(x.ops, w.pending, w.pends, 0, 0, st2)
          case UOk(st3) => m2 == Done(v, st3.out)
          case UOut(i) => i < |w.pending| && Out(m2, n, SizeStmts(w.pending[i]), w.pends[i].fuel))
  }

  // A statement's start: both sides agree, and every way out is prepared.
  ghost predicate Ready(x: Ctx, w: World, vis: set<string>, depth: nat, cs: CState, st: St, m: Machine) {
    && m.Running? && m.out == st.out && m.globals == map[]
    && Good(cs) && NoShadow(st.env) && st.env != [] && depth <= |st.env| && Scope(st.env, vis)
    && Agrees(x.ops, w.dead, st.env, cs.locals, m.regs)
    && WorldOk(x, w, depth, st.env, cs.locals)
  }

  // ---------- sequencing ----------

  // Registers kept up to some point, then kept by what follows there.
  ghost predicate Bridge(cs: CState, cs1: CState, wr: set<string>, a: Regs, b: Regs) {
    cs.locals <= cs1.locals && forall c :: KeepsBut(cs1, wr, b, c) ==> KeepsBut(cs, wr, a, c)
  }

  lemma BridgePost(cs: CState, cs1: CState, wr: set<string>, a: Regs, b: Regs)
    requires StmtPost(cs, cs1) && KeepsBut(cs, wr, a, b)
    ensures Bridge(cs, cs1, wr, a, b)
  {
    forall c | KeepsBut(cs1, wr, b, c)
      ensures KeepsBut(cs, wr, a, c)
    {
      KeepsButPost(cs, cs1, wr, a, b, c);
    }
  }

  // The same locals, and at least the same registers taken.
  lemma BridgeOver(cs: CState, cs1: CState, wr: set<string>, a: Regs, b: Regs)
    requires cs1.locals == cs.locals && KeepsBut(cs, wr, a, b)
    requires forall q: nat :: Busy(cs.rs, q) ==> Busy(cs1.rs, q)
    ensures Bridge(cs, cs1, wr, a, b)
  {
  }

  lemma LandsLater(x: Ctx, w: World, cs: CState, cs1: CState, floor: nat, mk: Mark, target: nat, st: St,
                   a: Regs, b: Regs, n1: nat, n2: nat, m2: Machine)
    requires |w.pending| == |w.pends| && mk.k <= |cs.locals|
    requires Bridge(cs, cs1, w.wr, a, b)
    requires Lands(x, w, cs1, floor, mk, target, st, b, n2, m2)
    ensures Lands(x, w, cs, floor, mk, target, st, a, n1 + n2, m2)
  {
    hide Unwind, KeepsBut, Agrees;
    assert mk.k <= |cs1.locals| ==> cs1.locals[..mk.k] == cs.locals[..mk.k];
  }

  // A statement whose first part took `n1` steps and ended normally.
  lemma EndsLater(x: Ctx, w: World, depth: nat, env: Env, cs: CState, cs1: CState, cs2: CState, end: nat, size1: nat,
      size: nat, fuel: nat,
                  o: Outcome, a: Regs, b: Regs, n1: nat, n2: nat, m2: Machine)
    requires WorldOk(x, w, depth, env, cs.locals) && Bridge(cs, cs1, w.wr, a, b)
    requires Ends(x, w, cs1, cs2, end, size1, fuel, o, b, n2, m2) && size1 <= size
    ensures Ends(x, w, cs, cs2, end, size, fuel, o, a, n1 + n2, m2)
  {
    hide Unwind, KeepsBut, Agrees, Lands, Bridge, PendsOk;
    if o.Brk? {
      var l := |w.loops| - 1;
      LandsLater(x, w, cs, cs1, w.loops[l].floor, w.marks[l], x.fixes[l].brk, o.st, a, b, n1, n2, m2);
    } else if o.Cont? {
      var l := ContinueLevel(w.loops).value;
      LandsLater(x, w, cs, cs1, w.loops[l].floor, w.marks[l], x.fixes[l].cont, o.st, a, b, n1, n2, m2);
    } else {
      BridgeUse(cs, cs1, w.wr, a, b, if m2.Running? then m2.regs else a);
    }
  }

  lemma BridgeUse(cs: CState, cs1: CState, wr: set<string>, a: Regs, b: Regs, c: Regs)
    requires Bridge(cs, cs1, wr, a, b)
    ensures KeepsBut(cs1, wr, b, c) ==> KeepsBut(cs, wr, a, c)
  {
  }

  // ---------- leaving a scope ----------

  lemma LandsCut(x: Ctx, w: World, cs: CState, floor: nat, mk: Mark, target: nat, st: St, a: Regs, n: nat, m2: Machine,
      depth: nat)
    requires |w.pending| == |w.pends| && mk.d <= depth
    requires forall i :: floor <= i < |w.pends| ==> w.pends[i].at.d <= depth
    requires Lands(x, w, cs, floor, mk, target, st, a, n, m2)
    ensures Lands(x, w, cs, floor, mk, target, Cut(st, depth), a, n, m2)
  {
    UnwindCut(x.ops, w.pending, w.pends, floor, mk.d, st, depth);
  }

  // Marks lie at most at the depth of the world.
  lemma ExitDepth(lits: set<Value>, w: World, floor: nat, mk: Mark, depth: nat, env: Env, locals: seq<Local>)
    requires ExitOk(lits, w, floor, mk, depth, env, locals)
    ensures mk.d <= depth && mk.k <= |locals|
    ensures |w.pending| == |w.pends| && forall i :: floor <= i < |w.pends| ==> w.pends[i].at.d <= depth
  {
    forall i | floor <= i < |w.pends|
      ensures w.pends[i].at.d <= depth
    {
      assert PendOk(lits, w, i, depth, env, locals);
    }
  }

  lemma ScopeLands(x: Ctx, w: World, cs: CState, floor: nat, mk: Mark, target: nat, st: St, a: Regs, n: nat,
      m2: Machine)
    requires |w.pending| == |w.pends|
    requires Lands(x, w, PushScope(cs), floor, mk, target, st, a, n, m2)
    ensures Lands(x, w, cs, floor, mk, target, st, a, n, m2)
  {
  }

  // The end of a block: its frame and its locals go together.
  lemma LeaveScope(x: Ctx, w: World, vis: set<string>, cs: CState, cs1: CState, end: nat, size: nat, fuel: nat,
                   o: Outcome, st: St, m: Machine, n: nat, m2: Machine)
    requires Ready(x, w, vis, |st.env|, cs, st, m) && StmtPost(PushScope(cs), cs1)
    requires OutcomeGrows(o, st.env + [map[]])
    requires Ends(x, w, PushScope(cs), cs1, end, size, fuel, o, m.regs, n, m2)
    ensures Ends(x, w, cs, PopScope(cs1), end, size, fuel, Trim(o, |st.env|), m.regs, n, m2)
  {
    hide Unwind, Lands, KeepsBut, Agrees, Scope, NoShadow, Good, PopScope, ScopePost;
    match o
    case OutOfFuel =>
    case Normal(st2) =>
      LeaveNormal(x, w, vis, cs, cs1, st, m, st2, m2);
    case Brk(st2) =>
      var l := |w.loops| - 1;
      ExitDepth(x.lits, w, w.loops[l].floor, w.marks[l], |st.env|, st.env, cs.locals);
      ScopeLands(x, w, cs, w.loops[l].floor, w.marks[l], x.fixes[l].brk, st2, m.regs, n, m2);
      LandsCut(x, w, cs, w.loops[l].floor, w.marks[l], x.fixes[l].brk, st2, m.regs, n, m2, |st.env|);
    case Cont(st2) =>
      var l := ContinueLevel(w.loops).value;
      ExitDepth(x.lits, w, w.loops[l].floor, w.marks[l], |st.env|, st.env, cs.locals);
      ScopeLands(x, w, cs, w.loops[l].floor, w.marks[l], x.fixes[l].cont, st2, m.regs, n, m2);
      LandsCut(x, w, cs, w.loops[l].floor, w.marks[l], x.fixes[l].cont, st2, m.regs, n, m2, |st.env|);
    case Ret(v, st2) =>
      ExitDepth(x.lits, w, 0, Mark(0, 0), |st.env|, st.env, cs.locals);
      UnwindCut(x.ops, w.pending, w.pends, 0, 0, st2, |st.env|);
  }

  lemma LeaveNormal(x: Ctx, w: World, vis: set<string>, cs: CState, cs1: CState, st: St, m: Machine, st2: St,
      m2: Machine)
    requires Ready(x, w, vis, |st.env|, cs, st, m) && StmtPost(PushScope(cs), cs1)
    requires Grows(st.env + [map[]], st2.env) && m2.Running?
    requires Agrees(x.ops, w.dead, st2.env, cs1.locals, m2.regs) && KeepsBut(PushScope(cs), w.wr, m.regs, m2.regs)
    ensures Agrees(x.ops, w.dead, st2.env[..|st.env|], PopScope(cs1).locals, m2.regs)
            && KeepsBut(cs, w.wr, m.regs, m2.regs)
    ensures PopScope(cs1).locals == cs.locals
  {
    hide WorldOk;
    PopFacts(cs, cs1);
    var d := |st.env|;
    var mk := Mark(d, |cs.locals|);
    assert cs1.locals[..mk.k] == cs.locals;
    assert st.env[..d] == st.env;
    assert forall i :: 0 <= i < d ==> (st.env + [map[]])[i].Keys == st2.env[i].Keys;
    assert MarkOk(mk, w.dead, d, st2.env, cs1.locals) by {
      forall y | y !in w.dead
        ensures Visible(st2.env[..d], y) <==> Slot(cs1.locals[..mk.k], y).Some?
      {
        SameVisible(d, st.env, st2.env, d, y);
      }
      forall y | y in Later(cs1.locals, mk.k)
        ensures Slot(cs1.locals[..mk.k], y).None?
      {
      }
    }
    CutAgrees(x.ops, mk, w.dead, w.dead, d, st2, cs1.locals, m2.regs);
  }
}
