/** The scope discipline of every statement the compiler emits. */
module GenFacts {
  import opened Options
  import opened Values
  import opened Syntax
  import opened Bytecode
  import opened CodeGen
  import opened RegisterDiscipline
  import opened ScopeDiscipline

  // A result freed after code that kept the registers.
  lemma FreeAcross(cs: CState, r: nat, cs1: CState, cs2: CState)
    requires Good(cs) && ExprPost(None, cs, r, cs1) && Neutral(cs1, cs2)
    ensures Neutral(cs, FreeTemp(cs2, r))
  {
    if Held(cs.rs, r) {
      FreeHeld(cs2, r);
    } else {
      FreeFacts(cs2, r);
    }
  }

  // A result freed after code that declared locals.
  lemma FreeAcrossPost(cs: CState, r: nat, cs1: CState, cs2: CState)
    requires Good(cs) && ExprPost(None, cs, r, cs1) && StmtPost(cs1, cs2)
    ensures StmtPost(cs, FreeTemp(cs2, r))
  {
    if Held(cs.rs, r) {
      FreeHeld(cs2, r);
    } else {
      assert !OwnsSlot(cs2, |cs1.locals|, r);
      FreeFacts(cs2, r);
      assert forall q :: OwnsSlot(FreeTemp(cs2, r), |cs.locals|, q) <==> OwnsSlot(cs2, |cs.locals|, q);
    }
  }

  // Two temporaries above a result, freed in the order cur, result, tmp.
  lemma TempsAcross(cs: CState, r: nat, csG: CState)
    requires Good(cs) && ExprPost(None, cs, r, csG)
    ensures var (cur, cs1) := AllocTemp(csG); var (tmp, cs2) := AllocTemp(cs1);
            var cs3 := FreeTemp(FreeTemp(cs2, cur), r);
            && Good(cs3) && ExprPost(None, cs, tmp, cs3) && PlusTemp(cs.rs, cs3.rs, tmp)
            && Neutral(cs, FreeTemp(cs3, tmp))
  {
    var (cur, cs1) := AllocTemp(csG);
    AllocNeutral(csG);
    OneOperand(None, csG, cur, cs1);
    var (tmp, cs2) := AllocTemp(cs1);
    FreeBelow(cs, r, csG, FreeTemp(cs2, cur), None, tmp);
    FreeResult(cs, tmp, FreeTemp(FreeTemp(cs2, cur), r));
  }

  lemma ConstFacts(cs: CState, v: Value)
    requires Good(cs)
    ensures Neutral(cs, AddConst(cs, v).1)
  {
  }

  lemma AssignFacts(x: string, aop: AssignOp, rhs: Expr, base: nat, cs: CState)
    requires Good(cs)
    ensures var g := GenAssign(x, aop, rhs, base, cs);
            && StmtPost(cs, g.cs)
            && (Slot(cs.locals, x).Some? ==> Neutral(cs, g.cs))
            && (Slot(cs.locals, x).None? ==> |g.cs.locals| == |cs.locals| + 1 && g.cs.locals[|cs.locals|].name == x)
  {
    hide Good, GoodRegs, SameBusy, PlusTemp, Held, Busy, StmtPost, ScopePost;
    ExprNeutral(rhs, base, cs);
    var g := GenExpr(rhs, None, base, cs);
    if Slot(cs.locals, x).Some? {
      if !aop.Plain? && aop.op != Concat {
        TempsAcross(cs, g.r, g.cs);
      }
      NeutralIsPost(cs, GenAssign(x, aop, rhs, base, cs).cs);
    } else if aop.Plain? {
      DeclareFacts(g.cs, x);
      FreeAcrossPost(cs, g.r, g.cs, DeclareLocal(g.cs, x).1);
    } else {
      var (k, cs0) := AddConst(g.cs, Str(x));
      ConstFacts(g.cs, Str(x));
      ExprThenNeutral(cs, g.r, g.cs, cs0);
      TempsAcross(cs, g.r, cs0);
      var (cur, cs1) := AllocTemp(cs0);
      var (tmp, cs2) := AllocTemp(cs1);
      var cs3 := FreeTemp(FreeTemp(cs2, cur), g.r);
      DeclareFacts(cs3, x);
      FreeAcrossPost(cs, tmp, cs3, DeclareLocal(cs3, x).1);
    }
  }

  lemma ExprThenNeutral(cs: CState, r: nat, cs1: CState, cs2: CState)
    requires Good(cs) && ExprPost(None, cs, r, cs1) && Neutral(cs1, cs2)
    ensures ExprPost(None, cs, r, cs2)
  {
  }

  // Three temporaries, of which the second stays.
  lemma ThreeTemps(cs: CState, k: Option<Value>)
    requires Good(cs)
    ensures var (one, cs1) := AllocTemp(cs); var (r, cs2) := AllocTemp(cs1);
            var cs3 := if k.Some? then AddConst(cs2, k.value).1 else cs2;
            var (nv, cs4) := AllocTemp(cs3);
            ExprPost(None, cs, r, FreeTemp(FreeTemp(cs4, nv), one))
            && PlusTemp(cs.rs, FreeTemp(FreeTemp(cs4, nv), one).rs, r)
  {
    var (one, cs1) := AllocTemp(cs);
    AllocNeutral(cs);
    var (r, cs2) := AllocTemp(cs1);
    AllocNeutral(cs1);
    var cs3 := if k.Some? then AddConst(cs2, k.value).1 else cs2;
    if k.Some? {
      ConstFacts(cs2, k.value);
    }
    ExprThenNeutral(cs1, r, cs2, cs3);
    var (nv, cs4) := AllocTemp(cs3);
    AllocNeutral(cs3);
    ExprThenNeutral(cs1, r, cs3, FreeTemp(cs4, nv));
    FreeBelow(cs, one, cs1, FreeTemp(cs4, nv), None, r);
  }

  lemma EffectValueFacts(f: Effect, base: nat, cs: CState)
    requires Good(cs)
    ensures var g := GenEffectValue(f, base, cs); StmtPost(cs, FreeTemp(g.cs, g.r))
    ensures f.Eval? ==> ExprPost(None, cs, GenEffectValue(f, base, cs).r, GenEffectValue(f, base, cs).cs)
    ensures f.IncDec? ==> ExprPost(None, cs, GenEffectValue(f, base, cs).r, GenEffectValue(f, base, cs).cs)
  {
    hide Good, GoodRegs, SameBusy, PlusTemp, Held, Busy, StmtPost, ScopePost, Alloc, Free, Slot, GenExpr, GenAssign;
    match f
    case Eval(e) =>
      ExprNeutral(e, base, cs);
      var g := GenExpr(e, None, base, cs);
      NeutralIsPost(cs, FreeTemp(g.cs, g.r));
    case Assign(x, aop, rhs) =>
      AssignFacts(x, aop, rhs, base, cs);
      var g := GenAssign(x, aop, rhs, base, cs);
      PostGood(cs, g.cs);
      AllocNeutral(g.cs);
      ThenNeutral(cs, g.cs, FreeTemp(AllocTemp(g.cs).1, AllocTemp(g.cs).0));
    case IncDec(x, inc, prefix) =>
      ThreeTemps(cs, if Slot(cs.locals, x).Some? then None else Some(Str(x)));
      var g := GenIncDec(x, inc, prefix, cs);
      FreeResult(cs, g.r, g.cs);
      NeutralIsPost(cs, FreeTemp(g.cs, g.r));
  }

  lemma PostGood(cs: CState, cs1: CState)
    requires StmtPost(cs, cs1)
    ensures Good(cs1)
  {
  }

  lemma EffectFacts(f: Effect, base: nat, cs: CState)
    requires Good(cs)
    ensures StmtPost(cs, GenEffect(f, base, cs).cs)
  {
    if f.Assign? {
      AssignFacts(f.x, f.aop, f.rhs, base, cs);
    } else {
      EffectValueFacts(f, base, cs);
    }
  }

  lemma LiteralOutFacts(text: string, cs: CState)
    requires Good(cs)
    ensures Neutral(cs, GenLiteralOut(text, cs).cs)
  {
    AllocNeutral(cs);
    var (r, cs1) := AllocTemp(cs);
    LoadFacts(r, Str(text), cs1);
    ExprThenNeutral(cs, r, cs1, LoadValue(r, Str(text), cs1).cs);
    FreeResult(cs, r, LoadValue(r, Str(text), cs1).cs);
  }

  lemma {:induction false} WritesFacts(args: Exprs, first: bool, base: nat, cs: CState)
    requires Good(cs)
    ensures Neutral(cs, GenWrites(args, first, base, cs).cs)
    decreases args
  {
    hide Good, GoodRegs, SameBusy, PlusTemp, Held, Busy, SameScope, Alloc, AllocTemp, Free, FreeTemp, Slot, GenExpr,
         GenLiteralOut;
    NeutralRefl(cs);
    if args.ECons? {
      var sep := if first then Gen([], cs) else GenLiteralOut(" ", cs);
      if !first {
        LiteralOutFacts(" ", cs);
      }
      ExprNeutral(args.head, base + |sep.code|, sep.cs);
      var g := GenExpr(args.head, None, base + |sep.code|, sep.cs);
      var at := base + |sep.code| + |g.code| + 1;
      WritesFacts(args.tail, false, at, FreeTemp(g.cs, g.r));
      NeutralTrans(cs, sep.cs, FreeTemp(g.cs, g.r));
      NeutralTrans(cs, FreeTemp(g.cs, g.r), GenWrites(args.tail, false, at, FreeTemp(g.cs, g.r)).cs);
    }
  }

  lemma {:induction false} ValuesFacts(values: Exprs, subject: nat, target: Target, base: nat, cs: CState)
    requires Good(cs)
    ensures Neutral(cs, GenValues(values, subject, target, base, cs).cs)
    decreases values
  {
    hide Good, GoodRegs, SameBusy, PlusTemp, Held, Busy, SameScope, Alloc, AllocTemp, Free, FreeTemp, Slot, GenExpr;
    NeutralRefl(cs);
    if values.ECons? {
      ExprNeutral(values.head, base, cs);
      var g := GenExpr(values.head, None, base, cs);
      var (eq, cs1) := AllocTemp(g.cs);
      AllocNeutral(g.cs);
      FreeBelow(cs, g.r, g.cs, cs1, None, eq);
      var cs2 := FreeTemp(cs1, g.r);
      FreeResult(cs, eq, cs2);
      ValuesFacts(values.tail, subject, target, base + |g.code| + 2, FreeTemp(cs2, eq));
      NeutralTrans(cs, FreeTemp(cs2, eq),
                   GenValues(values.tail, subject, target, base + |g.code| + 2, FreeTemp(cs2, eq)).cs);
    }
  }

  lemma {:induction false} ChecksFacts(cases: Cases, subject: nat, level: nat, index: nat, base: nat, cs: CState)
    requires Good(cs)
    ensures Neutral(cs, GenChecks(cases, subject, level, index, base, cs).cs)
    decreases cases
  {
    hide Good, GoodRegs, SameBusy, PlusTemp, Held, Busy, SameScope, GenValues;
    NeutralRefl(cs);
    if cases.Case? {
      ValuesFacts(cases.values, subject, ToCase(level, index), base, cs);
      var g := GenValues(cases.values, subject, ToCase(level, index), base, cs);
      ChecksFacts(cases.rest, subject, level, index + 1, base + |g.code|, g.cs);
      NeutralTrans(cs, g.cs, GenChecks(cases.rest, subject, level, index + 1, base + |g.code|, g.cs).cs);
    }
  }

  lemma TestFacts(test: Option<Expr>, exit: nat, base: nat, cs: CState)
    requires Good(cs)
    ensures Neutral(cs, GenTest(test, exit, base, cs).cs)
  {
    if test.Some? {
      ExprNeutral(test.value, base, cs);
    }
  }

  lemma PostFacts(post: Option<Effect>, base: nat, cs: CState)
    requires Good(cs)
    ensures StmtPost(cs, GenPost(post, base, cs).cs)
  {
    if post.Some? {
      EffectValueFacts(post.value, base, cs);
    } else {
      NeutralIsPost(cs, cs);
    }
  }

  // ---------- statements ----------

  lemma {:induction false} PendingFacts(ps: seq<Stmts>, floor: nat, base: nat, cs: CState, loops: seq<Loop>)
    requires Good(cs)
    ensures Neutral(cs, GenPending(ps, floor, base, cs, loops).cs)
    decreases SizePending(ps), 3
  {
    hide Good, GoodRegs, SameBusy, PlusTemp, Held, Busy, SameScope, GenBlock;
    NeutralRefl(cs);
    if |ps| > floor {
      SizePendingPrefix(ps[..|ps| - 1], floor);
      assert ps[..|ps| - 1][..floor] == ps[..floor];
      BlockFacts(ps[|ps| - 1], base, cs, loops, ps[..floor]);
      var g := GenBlock(ps[|ps| - 1], base, cs, loops, ps[..floor]);
      PendingFacts(ps[..|ps| - 1], floor, base + |g.code|, g.cs, loops);
      NeutralTrans(cs, g.cs, GenPending(ps[..|ps| - 1], floor, base + |g.code|, g.cs, loops).cs);
    }
  }

  lemma {:induction false} BlockFacts(ss: Stmts, base: nat, cs: CState, loops: seq<Loop>, pending: seq<Stmts>)
    requires Good(cs)
    ensures Neutral(cs, GenBlock(ss, base, cs, loops, pending).cs)
    decreases SizeStmts(ss) + SizePending(pending), 1
  {
    PushFacts(cs);
    StmtsFacts(ss, base, PushScope(cs), loops, pending);
    PopFacts(cs, GenStmts(ss, base, PushScope(cs), loops, pending).cs);
  }

  lemma {:induction false} StmtsFacts(ss: Stmts, base: nat, cs: CState, loops: seq<Loop>, pending: seq<Stmts>)
    requires Good(cs)
    ensures StmtPost(cs, GenStmts(ss, base, cs, loops, pending).cs)
    decreases SizeStmts(ss) + SizePending(pending), 0
  {
    hide Good, GoodRegs, SameBusy, PlusTemp, Held, Busy, StmtPost, ScopePost, SameScope, GenStmt, GenBlock;
    hide GenExpr, Alloc, Free, Slot;
    if ss.Nil? {
      PostRefl(cs);
    } else {
      StmtFacts(ss.head, base, cs, loops, pending);
      var g := GenStmt(ss.head, base, cs, loops, pending);
      PostGood(cs, g.cs);
      StmtsFacts(ss.tail, base + |g.code|, g.cs, loops, pending);
      PostTrans(cs, g.cs, GenStmts(ss.tail, base + |g.code|, g.cs, loops, pending).cs);
    }
  }

  lemma {:induction false} LoopFacts(test: Option<Expr>, post: Option<Effect>, body: Stmts, isWhile: bool, start: nat,
                                     cs: CState, loops: seq<Loop>, pending: seq<Stmts>)
    requires Good(cs)
    ensures StmtPost(cs, GenLoop(test, post, body, isWhile, start, cs, loops, pending).cs)
    decreases SizeStmts(body) + SizePending(pending), 2
  {
    hide GoodRegs, SameBusy, PlusTemp, Held, Busy, StmtPost, ScopePost, GenPost, GenBlock;
    TestFacts(test, 0, start, cs);
    var gt := GenTest(test, 0, start, cs);
    var bodyAt := start + |gt.code|;
    var inner := loops + [Loop(false, |pending|)];
    BlockFacts(body, bodyAt, gt.cs, inner, pending);
    var gb := GenBlock(body, bodyAt, gt.cs, inner, pending);
    var postAt := bodyAt + |gb.code|;
    PostFacts(post, postAt, gb.cs);
    NeutralTrans(cs, gt.cs, gb.cs);
    NeutralThen(cs, gb.cs, GenPost(post, postAt, gb.cs).cs);
  }

  lemma {:induction false} CasesFacts(cases: Cases, base: nat, cs: CState, loops: seq<Loop>, pending: seq<Stmts>)
    requires Good(cs) && |loops| > 0
    ensures Neutral(cs, GenCases(cases, base, cs, loops, pending).cs)
    decreases SizeCases(cases) + SizePending(pending), 2
  {
    if cases.Case? {
      BlockFacts(cases.body, base, cs, loops, pending);
      var g := GenBlock(cases.body, base, cs, loops, pending);
      CasesFacts(cases.rest, base + |g.code| + 1, g.cs, loops, pending);
      NeutralTrans(cs, g.cs, GenCases(cases.rest, base + |g.code| + 1, g.cs, loops, pending).cs);
    }
  }

  lemma {:induction false} StmtFacts(s: Stmt, base: nat, cs: CState, loops: seq<Loop>, pending: seq<Stmts>)
    requires Good(cs)
    ensures StmtPost(cs, GenStmt(s, base, cs, loops, pending).cs)
    ensures !s.Do? && !s.While? ==> Neutral(cs, GenStmt(s, base, cs, loops, pending).cs)
    decreases SizeStmt(s) + SizePending(pending), 2
  {
    hide Good, GoodRegs, SameBusy, PlusTemp, Held, Busy, StmtPost, ScopePost, SameScope;
    hide GenExpr, GenBlock, GenStmts, GenPending, GenLoop, GenEffect, GenWrites, Alloc, Free, Slot;
    NeutralRefl(cs);
    NeutralIsPost(cs, cs);
    var g := GenStmt(s, base, cs, loops, pending);
    match s
    case Do(f) => EffectFacts(f, base, cs);
    case Write(args, newline) =>
      WritesFacts(args, true, base, cs);
      var gw := GenWrites(args, true, base, cs);
      if newline {
        LiteralOutFacts("\n", gw.cs);
        NeutralTrans(cs, gw.cs, g.cs);
      }
      NeutralIsPost(cs, g.cs);
    case Return(value) =>
      if value.None? {
        PendingFacts(pending, 0, base, cs, loops);
      } else {
        ExprNeutral(value.value, base, cs);
        var ge := GenExpr(value.value, None, base, cs);
        PendingFacts(pending, 0, base + |ge.code|, ge.cs, loops);
        FreeAcross(cs, ge.r, ge.cs, GenPending(pending, 0, base + |ge.code|, ge.cs, loops).cs);
      }
      NeutralIsPost(cs, g.cs);
    case Break =>
      if loops != [] {
        PendingFacts(pending, loops[|loops| - 1].floor, base, cs, loops);
        NeutralIsPost(cs, g.cs);
      }
    case Continue =>
      ContinueLevelBound(loops);
      if ContinueLevel(loops).Some? {
        PendingFacts(pending, loops[ContinueLevel(loops).value].floor, base, cs, loops);
        NeutralIsPost(cs, g.cs);
      }
    case Block(body) =>
      BlockFacts(body, base, cs, loops, pending);
      NeutralIsPost(cs, g.cs);
    case If(c, thn, els) =>
      ExprNeutral(c, base, cs);
      var gc := GenExpr(c, None, base, cs);
      var cs1 := FreeTemp(gc.cs, gc.r);
      BlockFacts(thn, base + |gc.code| + 1, cs1, loops, pending);
      var gt := GenBlock(thn, base + |gc.code| + 1, cs1, loops, pending);
      NeutralTrans(cs, cs1, gt.cs);
      if els.Some? {
        var alt := base + |gc.code| + 1 + |gt.code| + 1;
        BlockFacts(els.value, alt, gt.cs, loops, pending);
        NeutralTrans(cs, gt.cs, GenBlock(els.value, alt, gt.cs, loops, pending).cs);
      }
      NeutralIsPost(cs, g.cs);
    case While(c, body) => LoopFacts(Some(c), None, body, true, base, cs, loops, pending);
    case For(init, test, post, body) =>
      PushFacts(cs);
      var cs1 := PushScope(cs);
      PostRefl(cs1);
      var gi := match init case Some(i) => GenStmt(i, base, cs1, loops, pending) case None => Gen([], cs1);
      if init.Some? {
        StmtFacts(init.value, base, cs1, loops, pending);
      }
      PostGood(cs1, gi.cs);
      LoopFacts(test, post, body, false, base + |gi.code|, gi.cs, loops, pending);
      var gl := GenLoop(test, post, body, false, base + |gi.code|, gi.cs, loops, pending);
      PostTrans(cs1, gi.cs, gl.cs);
      PopFacts(cs, gl.cs);
      NeutralIsPost(cs, g.cs);
    case Switch(_, _) =>
      SwitchFacts(s, base, cs, loops, pending);
      NeutralIsPost(cs, g.cs);
    case Try(_, _, _) =>
      TryFacts(s, base, cs, loops, pending);
      NeutralIsPost(cs, g.cs);
  }

  lemma {:induction false} SwitchFacts(s: Stmt, base: nat, cs: CState, loops: seq<Loop>, pending: seq<Stmts>)
    requires s.Switch? && Good(cs)
    ensures Neutral(cs, GenStmt(s, base, cs, loops, pending).cs)
    decreases SizeStmt(s) + SizePending(pending), 1
  {
    hide Good, GoodRegs, SameBusy, PlusTemp, Held, Busy, StmtPost, ScopePost, SameScope;
    hide GenExpr, GenBlock, GenStmts, GenPending, GenChecks, GenCases, Alloc, Free, Slot;
    ExprNeutral(s.subject, base, cs);
    var gs := GenExpr(s.subject, None, base, cs);
    ChecksFacts(s.cases, gs.r, |loops|, 0, base + |gs.code|, gs.cs);
    var gv := GenChecks(s.cases, gs.r, |loops|, 0, base + |gs.code|, gs.cs);
    var bodiesAt := base + |gs.code| + |gv.code| + 1;
    var inner := loops + [Loop(true, |pending|)];
    CasesFacts(s.cases, bodiesAt, gv.cs, inner, pending);
    var gb := GenCases(s.cases, bodiesAt, gv.cs, inner, pending);
    NeutralTrans(gs.cs, gv.cs, gb.cs);
    FreeAcross(cs, gs.r, gs.cs, gb.cs);
  }

  lemma {:induction false} TryFacts(s: Stmt, base: nat, cs: CState, loops: seq<Loop>, pending: seq<Stmts>)
    requires s.Try? && Good(cs)
    ensures Neutral(cs, GenStmt(s, base, cs, loops, pending).cs)
    decreases SizeStmt(s) + SizePending(pending), 1
  {
    hide Good, Neutral, GenBlock, GenHandling, WithFin;
    var pend := WithFin(pending, s.fin);
    BlockFacts(s.body, base + 1, cs, loops, pend);
    var gb := GenBlock(s.body, base + 1, cs, loops, pend);
    NeutralGood(cs, gb.cs);
    var catchAt := base + 1 + |gb.code| + 2;
    HandlingFacts(s.handler, s.fin, catchAt, gb.cs, loops, pending);
    var gh := GenHandling(s.handler, s.fin, catchAt, gb.cs, loops, pending);
    NeutralTrans(cs, gb.cs, gh.cs);
    NeutralGood(cs, gh.cs);
    if s.fin.Some? {
      var end := catchAt + |gh.code|;
      BlockFacts(s.fin.value, end, gh.cs, loops, pending);
      NeutralTrans(cs, gh.cs, GenBlock(s.fin.value, end, gh.cs, loops, pending).cs);
    }
  }

  lemma NeutralGood(cs: CState, cs1: CState)
    requires Neutral(cs, cs1)
    ensures Good(cs1)
  {
  }

  lemma {:induction false} HandlingFacts(handler: Option<Handler>, fin: Option<Stmts>, at: nat, cs: CState,
                                         loops: seq<Loop>, pending: seq<Stmts>)
    requires Good(cs)
    ensures Neutral(cs, GenHandling(handler, fin, at, cs, loops, pending).cs)
    decreases 2 + (match handler case Some(h) => SizeStmts(h.body) case None => 0) + SizeFin(fin)
      + SizePending(pending), 0
  {
    hide Good, GoodRegs, SameBusy, PlusTemp, Held, Busy, StmtPost, ScopePost, SameScope;
    hide GenBlock, Alloc, Free;
    match handler
    case Some(h) =>
      var cs1 := PushScope(cs);
      PushFacts(cs);
      var gx := if h.name != "" then (var (e, cs2) := DeclareLocal(cs1, h.name); Gen([LoadExc(e)], cs2))
                else Gen([], cs1);
      if h.name != "" {
        DeclareInScope(cs1, h.name);
      } else {
        PostRefl(cs1);
      }
      ScopeGood(cs1, gx.cs);
      var pend := WithFin(pending, fin);
      BlockFacts(h.body, at + |gx.code|, gx.cs, loops, pend);
      PopCatch(cs, gx.cs, GenBlock(h.body, at + |gx.code|, gx.cs, loops, pend).cs);
    case None =>
      var (exc, cs1) := AllocTemp(cs);
      AllocNeutral(cs);
      NeutralRefl(cs1);
      var gt := match fin case Some(b) => GenBlock(b, at + 1, cs1, loops, pending) case None => Gen([], cs1);
      if fin.Some? {
        BlockFacts(fin.value, at + 1, cs1, loops, pending);
      }
      FreeAcross(cs, exc, cs1, gt.cs);
  }

  lemma PostRefl(cs: CState)
    requires Good(cs)
    ensures ScopePost(cs, cs) && StmtPost(cs, cs)
  {
  }

  lemma ScopeGood(cs: CState, cs1: CState)
    requires ScopePost(cs, cs1)
    ensures Good(cs1)
  {
  }

  lemma PopCatch(a: CState, b: CState, c: CState)
    requires Good(a) && ScopePost(PushScope(a), b) && Neutral(b, c)
    ensures Neutral(a, PopScope(c))
  {
    assert forall r :: OwnsSlot(b, |a.locals|, r) <==> OwnsSlot(c, |a.locals|, r);
    PopFacts(a, c);
  }

  lemma NeutralRefl(cs: CState)
    requires Good(cs)
    ensures Neutral(cs, cs)
  {
  }
}
