/** The pieces of the code of each compound statement, and what stands between them. */
module StmtShapes {
  import opened Options
  import opened Values
  import opened Syntax
  import opened Bytecode
  import opened CodeGen
  import opened RegisterDiscipline
  import opened ScopeDiscipline
  import opened GenFacts
  import opened Simulation
  import opened EffectProof
  import opened SwitchProof

  lemma PostPool(cs: CState, cs1: CState)
    requires StmtPost(cs, cs1)
    ensures Good(cs1) && cs.pool <= cs1.pool
  {
  }

  // Closing a scope leaves the pool.
  lemma PopPool(cs: CState)
    ensures PopScope(cs).pool == cs.pool
  {
    PopLocalsPool(cs);
  }

  lemma {:induction false} PopLocalsPool(cs: CState)
    ensures PopLocals(cs).pool == cs.pool
    decreases |cs.locals|
  {
    if cs.locals != [] && cs.locals[|cs.locals| - 1].depth == cs.depth {
      PopLocalsPool(cs.(rs := FreeLocal(cs.rs, cs.locals[|cs.locals| - 1].reg),
                        locals := cs.locals[..|cs.locals| - 1]));
    }
  }

  lemma IfShape(x: Ctx, s: Stmt, base: nat, cs: CState, loops: seq<Loop>, pending: seq<Stmts>)
    requires s.If? && Good(cs)
    requires var g := GenStmt(s, base, cs, loops, pending); Fits(x, g.code, base, g.cs.pool)
    ensures var gc := GenExpr(s.cond, None, base, cs);
            var cs1 := FreeTemp(gc.cs, gc.r);
            var thenAt := base + |gc.code| + 1;
            var gt := GenBlock(s.thn, thenAt, cs1, loops, pending);
            var alt := thenAt + |gt.code|;
            var g := GenStmt(s, base, cs, loops, pending);
            && Neutral(cs, cs1) && Neutral(cs1, gt.cs)
            && Fits(x, gc.code, base, gc.cs.pool) && Fits(x, gt.code, thenAt, gt.cs.pool)
            && thenAt <= |x.p.code|
            && (s.els.None? ==>
                  && x.p.code[thenAt - 1] == JumpIfFalse(gc.r, At(alt))
                  && base + |g.code| == alt && g.cs == gt.cs)
            && (s.els.Some? ==>
                  var gf := GenBlock(s.els.value, alt + 1, gt.cs, loops, pending);
                  && x.p.code[thenAt - 1] == JumpIfFalse(gc.r, At(alt + 1))
                  && alt < |x.p.code| && x.p.code[alt] == Jump(At(base + |g.code|))
                  && Neutral(gt.cs, gf.cs) && Fits(x, gf.code, alt + 1, gf.cs.pool)
                  && base + |g.code| == alt + 1 + |gf.code| && g.cs == gf.cs)
  {
    hide GenExpr, GenBlock, Fits, Good, Neutral, Free, ExprPost;
    ExprNeutral(s.cond, base, cs);
    var gc := GenExpr(s.cond, None, base, cs);
    var cs1 := FreeTemp(gc.cs, gc.r);
    var thenAt := base + |gc.code| + 1;
    NeutralLocals(cs, cs1);
    BlockFacts(s.thn, thenAt, cs1, loops, pending);
    var gt := GenBlock(s.thn, thenAt, cs1, loops, pending);
    NeutralLocals(cs1, gt.cs);
    PoolFree(gc.cs, gc.r);
    var alt := thenAt + |gt.code|;
    if s.els.None? {
      FitsMid(x, gc.code, JumpIfFalse(gc.r, At(alt)), gt.code, base, gt.cs.pool, gc.cs.pool);
    } else {
      BlockFacts(s.els.value, alt + 1, gt.cs, loops, pending);
      var gf := GenBlock(s.els.value, alt + 1, gt.cs, loops, pending);
      NeutralLocals(gt.cs, gf.cs);
      var i0, i1 := JumpIfFalse(gc.r, At(alt + 1)), Jump(At(alt + 1 + |gf.code|));
      assert gc.code + [i0] + gt.code + [i1] + gf.code == gc.code + [i0] + (gt.code + [i1] + gf.code);
      FitsMid(x, gc.code, i0, gt.code + [i1] + gf.code, base, gf.cs.pool, gc.cs.pool);
      FitsMid(x, gt.code, i1, gf.code, thenAt, gf.cs.pool, gt.cs.pool);
    }
  }

  lemma TestSame(test: Option<Expr>, exit: nat, base: nat, cs: CState)
    ensures GenTest(test, exit, base, cs).cs == GenTest(test, 0, base, cs).cs
    ensures |GenTest(test, exit, base, cs).code| == |GenTest(test, 0, base, cs).code|
  {
  }

  lemma LoopShape(x: Ctx, test: Option<Expr>, post: Option<Effect>, body: Stmts, isWhile: bool, start: nat, cs: CState,
                  loops: seq<Loop>, pending: seq<Stmts>)
    requires Good(cs) && |loops| == |x.fixes|
    requires var g := GenLoop(test, post, body, isWhile, start, cs, loops, pending); Fits(x, g.code, start, g.cs.pool)
    ensures var g := GenLoop(test, post, body, isWhile, start, cs, loops, pending);
            var after := start + |g.code|;
            var gt := GenTest(test, after, start, cs);
            var bodyAt := start + |gt.code|;
            var gb := GenBlock(body, bodyAt, gt.cs, loops + [Loop(false, |pending|)], pending);
            var postAt := bodyAt + |gb.code|;
            var gp := GenPost(post, postAt, gb.cs);
            var fx := Fix(after, if isWhile then start else postAt, []);
            && Fits(x, gt.code, start, gt.cs.pool) && Neutral(cs, gt.cs)
            && Fits(x.(fixes := x.fixes + [fx]), gb.code, bodyAt, gb.cs.pool) && Neutral(gt.cs, gb.cs)
            && Fits(x, gp.code, postAt, gp.cs.pool) && g.cs == gp.cs
            && postAt + |gp.code| + 1 == after <= |x.p.code|
            && x.p.code[after - 1] == Jump(At(start))
  {
    hide GenExpr, GenTest, GenBlock, GenPost, Fits, Good, Neutral;
    var g := GenLoop(test, post, body, isWhile, start, cs, loops, pending);
    var gt0 := GenTest(test, 0, start, cs);
    TestFacts(test, 0, start, cs);
    NeutralLocals(cs, gt0.cs);
    var bodyAt := start + |gt0.code|;
    BlockFacts(body, bodyAt, gt0.cs, loops + [Loop(false, |pending|)], pending);
    var gb := GenBlock(body, bodyAt, gt0.cs, loops + [Loop(false, |pending|)], pending);
    NeutralLocals(gt0.cs, gb.cs);
    var postAt := bodyAt + |gb.code|;
    PostFacts(post, postAt, gb.cs);
    var gp := GenPost(post, postAt, gb.cs);
    PostPool(gb.cs, gp.cs);
    var after := postAt + |gp.code| + 1;
    TestSame(test, after, start, cs);
    var gt := GenTest(test, after, start, cs);
    var fx := Fix(after, if isWhile then start else postAt, []);
    var pb := Patch(gb.code, |loops|, fx);
    assert g.code == gt.code + (pb + (gp.code + [Jump(At(start))]));
    assert start + |g.code| == after;
    FitsCat(x, gt.code, pb + (gp.code + [Jump(At(start))]), start, gp.cs.pool, gt.cs.pool);
    FitsCat(x, pb, gp.code + [Jump(At(start))], bodyAt, gp.cs.pool, gb.cs.pool);
    FitsEnd(x, gp.code, Jump(At(start)), postAt, gp.cs.pool, gp.cs.pool);
    FitsPatch(x, gb.code, bodyAt, fx, gb.cs.pool);
  }

  lemma FitsPatch(x: Ctx, c: Code, base: nat, fx: Fix, pool: seq<Value>)
    requires Fits(x, Patch(c, |x.fixes|, fx), base, pool)
    ensures Fits(x.(fixes := x.fixes + [fx]), c, base, pool)
  {
    CodeAtPatch(x.p.code, base, c, x.fixes, fx);
  }

  ghost predicate SwitchParts(x: Ctx, s: Stmt, g: Gen, base: nat, cs: CState, loops: seq<Loop>, pending: seq<Stmts>)
    requires s.Switch?
  {
    var gs := GenExpr(s.subject, None, base, cs);
    var checksAt := base + |gs.code|;
    var gv := GenChecks(s.cases, gs.r, |loops|, 0, checksAt, gs.cs);
    var jumpAt := checksAt + |gv.code|;
    var gb := GenCases(s.cases, jumpAt + 1, gv.cs, loops + [Loop(true, |pending|)], pending);
    var after := base + |g.code|;
    var x1 := x.(fixes := x.fixes + [Fix(after, after, gb.starts)]);
    && Fits(x, gs.code, base, gs.cs.pool)
    && ExprPost(None, cs, gs.r, gs.cs) && Good(gs.cs) && Neutral(gs.cs, gv.cs) && Neutral(gv.cs, gb.cs)
    && Fits(x1, gv.code, checksAt, gv.cs.pool)
    && jumpAt < |x.p.code| && x.p.code[jumpAt] == Jump(At(DefaultStart(s.cases, gb.starts, after)))
    && Fits(x1, gb.code, jumpAt + 1, gb.cs.pool)
    && g.cs.locals == cs.locals
  }

  lemma SwitchShape(x: Ctx, s: Stmt, base: nat, cs: CState, loops: seq<Loop>, pending: seq<Stmts>)
    requires s.Switch? && Good(cs) && |loops| == |x.fixes|
    requires var g := GenStmt(s, base, cs, loops, pending); Fits(x, g.code, base, g.cs.pool)
    ensures SwitchParts(x, s, GenStmt(s, base, cs, loops, pending), base, cs, loops, pending)
  {
    hide GenExpr, GenChecks, GenCases, GenBlock, Fits, Good, Neutral, DefaultStart, Free;
    ExprNeutral(s.subject, base, cs);
    var gs := GenExpr(s.subject, None, base, cs);
    SubjectGood(cs, gs.r, gs.cs);
    var checksAt := base + |gs.code|;
    ChecksFacts(s.cases, gs.r, |loops|, 0, checksAt, gs.cs);
    var gv := GenChecks(s.cases, gs.r, |loops|, 0, checksAt, gs.cs);
    NeutralLocals(gs.cs, gv.cs);
    var jumpAt := checksAt + |gv.code|;
    CasesFacts(s.cases, jumpAt + 1, gv.cs, loops + [Loop(true, |pending|)], pending);
    var gb := GenCases(s.cases, jumpAt + 1, gv.cs, loops + [Loop(true, |pending|)], pending);
    NeutralLocals(gv.cs, gb.cs);
    var g := GenStmt(s, base, cs, loops, pending);
    var after := base + |g.code|;
    var fx := Fix(after, after, gb.starts);
    var jump := Jump(At(DefaultStart(s.cases, gb.starts, after)));
    PoolFree(gb.cs, gs.r);
    FitsCat(x, gs.code, Patch(gv.code + [jump] + gb.code, |loops|, fx), base, gb.cs.pool, gs.cs.pool);
    FitsPatch(x, gv.code + [jump] + gb.code, checksAt, fx, gb.cs.pool);
    FitsMid(x.(fixes := x.fixes + [fx]), gv.code, jump, gb.code, checksAt, gb.cs.pool, gv.cs.pool);
  }

  lemma SubjectGood(cs: CState, r: nat, cs1: CState)
    requires ExprPost(None, cs, r, cs1)
    ensures Good(cs1) && cs1.locals == cs.locals && cs.pool <= cs1.pool
  {
  }

  // A `try`: its body after `TRY_PUSH`; then, the handler popped, a jump over the code for
  // exceptions to the copy of the `finally` block, if any, that ends the statement.
  ghost predicate TryParts(x: Ctx, s: Stmt, g: Gen, base: nat, cs: CState, loops: seq<Loop>, pending: seq<Stmts>,
      end: nat, csF: CState)
    requires s.Try?
  {
    var gb := GenBlock(s.body, base + 1, cs, loops, WithFin(pending, s.fin));
    var out := base + 1 + |gb.code|;
    && base < |x.p.code| && x.p.code[base].TryPush? && x.p.code[base].t.At?
    && Fits(x, gb.code, base + 1, gb.cs.pool) && Neutral(cs, gb.cs)
    && out + 1 < |x.p.code| && x.p.code[out] == TryPop && x.p.code[out + 1] == Jump(At(end))
    && Neutral(cs, csF)
    && (s.fin.None? ==> base + |g.code| == end && g.cs == csF)
    && (s.fin.Some? ==>
          var gf := GenBlock(s.fin.value, end, csF, loops, pending);
          Fits(x, gf.code, end, gf.cs.pool) && base + |g.code| == end + |gf.code| && g.cs == gf.cs
            && Neutral(csF, gf.cs))
  }

  lemma TryShape(x: Ctx, s: Stmt, base: nat, cs: CState, loops: seq<Loop>, pending: seq<Stmts>)
    returns (end: nat, csF: CState)
    requires s.Try? && Good(cs)
    requires var g := GenStmt(s, base, cs, loops, pending); Fits(x, g.code, base, g.cs.pool)
    ensures TryParts(x, s, GenStmt(s, base, cs, loops, pending), base, cs, loops, pending, end, csF)
  {
    hide GenStmt, GenBlock, Fits, Good, Neutral, GenHandling, WithFin;
    TryCode(s, base, cs, loops, pending);
    var pend := WithFin(pending, s.fin);
    BlockFacts(s.body, base + 1, cs, loops, pend);
    var gb := GenBlock(s.body, base + 1, cs, loops, pend);
    NeutralLocals(cs, gb.cs);
    var catchAt := base + 1 + |gb.code| + 2;
    var gh := GenHandling(s.handler, s.fin, catchAt, gb.cs, loops, pending);
    HandlingFacts(s.handler, s.fin, catchAt, gb.cs, loops, pending);
    NeutralLocals(gb.cs, gh.cs);
    NeutralTrans(cs, gb.cs, gh.cs);
    end, csF := catchAt + |gh.code|, gh.cs;
    var gf := if s.fin.Some? then GenBlock(s.fin.value, end, csF, loops, pending) else Gen([], csF);
    if s.fin.Some? {
      BlockFacts(s.fin.value, end, csF, loops, pending);
      NeutralLocals(csF, gf.cs);
    }
    TryHead(x, base, TryPush(At(catchAt)), gb.code, Jump(At(end)), gh.code, gf.code, gf.cs.pool, gb.cs.pool);
  }

  lemma TryCode(s: Stmt, base: nat, cs: CState, loops: seq<Loop>, pending: seq<Stmts>)
    requires s.Try?
    ensures var gb := GenBlock(s.body, base + 1, cs, loops, WithFin(pending, s.fin));
            var catchAt := base + 1 + |gb.code| + 2;
            var gh := GenHandling(s.handler, s.fin, catchAt, gb.cs, loops, pending);
            var end := catchAt + |gh.code|;
            var gf := if s.fin.Some? then GenBlock(s.fin.value, end, gh.cs, loops, pending) else Gen([], gh.cs);
            GenStmt(s, base, cs, loops, pending)
            == Gen([TryPush(At(catchAt))] + gb.code + [TryPop, Jump(At(end))] + gh.code + gf.code, gf.cs)
  {
    hide GenBlock, GenHandling, WithFin;
  }

  lemma TryHead(x: Ctx, base: nat, push: Instr, body: Code, jump: Instr, rest: Code, tail: Code, pool: seq<Value>,
      pool0: seq<Value>)
    requires Fits(x, [push] + body + [TryPop, jump] + rest + tail, base, pool) && pool0 <= pool
    ensures var out := base + 1 + |body|;
            && base < |x.p.code| && x.p.code[base] == Resolved(push, x.fixes)
            && Fits(x, body, base + 1, pool0)
            && out + 1 < |x.p.code| && x.p.code[out] == TryPop && x.p.code[out + 1] == Resolved(jump, x.fixes)
            && Fits(x, tail, out + 2 + |rest|, pool)
  {
    assert [push] + body + [TryPop, jump] + rest + tail
      == [] + [push] + (body + [TryPop] + ([] + [jump] + (rest + tail)));
    FitsMid(x, [], push, body + [TryPop] + ([] + [jump] + (rest + tail)), base, pool, pool0);
    FitsMid(x, body, TryPop, [] + [jump] + (rest + tail), base + 1, pool, pool0);
    FitsMid(x, [], jump, rest + tail, base + 2 + |body|, pool, pool0);
    FitsCat(x, rest, tail, base + 3 + |body|, pool, pool0);
  }

  lemma ForShape(x: Ctx, s: Stmt, base: nat, cs: CState, loops: seq<Loop>, pending: seq<Stmts>)
    requires s.For? && Good(cs)
    requires var g := GenStmt(s, base, cs, loops, pending); Fits(x, g.code, base, g.cs.pool)
    ensures var gi := match s.init
                      case Some(i) => GenStmt(i, base, PushScope(cs), loops, pending)
                      case None => Gen([], PushScope(cs));
            var gl := GenLoop(s.test, s.post, s.body, false, base + |gi.code|, gi.cs, loops, pending);
            var g := GenStmt(s, base, cs, loops, pending);
            && StmtPost(PushScope(cs), gi.cs) && StmtPost(gi.cs, gl.cs) && StmtPost(PushScope(cs), gl.cs)
            && Good(gi.cs)
            && Fits(x, gi.code, base, gi.cs.pool) && Fits(x, gl.code, base + |gi.code|, gl.cs.pool)
            && |g.code| == |gi.code| + |gl.code| && g.cs == PopScope(gl.cs)
  {
    hide GenLoop, Fits, Good, StmtPost, PopScope;
    PushFacts(cs);
    var cs1 := PushScope(cs);
    var gi := match s.init
              case Some(i) => GenStmt(i, base, cs1, loops, pending)
              case None => Gen([], cs1);
    if s.init.Some? {
      StmtFacts(s.init.value, base, cs1, loops, pending);
    } else {
      PostRefl(cs1);
    }
    PostPool(cs1, gi.cs);
    LoopFacts(s.test, s.post, s.body, false, base + |gi.code|, gi.cs, loops, pending);
    var gl := GenLoop(s.test, s.post, s.body, false, base + |gi.code|, gi.cs, loops, pending);
    PostPool(gi.cs, gl.cs);
    PostTrans(cs1, gi.cs, gl.cs);
    PopPool(gl.cs);
    FitsCat(x, gi.code, gl.code, base, gl.cs.pool, gi.cs.pool);
  }
}
