/** Scope discipline of the generated code: locals appear, and go, with their scope. */
module ScopeDiscipline {
  import opened Options
  import opened Values
  import opened Syntax
  import opened Bytecode
  import opened CodeGen
  import opened RegisterDiscipline

  ghost predicate OwnsSlot(cs: CState, from: nat, r: nat) {
    exists i :: from <= i < |cs.locals| && cs.locals[i].reg == r
  }

  // `cs1` is `cs` with some new locals of the current scope, each in a register that was
  // free.
  ghost predicate ScopePost(cs: CState, cs1: CState) {
    && Good(cs1)
    && cs.locals <= cs1.locals && cs1.depth == cs.depth && cs.pool <= cs1.pool
    && cs1.rs.localsEnd == cs.rs.localsEnd && cs.rs.max <= cs1.rs.max
    && (forall i :: |cs.locals| <= i < |cs1.locals| ==>
          && cs1.locals[i].depth == cs.depth
          && !Busy(cs.rs, cs1.locals[i].reg) && cs1.locals[i].reg >= cs.rs.localsEnd)
    && (forall r :: r in cs1.rs.pinned <==> r in cs.rs.pinned || OwnsSlot(cs1, |cs.locals|, r))
    && (forall r :: Busy(cs1.rs, r) <==> Busy(cs.rs, r) || OwnsSlot(cs1, |cs.locals|, r))
  }

  // Moreover no new local has the name of an older one: assignments declare a name only when
  // it is not a local yet.
  ghost predicate StmtPost(cs: CState, cs1: CState) {
    && ScopePost(cs, cs1)
    && forall i :: |cs.locals| <= i < |cs1.locals| ==> Slot(cs.locals, cs1.locals[i].name).None?
  }

  // Locals and registers are as before; only the constant pool may have grown.
  ghost predicate Neutral(cs: CState, cs1: CState) {
    Good(cs1) && SameScope(cs, cs1) && SameBusy(cs.rs, cs1.rs)
  }

  lemma NeutralIsPost(cs: CState, cs1: CState)
    requires Neutral(cs, cs1)
    ensures StmtPost(cs, cs1)
  {
  }

  lemma NeutralTrans(a: CState, b: CState, c: CState)
    requires Neutral(a, b) && Neutral(b, c)
    ensures Neutral(a, c)
  {
  }

  // A neutral step before or after one that may declare locals.
  lemma NeutralThen(a: CState, b: CState, c: CState)
    requires Neutral(a, b) && StmtPost(b, c)
    ensures StmtPost(a, c)
  {
  }

  lemma ThenNeutral(a: CState, b: CState, c: CState)
    requires StmtPost(a, b) && Neutral(b, c)
    ensures StmtPost(a, c)
  {
    assert forall r :: OwnsSlot(b, |a.locals|, r) <==> OwnsSlot(c, |a.locals|, r);
  }

  lemma PostTrans(a: CState, b: CState, c: CState)
    requires StmtPost(a, b) && StmtPost(b, c)
    ensures StmtPost(a, c)
  {
    forall r
      ensures OwnsSlot(c, |a.locals|, r) <==> OwnsSlot(b, |a.locals|, r) || OwnsSlot(c, |b.locals|, r)
    {
      if OwnsSlot(b, |a.locals|, r) {
        var i :| |a.locals| <= i < |b.locals| && b.locals[i].reg == r;
        assert c.locals[i] == b.locals[i];
      }
      if OwnsSlot(c, |a.locals|, r) {
        var i :| |a.locals| <= i < |c.locals| && c.locals[i].reg == r;
        if i < |b.locals| {
          assert c.locals[i] == b.locals[i];
        }
      }
    }
    forall i | |a.locals| <= i < |c.locals|
      ensures c.locals[i].depth == a.depth && !Busy(a.rs, c.locals[i].reg) && Slot(a.locals, c.locals[i].name).None?
    {
      if i < |b.locals| {
        assert c.locals[i] == b.locals[i];
      } else {
        SlotNone(b.locals, c.locals[i].name);
        SlotNone(a.locals, c.locals[i].name);
        assert forall k :: 0 <= k < |a.locals| ==> a.locals[k] == b.locals[k];
      }
    }
  }

  lemma PushFacts(cs: CState)
    requires Good(cs)
    ensures Good(PushScope(cs))
  {
  }

  function PopOne(cs: CState): CState
    requires cs.locals != []
  {
    cs.(rs := FreeLocal(cs.rs, cs.locals[|cs.locals| - 1].reg), locals := cs.locals[..|cs.locals| - 1])
  }

  lemma PopOneRegs(cs: CState)
    requires Good(cs) && cs.locals != []
    requires cs.locals[|cs.locals| - 1].reg >= cs.rs.localsEnd
    ensures var last := cs.locals[|cs.locals| - 1].reg; var p := PopOne(cs);
            && Good(p) && p.rs.localsEnd == cs.rs.localsEnd && p.rs.max == cs.rs.max
            && (forall r :: r in p.rs.pinned <==> r in cs.rs.pinned && r != last)
            && (forall r :: Busy(p.rs, r) <==> Busy(cs.rs, r) && r != last)
  {
    var last := cs.locals[|cs.locals| - 1].reg;
    var p := PopOne(cs);
    assert forall q :: q in p.rs.free <==> q in cs.rs.free || q == last;
  }

  lemma PopOneFacts(cs: CState, cs1: CState)
    requires Good(cs) && ScopePost(cs, cs1) && |cs1.locals| > |cs.locals|
    ensures ScopePost(cs, PopOne(cs1))
  {
    var n := |cs1.locals|;
    var last := cs1.locals[n - 1].reg;
    var p := PopOne(cs1);
    PopOneRegs(cs1);
    forall r
      ensures OwnsSlot(cs1, |cs.locals|, r) <==> OwnsSlot(p, |cs.locals|, r) || r == last
      ensures r == last ==> !OwnsSlot(p, |cs.locals|, r)
    {
      if OwnsSlot(cs1, |cs.locals|, r) && r != last {
        var i :| |cs.locals| <= i < n && cs1.locals[i].reg == r;
        assert p.locals[i].reg == r;
      }
    }
    assert OwnsSlot(cs1, |cs.locals|, last);
  }

  // The locals of the scope, last first, give their registers back.
  lemma {:induction false} PopLocalsFacts(cs: CState, cs1: CState)
    requires Good(cs) && ScopePost(PushScope(cs), cs1)
    ensures var p := PopLocals(cs1);
            && p.depth == cs1.depth && p.locals == cs.locals && cs.pool <= p.pool
            && GoodRegs(p.rs) && SameBusy(cs.rs, p.rs)
    decreases |cs1.locals|
  {
    var n := |cs1.locals|;
    if n > |cs.locals| {
      PopOneFacts(PushScope(cs), cs1);
      PopLocalsFacts(cs, PopOne(cs1));
    } else {
      assert cs1.locals == cs.locals;
      assert forall r :: !OwnsSlot(cs1, |cs.locals|, r);
      if n > 0 {
        assert cs1.locals[n - 1].depth <= cs.depth;
      }
    }
  }

  lemma PopFacts(cs: CState, cs1: CState)
    requires Good(cs) && ScopePost(PushScope(cs), cs1)
    ensures Neutral(cs, PopScope(cs1))
  {
    PopLocalsFacts(cs, cs1);
  }

  lemma DeclareFacts(cs: CState, x: string)
    requires Good(cs) && Slot(cs.locals, x).None?
    ensures var (s, cs1) := DeclareLocal(cs, x);
            StmtPost(cs, cs1) && |cs1.locals| == |cs.locals| + 1
  {
    DeclareInScope(cs, x);
  }

  lemma DeclareInScope(cs: CState, x: string)
    requires Good(cs)
    ensures var (s, cs1) := DeclareLocal(cs, x);
            && ScopePost(cs, cs1) && cs1.locals == cs.locals + [Local(x, s, cs.depth)]
  {
    AllocFacts(cs);
    var (s, cs1) := DeclareLocal(cs, x);
    assert cs1.locals[|cs.locals|].reg == s;
    assert OwnsSlot(cs1, |cs.locals|, s);
    assert forall r :: OwnsSlot(cs1, |cs.locals|, r) ==> r == s;
  }

  // An expression compiled and its result freed.
  lemma ExprNeutral(e: Expr, base: nat, cs: CState)
    requires Good(cs)
    ensures var g := GenExpr(e, None, base, cs);
            && ExprPost(None, cs, g.r, g.cs)
            && Neutral(cs, FreeTemp(g.cs, g.r))
  {
    ExprFacts(e, None, base, cs);
    var g := GenExpr(e, None, base, cs);
    FreeResult(cs, g.r, g.cs);
  }

  lemma AllocNeutral(cs: CState)
    requires Good(cs)
    ensures var (r, cs1) := AllocTemp(cs);
            && Good(cs1) && Busy(cs1.rs, r) && !Held(cs1.rs, r)
            && ExprPost(None, cs, r, cs1) && PlusTemp(cs.rs, cs1.rs, r)
            && Neutral(cs, FreeTemp(cs1, r))
  {
    AllocFacts(cs);
    var (r, cs1) := AllocTemp(cs);
    FreeResult(cs, r, cs1);
  }
}
