/** Register discipline of the generated code: which registers are taken, which come back. */
module RegisterDiscipline {
  import opened Options
  import opened Values
  import opened Syntax
  import opened Bytecode
  import opened CodeGen

  ghost predicate Busy(rs: RegState, r: nat) {
    r < rs.next && r !in rs.free
  }

  ghost predicate GoodRegs(rs: RegState) {
    && rs.localsEnd <= rs.next <= rs.max
    && (forall i, j :: 0 <= i < j < |rs.free| ==> rs.free[i] != rs.free[j])
    && (forall f :: f in rs.free ==> rs.localsEnd <= f < rs.next && f !in rs.pinned)
    && (forall p :: p in rs.pinned ==> rs.localsEnd <= p < rs.next)
  }

  // A register the pool never takes back: it holds a parameter or a pinned local.
  ghost predicate Held(rs: RegState, r: nat) {
    r < rs.localsEnd || r in rs.pinned
  }

  // Every local owns a register of its own, which the allocator will not hand out.
  ghost predicate Good(cs: CState) {
    && GoodRegs(cs.rs)
    && (forall i :: 0 <= i < |cs.locals| ==>
          && Busy(cs.rs, cs.locals[i].reg) && Held(cs.rs, cs.locals[i].reg)
          && cs.locals[i].depth <= cs.depth)
    && (forall i, j :: 0 <= i < j < |cs.locals| ==> cs.locals[i].reg != cs.locals[j].reg)
  }

  // `b` has exactly the same registers taken as `a`.
  ghost predicate SameBusy(a: RegState, b: RegState) {
    && a.localsEnd == b.localsEnd && a.pinned == b.pinned && a.max <= b.max
    && forall r :: Busy(b, r) <==> Busy(a, r)
  }

  // `b` has `t`, a temporary that was free in `a`, taken as well.
  ghost predicate PlusTemp(a: RegState, b: RegState, t: nat) {
    && a.localsEnd == b.localsEnd && a.pinned == b.pinned && a.max <= b.max
    && !Busy(a, t) && !Held(b, t)
    && forall r :: Busy(b, r) <==> Busy(a, r) || r == t
  }

  ghost predicate SameScope(a: CState, b: CState) {
    a.locals == b.locals && a.depth == b.depth && a.pool <= b.pool
  }

  lemma AllocFacts(cs: CState)
    requires Good(cs)
    ensures var (r, cs1) := AllocTemp(cs);
            Good(cs1) && SameScope(cs, cs1) && PlusTemp(cs.rs, cs1.rs, r)
  {
    var (r, cs1) := AllocTemp(cs);
    if cs.rs.free != [] {
      assert r == cs.rs.free[|cs.rs.free| - 1] && r in cs.rs.free;
      forall q
        ensures q in cs1.rs.free <==> q in cs.rs.free && q != r
      {
        if q in cs.rs.free && q != r {
          var k :| 0 <= k < |cs.rs.free| && cs.rs.free[k] == q;
          assert cs1.rs.free[k] == q;
        }
      }
    }
  }

  // Returning a temporary to the pool frees it and nothing else.
  lemma FreeFacts(cs: CState, r: nat)
    requires Good(cs) && Busy(cs.rs, r) && !Held(cs.rs, r)
    ensures var cs1 := FreeTemp(cs, r);
            && Good(cs1) && SameScope(cs, cs1)
            && cs1.rs.localsEnd == cs.rs.localsEnd && cs1.rs.pinned == cs.rs.pinned && cs1.rs.max == cs.rs.max
            && forall q :: Busy(cs1.rs, q) <==> Busy(cs.rs, q) && q != r
  {
    var cs1 := FreeTemp(cs, r);
    forall q
      ensures q in cs1.rs.free <==> q in cs.rs.free || q == r
    {
    }
  }

  // A local's own slot is never returned to the pool by `free`.
  lemma FreeHeld(cs: CState, r: nat)
    requires Held(cs.rs, r)
    ensures FreeTemp(cs, r) == cs
  {
  }

  lemma {:induction false} SlotFacts(locals: seq<Local>, x: string) returns (i: nat)
    requires Slot(locals, x).Some?
    ensures i < |locals| && locals[i].name == x && locals[i].reg == Slot(locals, x).value
    decreases |locals|
  {
    if locals[|locals| - 1].name == x {
      i := |locals| - 1;
    } else {
      i := SlotFacts(locals[..|locals| - 1], x);
    }
  }

  lemma {:induction false} SlotNone(locals: seq<Local>, x: string)
    ensures Slot(locals, x).None? <==> forall i :: 0 <= i < |locals| ==> locals[i].name != x
    decreases |locals|
  {
    if locals != [] {
      SlotNone(locals[..|locals| - 1], x);
      if Slot(locals, x).Some? {
        var i := SlotFacts(locals, x);
      } else {
        assert forall i :: 0 <= i < |locals| - 1 ==> locals[..|locals| - 1][i] == locals[i];
      }
    }
  }

  ghost predicate DestOk(dest: Option<nat>, cs: CState) {
    dest.Some? ==> Busy(cs.rs, dest.value) && !Held(cs.rs, dest.value)
  }

  // What compiling an expression does to the registers: with a destination nothing is kept
  // besides it; without one, either the expression is a bare local and its own slot is the
  // result, or exactly one fresh temporary stays taken.
  ghost predicate ExprPost(dest: Option<nat>, cs: CState, r: nat, cs1: CState) {
    && Good(cs1) && SameScope(cs, cs1)
    && (dest.Some? ==> r == dest.value && SameBusy(cs.rs, cs1.rs))
    && (dest.None? ==> (SameBusy(cs.rs, cs1.rs) && Held(cs.rs, r) && Busy(cs.rs, r)) || PlusTemp(cs.rs, cs1.rs, r))
  }

  lemma DestFacts(dest: Option<nat>, cs: CState)
    requires Good(cs) && DestOk(dest, cs)
    ensures var (r, cs1) := Dest(dest, cs);
            && Good(cs1) && ExprPost(dest, cs, r, cs1)
            && DestOk(Some(r), cs1)
            && Busy(cs1.rs, r) && !Held(cs1.rs, r)
  {
    AllocFacts(cs);
  }

  // After an operand's result is freed, the registers are as before it was compiled.
  lemma FreeResult(cs: CState, r: nat, cs1: CState)
    requires Good(cs) && ExprPost(None, cs, r, cs1)
    ensures var cs2 := FreeTemp(cs1, r);
            Good(cs2) && SameScope(cs, cs2) && SameBusy(cs.rs, cs2.rs)
  {
    if Held(cs.rs, r) {
      FreeHeld(cs1, r);
    } else {
      FreeFacts(cs1, r);
    }
  }

  // Freeing a result compiled before the temporary `t` was taken.
  lemma FreeBelow(cs: CState, r: nat, cs1: CState, cs2: CState, dest: Option<nat>, t: nat)
    requires Good(cs) && DestOk(dest, cs) && ExprPost(None, cs, r, cs1) && ExprPost(dest, cs1, t, cs2)
    requires dest.None? ==> PlusTemp(cs1.rs, cs2.rs, t)
    ensures ExprPost(dest, cs, t, FreeTemp(cs2, r))
  {
    if Held(cs.rs, r) {
      FreeHeld(cs2, r);
    } else {
      FreeFacts(cs2, r);
    }
  }

  lemma DestSame(dest: Option<nat>, cs: CState, cs1: CState)
    requires DestOk(dest, cs) && SameBusy(cs.rs, cs1.rs)
    ensures DestOk(dest, cs1)
  {
  }

  lemma ExprSeq(dest: Option<nat>, cs: CState, r: nat, cs1: CState, cs2: CState)
    requires ExprPost(dest, cs, r, cs1)
    requires DestOk(Some(r), cs1)
    requires ExprPost(Some(r), cs1, r, cs2)
    ensures Good(cs2) && ExprPost(dest, cs, r, cs2) && DestOk(Some(r), cs2)
  {
  }

  lemma LoadFacts(dest: nat, v: Value, cs: CState)
    requires Good(cs)
    ensures var g := LoadValue(dest, v, cs); Good(g.cs) && SameScope(cs, g.cs) && g.cs.rs == cs.rs
  {
  }

  ghost predicate ExprResult(e: Expr, dest: Option<nat>, base: nat, cs: CState) {
    var g := GenExpr(e, dest, base, cs);
    && ExprPost(dest, cs, g.r, g.cs)
    && (dest.None? && !(e.Var? && Slot(cs.locals, e.x).Some?) ==> PlusTemp(cs.rs, g.cs.rs, g.r))
  }

  lemma {:induction false} ExprFacts(e: Expr, dest: Option<nat>, base: nat, cs: CState)
    requires Good(cs) && DestOk(dest, cs)
    ensures ExprResult(e, dest, base, cs)
    decreases e, 2
  {
    match e
    case Lit(v) =>
      DestFacts(dest, cs);
      LoadFacts(Dest(dest, cs).0, v, Dest(dest, cs).1);
    case Var(x) =>
      if Slot(cs.locals, x).Some? {
        var i := SlotFacts(cs.locals, x);
      } else {
        DestFacts(dest, cs);
      }
    case Un(op, a) =>
      ExprFacts(a, None, base, cs);
      var ga := GenExpr(a, None, base, cs);
      OneOperand(dest, cs, ga.r, ga.cs);
    case Bin(_, _, _) => BinFacts(e, dest, base, cs);
    case Logical(_, _, _) => LogicalFacts(e, dest, base, cs);
    case Coalesce(_, _) => CoalesceFacts(e, dest, base, cs);
    case Ternary(_, _, _) => TernaryFacts(e, dest, base, cs);
  }

  lemma OneOperand(dest: Option<nat>, cs: CState, ra: nat, csA: CState)
    requires Good(cs) && DestOk(dest, cs) && ExprPost(None, cs, ra, csA)
    ensures DestOk(dest, csA)
    ensures var (r, cs1) := Dest(dest, csA);
            var cs2 := FreeTemp(cs1, ra);
            Good(cs2) && ExprPost(dest, cs, r, cs2) && DestOk(Some(r), cs2)
              && (dest.None? ==> PlusTemp(cs.rs, cs2.rs, r))
  {
    DestFacts(dest, csA);
    var (r, cs1) := Dest(dest, csA);
    FreeBelow(cs, ra, csA, cs1, dest, r);
  }

  // A result that is not a local's slot is a temporary.
  lemma StillTemp(dest: Option<nat>, cs: CState, r: nat, cs1: CState)
    requires ExprPost(dest, cs, r, cs1) && DestOk(Some(r), cs1)
    ensures dest.None? ==> PlusTemp(cs.rs, cs1.rs, r)
  {
  }

  lemma TwoOperands(dest: Option<nat>, cs: CState, ra: nat, csA: CState, rb: nat, csB: CState)
    requires Good(cs) && DestOk(dest, cs) && ExprPost(None, cs, ra, csA) && ExprPost(None, csA, rb, csB)
    ensures var (r, cs1) := Dest(dest, csB);
            var cs2 := FreeTemp(FreeTemp(cs1, rb), ra);
            ExprPost(dest, cs, r, cs2) && (dest.None? ==> PlusTemp(cs.rs, cs2.rs, r))
  {
    DestFacts(dest, csB);
    var (r, cs1) := Dest(dest, csB);
    FreeBelow(csA, rb, csB, cs1, dest, r);
    FreeBelow(cs, ra, csA, FreeTemp(cs1, rb), dest, r);
  }

  // A destination taken where the registers are as in `cs`, then filled by two branches.
  lemma TwoBranches(dest: Option<nat>, cs: CState, cs0: CState, csT: CState, csF: CState)
    requires Good(cs) && Good(cs0) && DestOk(dest, cs) && SameScope(cs, cs0) && SameBusy(cs.rs, cs0.rs)
    requires var (r, cs1) := Dest(dest, cs0); ExprPost(Some(r), cs1, r, csT) && ExprPost(Some(r), csT, r, csF)
    ensures var (r, cs1) := Dest(dest, cs0);
            ExprPost(dest, cs, r, csF) && (dest.None? ==> PlusTemp(cs.rs, csF.rs, r))
  {
    DestFacts(dest, cs0);
    var (r, cs1) := Dest(dest, cs0);
    ExprSeq(dest, cs0, r, cs1, csT);
    ExprSeq(dest, cs0, r, csT, csF);
  }

  lemma {:induction false} BinFacts(e: Expr, dest: Option<nat>, base: nat, cs: CState)
    requires e.Bin? && Good(cs) && DestOk(dest, cs)
    ensures ExprResult(e, dest, base, cs)
    decreases e, 0
  {
    hide Good, GoodRegs, SameBusy, PlusTemp, Held, Busy, SameScope, DestOk;
    ExprFacts(e.l, None, base, cs);
    var ga := GenExpr(e.l, None, base, cs);
    ExprFacts(e.r, None, base + |ga.code|, ga.cs);
    var gb := GenExpr(e.r, None, base + |ga.code|, ga.cs);
    TwoOperands(dest, cs, ga.r, ga.cs, gb.r, gb.cs);
  }

  lemma {:induction false} LogicalFacts(e: Expr, dest: Option<nat>, base: nat, cs: CState)
    requires e.Logical? && Good(cs) && DestOk(dest, cs)
    ensures ExprResult(e, dest, base, cs)
    decreases e, 0
  {
    hide Good, GoodRegs, SameBusy, PlusTemp, Held, Busy, SameScope, DestOk;
    hide Dest, AllocTemp, Alloc, FreeTemp, Free, Slot, AddConst, LoadValue;
    DestFacts(dest, cs);
    var (r, cs1) := Dest(dest, cs);
    ExprFacts(e.l, Some(r), base, cs1);
    var ga := GenExpr(e.l, Some(r), base, cs1);
    ExprSeq(dest, cs, r, cs1, ga.cs);
    ExprFacts(e.r, Some(r), base + |ga.code| + 1, ga.cs);
    var gb := GenExpr(e.r, Some(r), base + |ga.code| + 1, ga.cs);
    ExprSeq(dest, cs, r, ga.cs, gb.cs);
    StillTemp(dest, cs, r, gb.cs);
  }

  lemma {:induction false} CoalesceFacts(e: Expr, dest: Option<nat>, base: nat, cs: CState)
    requires e.Coalesce? && Good(cs) && DestOk(dest, cs)
    ensures ExprResult(e, dest, base, cs)
    decreases e, 0
  {
    hide Good, GoodRegs, SameBusy, PlusTemp, Held, Busy, SameScope, DestOk;
    hide Dest, AllocTemp, Alloc, FreeTemp, Free, Slot, AddConst, LoadValue;
    ExprFacts(e.l, None, base, cs);
    var ga := GenExpr(e.l, None, base, cs);
    OneOperand(dest, cs, ga.r, ga.cs);
    var (r, cs1) := Dest(dest, ga.cs);
    var cs2 := FreeTemp(cs1, ga.r);
    ExprFacts(e.r, Some(r), base + |ga.code| + 3, cs2);
    var gb := GenExpr(e.r, Some(r), base + |ga.code| + 3, cs2);
    ExprSeq(dest, cs, r, cs2, gb.cs);
    StillTemp(dest, cs, r, gb.cs);
  }

  lemma {:induction false} TernaryFacts(e: Expr, dest: Option<nat>, base: nat, cs: CState)
    requires e.Ternary? && Good(cs) && DestOk(dest, cs)
    ensures ExprResult(e, dest, base, cs)
    decreases e, 1
  {
    hide Good, GoodRegs, SameBusy, PlusTemp, Held, Busy, SameScope, DestOk, ExprPost;
    hide Dest, AllocTemp, Alloc, FreeTemp, Free, Slot, AddConst, LoadValue;
    ExprFacts(e.c, None, base, cs);
    var gc := GenExpr(e.c, None, base, cs);
    FreeResult(cs, gc.r, gc.cs);
    var cs0 := FreeTemp(gc.cs, gc.r);
    DestSame(dest, cs, cs0);
    BranchFacts(e, dest, base + |gc.code| + 1, cs0);
    var (r, cs1) := Dest(dest, cs0);
    var gt := GenExpr(e.t, Some(r), base + |gc.code| + 1, cs1);
    var alt := base + |gc.code| + 1 + |gt.code| + 1;
    var gf := GenExpr(e.f, Some(r), alt, gt.cs);
    TwoBranches(dest, cs, cs0, gt.cs, gf.cs);
  }

  lemma {:induction false} BranchFacts(e: Expr, dest: Option<nat>, base: nat, cs0: CState)
    requires e.Ternary? && Good(cs0) && DestOk(dest, cs0)
    ensures var (r, cs1) := Dest(dest, cs0);
            var gt := GenExpr(e.t, Some(r), base, cs1);
            var gf := GenExpr(e.f, Some(r), base + |gt.code| + 1, gt.cs);
            ExprPost(Some(r), cs1, r, gt.cs) && ExprPost(Some(r), gt.cs, r, gf.cs)
    decreases e, 0
  {
    DestFacts(dest, cs0);
    var (r, cs1) := Dest(dest, cs0);
    ExprFacts(e.t, Some(r), base, cs1);
    var gt := GenExpr(e.t, Some(r), base, cs1);
    ExprFacts(e.f, Some(r), base + |gt.code| + 1, gt.cs);
  }
}
