/** The steps of the compiler, one construct at a time: from what each of its calls has left to
    what the construct's function of `CodeGen` says. */
module CompilerSteps {
  import opened Options
  import opened Values
  import opened Syntax
  import opened Bytecode
  import opened CodeGen
  import opened Discipline
  import opened SwitchProof
  import opened Emission
  import opened Theorems
  import opened Patching

  // What an expression compiled since `a` leaves.
  ghost predicate DidExpr(a: Snap, e: Expr, dest: Option<nat>, r: nat, b: Snap) {
    var g := GenExpr(e, dest, |a.code|, a.cs);
    r == g.r && After(a, g.code, g.cs, b)
  }

  // ---------- expressions, step by step ----------

  lemma DidMore(a: Snap, e: Expr, dest: Option<nat>, r: nat, b: Snap)
    requires DidExpr(a, e, dest, r, b)
    ensures |a.code| <= |b.code| && |a.stack| == |b.stack|
  {
    hide After, GenExpr;
    var g := GenExpr(e, dest, |a.code|, a.cs);
    AfterFacts(a, g.code, g.cs, b);
  }

  lemma UnaryDone(a: Snap, op: UnOp, e: Expr, dest: Option<nat>, operand: nat, b: Snap, r: nat, c: Snap, d: Snap,
      f: Snap)
    requires DidExpr(a, e, None, operand, b)
    requires (r, c.cs) == Dest(dest, b.cs) && c == b.(cs := c.cs)
    requires d == c.(code := c.code + [Un1(op, r, operand)]) && f == d.(cs := FreeTemp(d.cs, operand))
    ensures DidExpr(a, Un(op, e), dest, r, f)
  {
    hide After, FreeTemp, Dest;
    var g := GenExpr(e, None, |a.code|, a.cs);
    AfterFacts(a, g.code, g.cs, b);
    AfterNext(a, g.code, g.cs, b, c, Un1(op, r, operand), d, f);
  }

  lemma BinaryDone(a: Snap, op: BinOp, l: Expr, rhs: Expr, dest: Option<nat>, x: nat, b: Snap, y: nat, c: Snap, r: nat,
      d: Snap, f: Snap)
    requires DidExpr(a, l, None, x, b) && DidExpr(b, rhs, None, y, c)
    requires (r, d.cs) == Dest(dest, c.cs) && d == c.(cs := d.cs)
    requires f == d.(code := d.code + [Bin2(op, r, x, y)], cs := FreeTemp(FreeTemp(d.cs, y), x))
    ensures DidExpr(a, Bin(op, l, rhs), dest, r, f)
  {
    hide After, FreeTemp, Dest;
    var ga := GenExpr(l, None, |a.code|, a.cs);
    AfterFacts(a, ga.code, ga.cs, b);
    var gb := GenExpr(rhs, None, |b.code|, b.cs);
    AfterFacts(b, gb.code, gb.cs, c);
    AfterCat(a, ga.code, ga.cs, b, gb.code, gb.cs, c);
    AfterNext(a, ga.code + gb.code, gb.cs, c, d, Bin2(op, r, x, y), d.(code := d.code + [Bin2(op, r, x, y)]), f);
  }

  lemma LogicalDone(a: Snap, isAnd: bool, l: Expr, rhs: Expr, dest: Option<nat>, r: nat, b: Snap, x: nat, c: Snap,
      d: Snap, y: nat, e: Snap, f: Snap)
    requires (r, b.cs) == Dest(dest, a.cs) && b == a.(cs := b.cs)
    requires DidExpr(b, l, Some(r), x, c)
    requires d == c.(code := c.code + [if isAnd then JumpIfFalse(r, At(0)) else JumpIfTrue(r, At(0))])
    requires DidExpr(d, rhs, Some(r), y, e)
    requires f == e.(code := Retargeted(e.code, 0, [|c.code|], |e.code|))
    ensures DidExpr(a, Logical(isAnd, l, rhs), dest, r, f)
  {
    hide After, Retargeted, Dest;
    var ga := GenExpr(l, Some(r), |b.code|, b.cs);
    var gb := GenExpr(rhs, Some(r), |d.code|, d.cs);
    var hole := if isAnd then JumpIfFalse(r, At(0)) else JumpIfTrue(r, At(0));
    FromState(a, b, ga.code, ga.cs, c);
    AfterFacts(a, ga.code, ga.cs, c);
    AfterNext(a, ga.code, ga.cs, c, c, hole, d, d);
    AfterFacts(a, ga.code + [hole], ga.cs, d);
    AfterCat(a, ga.code + [hole], ga.cs, d, gb.code, gb.cs, e);
    AfterFacts(a, ga.code + [hole] + gb.code, gb.cs, e);
    PatchOne(a, ga.code, hole, gb.code, gb.cs, e, |e.code|, f);
  }

  lemma CoalesceDone(a: Snap, l: Expr, rhs: Expr, dest: Option<nat>, lhs: nat, b: Snap, r: nat, c: Snap, d: Snap,
      e: Snap, h: Snap, y: nat, i: Snap, j: Snap)
    requires DidExpr(a, l, None, lhs, b)
    requires (r, c.cs) == Dest(dest, b.cs) && c == b.(cs := c.cs)
    requires d == c.(code := c.code + [JumpIfNull(lhs, At(0))])
    requires e == d.(code := d.code + [Move(r, lhs)], cs := FreeTemp(d.cs, lhs))
    requires h == Crossed(e, |b.code|)
    requires DidExpr(h, rhs, Some(r), y, i)
    requires j == i.(code := Retargeted(i.code, 0, [|e.code|], |i.code|))
    ensures DidExpr(a, Coalesce(l, rhs), dest, r, j)
  {
    hide After, Retargeted, Dest, FreeTemp, Crossed, GenExpr;
    var ga := GenExpr(l, None, |a.code|, a.cs);
    var gb := GenExpr(rhs, Some(r), |h.code|, h.cs);
    AfterFacts(a, ga.code, ga.cs, b);
    var move := Move(r, lhs);
    AfterInstr(d, move, d.(code := d.code + [move]));
    AfterState(d, [move], d.cs, d.(code := d.code + [move]), e.cs, e);
    CrossedSize(e, |b.code|);
    AfterFacts(h, gb.code, gb.cs, i);
    Diamond(a, ga.code, ga.cs, b, JumpIfNull(lhs, At(0)), d, [move], e.cs, e, h, gb.code, gb.cs, i, j);
    CoalesceGen(l, rhs, dest, |a.code|, a.cs);
    var alt := |a.code| + |ga.code| + 3;
    assert ga.code + [JumpIfNull(lhs, At(alt))] + [move] + [Jump(At(|i.code|))] + gb.code
        == ga.code + [JumpIfNull(lhs, At(alt)), move, Jump(At(|i.code|))] + gb.code;
  }

  lemma TernaryDone(a: Snap, c0: Expr, t: Expr, f: Expr, dest: Option<nat>, cond: nat, b: Snap, c: Snap, r: nat,
      d: Snap, x: nat, e: Snap, h: Snap, y: nat, i: Snap, j: Snap)
    requires DidExpr(a, c0, None, cond, b)
    requires c == b.(code := b.code + [JumpIfFalse(cond, At(0))], cs := FreeTemp(b.cs, cond))
    requires (r, d.cs) == Dest(dest, c.cs) && d == c.(cs := d.cs)
    requires DidExpr(d, t, Some(r), x, e)
    requires h == Crossed(e, |b.code|)
    requires DidExpr(h, f, Some(r), y, i)
    requires j == i.(code := Retargeted(i.code, 0, [|e.code|], |i.code|))
    ensures DidExpr(a, Ternary(c0, t, f), dest, r, j)
  {
    hide After, Retargeted, Dest, FreeTemp, Crossed, GenExpr;
    var gc := GenExpr(c0, None, |a.code|, a.cs);
    var gt := GenExpr(t, Some(r), |d.code|, d.cs);
    var gf := GenExpr(f, Some(r), |h.code|, h.cs);
    AfterFacts(a, gc.code, gc.cs, b);
    AfterFacts(d, gt.code, gt.cs, e);
    CrossedSize(e, |b.code|);
    AfterFacts(h, gf.code, gf.cs, i);
    Diamond(a, gc.code, gc.cs, b, JumpIfFalse(cond, At(0)), d, gt.code, gt.cs, e, h, gf.code, gf.cs, i, j);
    TernaryGen(c0, t, f, dest, |a.code|, a.cs);
  }

  // ---------- effects, step by step ----------

  // What an effect compiled as an expression leaves.
  ghost predicate DidEffect(a: Snap, f: Effect, r: nat, b: Snap) {
    var g := GenEffectValue(f, |a.code|, a.cs);
    r == g.r && After(a, g.code, g.cs, b)
  }

  function CompoundedLocal(b: Snap, op: BinOp, slot: nat, val: nat): Snap {
    var (cur, cs1) := AllocTemp(b.cs);
    var (tmp, cs2) := AllocTemp(cs1);
    b.(code := b.code + [Move(cur, slot)] + [Bin2(op, tmp, cur, val)] + [Move(slot, tmp)],
       cs := FreeTemp(FreeTemp(FreeTemp(cs2, cur), val), tmp))
  }

  function CompoundedNew(b: Snap, x: string, op: BinOp, val: nat): Snap {
    var (k, cs0) := AddConst(b.cs, Str(x));
    var (cur, cs1) := AllocTemp(cs0);
    var (tmp, cs2) := AllocTemp(cs1);
    var (s, cs3) := DeclareLocal(FreeTemp(FreeTemp(cs2, cur), val), x);
    b.(code := b.code + [LoadGlobal(cur, k)] + [Bin2(op, tmp, cur, val)] + [Move(s, tmp)], cs := FreeTemp(cs3, tmp))
  }

  // What an assignment does once its right-hand side is compiled.
  function Assigned(b: Snap, slot: Option<nat>, x: string, aop: AssignOp, val: nat): Snap {
    if slot.Some? then
      if aop.Plain? then b.(code := b.code + [Move(slot.value, val)], cs := FreeTemp(b.cs, val))
      else if aop.op == Concat then
        b.(code := b.code + [Bin2(Concat, slot.value, slot.value, val)], cs := FreeTemp(b.cs, val))
      else CompoundedLocal(b, aop.op, slot.value, val)
    else if aop.Plain? then
      var (s, cs1) := DeclareLocal(b.cs, x);
      b.(code := b.code + [Move(s, val)], cs := FreeTemp(cs1, val))
    else CompoundedNew(b, x, aop.op, val)
  }

  lemma AssignDone(a: Snap, x: string, aop: AssignOp, rhs: Expr, val: nat, b: Snap, c: Snap)
    requires DidExpr(a, rhs, None, val, b)
    requires c == Assigned(b, Slot(a.cs.locals, x), x, aop, val)
    ensures var g := GenAssign(x, aop, rhs, |a.code|, a.cs); After(a, g.code, g.cs, c)
  {
    hide After, AllocTemp, FreeTemp, DeclareLocal, AddConst, GenExpr;
    var ge := GenExpr(rhs, None, |a.code|, a.cs);
    var g := GenAssign(x, aop, rhs, |a.code|, a.cs);
    AfterFacts(a, ge.code, ge.cs, b);
    var tail := c.code[|b.code|..];
    assert c.code == b.code + tail;
    if |tail| == 1 {
      assert tail == [tail[0]] && g.code == ge.code + tail;
    } else {
      assert tail == [tail[0], tail[1], tail[2]] && g.code == ge.code + tail;
    }
    AfterTail(a, ge.code, ge.cs, b, tail, c);
  }

  function Stepped(op: BinOp, slot: Option<nat>, k: nat, nv: nat, r: nat, one: nat, prefix: bool): Code {
    [Bin2(op, nv, r, one), if slot.Some? then Move(slot.value, nv) else StoreGlobal(nv, k)]
    + (if prefix then [Move(r, nv)] else [])
  }

  lemma IncDecDone(a: Snap, x: string, inc: bool, prefix: bool, one: nat, r: nat, b: Snap, k: nat, c: Snap, nv: nat,
      d: Snap, e: Snap)
    requires var (o, cs1) := AllocTemp(a.cs); var (q, cs2) := AllocTemp(cs1);
             one == o && r == q && b == a.(code := a.code + [LoadInt(one, 1)], cs := cs2)
    requires var slot := Slot(a.cs.locals, x);
             if slot.Some? then c == b.(code := b.code + [Move(r, slot.value)]) && k == 0
             else (k, c.cs) == AddConst(b.cs, Str(x)) && c == b.(code := b.code + [LoadGlobal(r, k)], cs := c.cs)
    requires (nv, d.cs) == AllocTemp(c.cs) && d == c.(cs := d.cs)
    requires e == d.(code := d.code + Stepped(if inc then Add else Sub, Slot(a.cs.locals, x), k, nv, r, one, prefix),
                     cs := FreeTemp(FreeTemp(d.cs, nv), one))
    ensures DidEffect(a, IncDec(x, inc, prefix), r, e)
  {
    hide After, AllocTemp, FreeTemp, AddConst, Slot, Stepped, Settled, GenIncDec, GenExpr, GenAssign;
    var g := GenIncDec(x, inc, prefix, a.cs);
    IncDecCode(x, inc, prefix, a.cs);
    var slot := Slot(a.cs.locals, x);
    var load := if slot.Some? then Move(r, slot.value) else LoadGlobal(r, k);
    var step := Stepped(if inc then Add else Sub, slot, k, nv, r, one, prefix);
    assert a.code + [LoadInt(one, 1)] + [load] + step == a.code + ([LoadInt(one, 1), load] + step);
    AfterNothing(a);
    AfterTail(a, [], a.cs, a, g.code, e);
    assert [] + g.code == g.code;
  }

  lemma IncDecCode(x: string, inc: bool, prefix: bool, cs: CState)
    ensures var (one, cs1) := AllocTemp(cs);
            var (r, cs2) := AllocTemp(cs1);
            var slot := Slot(cs.locals, x);
            var (k, cs3) := if slot.Some? then (0, cs2) else AddConst(cs2, Str(x));
            var (nv, cs4) := AllocTemp(cs3);
            var load := if slot.Some? then Move(r, slot.value) else LoadGlobal(r, k);
            var c := [LoadInt(one, 1), load] + Stepped(if inc then Add else Sub, slot, k, nv, r, one, prefix);
            && Settled(c)
            && GenIncDec(x, inc, prefix, cs) == GenE(c, r, FreeTemp(FreeTemp(cs4, nv), one))
  {
    hide AllocTemp, FreeTemp, AddConst, Slot;
  }

  lemma LocalsKept(dest: Option<nat>, cs: CState)
    ensures Dest(dest, cs).1.locals == cs.locals && AllocTemp(cs).1.locals == cs.locals
    ensures forall r :: FreeTemp(cs, r).locals == cs.locals
    ensures forall v :: AddConst(cs, v).1.locals == cs.locals
    ensures forall r, v :: LoadValue(r, v, cs).cs.locals == cs.locals
  {
  }

  // An expression leaves the locals as they are.
  lemma {:induction false} ExprLocals(e: Expr, dest: Option<nat>, base: nat, cs: CState)
    ensures GenExpr(e, dest, base, cs).cs.locals == cs.locals
    decreases e, 1
  {
    hide AllocTemp, FreeTemp, Dest, AddConst, LoadValue;
    LocalsKept(dest, cs);
    match e
    case Lit(_) => LocalsKept(None, Dest(dest, cs).1);
    case Var(_) => LocalsKept(None, Dest(dest, cs).1);
    case Un(_, a) =>
      ExprLocals(a, None, base, cs);
      LocalsKept(dest, GenExpr(a, None, base, cs).cs);
      LocalsKept(None, Dest(dest, GenExpr(a, None, base, cs).cs).1);
    case Bin(_, a, b) => BinLocals(e, dest, base, cs);
    case Logical(_, a, b) =>
      var (r, cs1) := Dest(dest, cs);
      ExprLocals(a, Some(r), base, cs1);
      var ga := GenExpr(a, Some(r), base, cs1);
      ExprLocals(b, Some(r), base + |ga.code| + 1, ga.cs);
    case Coalesce(a, b) => CoalesceLocals(e, dest, base, cs);
    case Ternary(c, t, f) => TernaryLocals(e, dest, base, cs);
  }

  lemma {:induction false} BinLocals(e: Expr, dest: Option<nat>, base: nat, cs: CState)
    requires e.Bin?
    ensures GenExpr(e, dest, base, cs).cs.locals == cs.locals
    decreases e, 0
  {
    hide AllocTemp, FreeTemp, Dest;
    ExprLocals(e.l, None, base, cs);
    var ga := GenExpr(e.l, None, base, cs);
    ExprLocals(e.r, None, base + |ga.code|, ga.cs);
    var gb := GenExpr(e.r, None, base + |ga.code|, ga.cs);
    LocalsKept(dest, gb.cs);
    var cs1 := Dest(dest, gb.cs).1;
    LocalsKept(None, cs1);
    LocalsKept(None, FreeTemp(cs1, gb.r));
  }

  lemma {:induction false} CoalesceLocals(e: Expr, dest: Option<nat>, base: nat, cs: CState)
    requires e.Coalesce?
    ensures GenExpr(e, dest, base, cs).cs.locals == cs.locals
    decreases e, 0
  {
    hide AllocTemp, FreeTemp, Dest;
    ExprLocals(e.l, None, base, cs);
    var ga := GenExpr(e.l, None, base, cs);
    LocalsKept(dest, ga.cs);
    var (r, cs1) := Dest(dest, ga.cs);
    LocalsKept(None, cs1);
    ExprLocals(e.r, Some(r), base + |ga.code| + 3, FreeTemp(cs1, ga.r));
  }

  lemma {:induction false} TernaryLocals(e: Expr, dest: Option<nat>, base: nat, cs: CState)
    requires e.Ternary?
    ensures GenExpr(e, dest, base, cs).cs.locals == cs.locals
    decreases e, 0
  {
    hide AllocTemp, FreeTemp, Dest, GenExpr;
    ExprLocals(e.c, None, base, cs);
    var gc := GenExpr(e.c, None, base, cs);
    LocalsKept(None, gc.cs);
    LocalsKept(dest, FreeTemp(gc.cs, gc.r));
    var (r, cs1) := Dest(dest, FreeTemp(gc.cs, gc.r));
    ExprLocals(e.t, Some(r), base + |gc.code| + 1, cs1);
    var gt := GenExpr(e.t, Some(r), base + |gc.code| + 1, cs1);
    ExprLocals(e.f, Some(r), base + |gc.code| + 1 + |gt.code| + 1, gt.cs);
    TernaryGen(e.c, e.t, e.f, dest, base, cs);
  }

  lemma TempLocals(cs: CState)
    ensures AllocTemp(cs).1.locals == cs.locals
  {
  }

  // After an assignment the name is a local.
  lemma AssignDeclares(x: string, aop: AssignOp, rhs: Expr, base: nat, cs: CState)
    ensures Slot(GenAssign(x, aop, rhs, base, cs).cs.locals, x).Some?
  {
    hide GenExpr, Alloc, Free, LooseEq;
    ExprLocals(rhs, None, base, cs);
  }

  // ---------- output, step by step ----------

  lemma WritesEnd(first: bool, base: nat, cs: CState)
    ensures GenWrites(ENil, first, base, cs) == Gen([], cs)
  {
  }

  lemma WriteDone(a: Snap, done: Code, b: Snap, rest: Exprs, first: bool, c: Snap, r: nat, d: Snap, e: Snap, f: Snap)
    returns (more: Code)
    requires After(a, done, b.cs, b) && rest.ECons?
    requires if first then c == b else After(b, GenLiteralOut(" ", b.cs).code, GenLiteralOut(" ", b.cs).cs, c)
    requires DidExpr(c, rest.head, None, r, d)
    requires e == d.(code := d.code + [CallWrite(r, r)]) && f == e.(cs := FreeTemp(e.cs, r))
    ensures After(a, more, f.cs, f)
    ensures var g := GenWrites(rest, first, |b.code|, b.cs); var gr := GenWrites(rest.tail, false, |f.code|, f.cs);
            done + g.code == more + gr.code && g.cs == gr.cs
  {
    hide After, GenExpr, GenLiteralOut, FreeTemp;
    var sep := if first then Gen([], b.cs) else GenLiteralOut(" ", b.cs);
    if first {
      AfterNothing(b);
    }
    AfterFacts(b, sep.code, sep.cs, c);
    AfterCat(a, done, b.cs, b, sep.code, sep.cs, c);
    var g := GenExpr(rest.head, None, |c.code|, c.cs);
    AfterFacts(c, g.code, g.cs, d);
    AfterCat(a, done + sep.code, sep.cs, c, g.code, g.cs, d);
    AfterNext(a, done + sep.code + g.code, g.cs, d, d, CallWrite(r, r), e, f);
    more := done + sep.code + g.code + [CallWrite(r, r)];
    var tail := GenWrites(rest.tail, false, |f.code|, f.cs);
    assert done + (sep.code + g.code + [CallWrite(r, r)] + tail.code) == more + tail.code;
  }

  // ---------- where statements may stand ----------

  // A `finally` block transfers control nowhere.
  ghost predicate PendPlaced(ps: seq<Stmts>) {
    forall i :: 0 <= i < |ps| ==> PlacedIn(ps[i], false, false, false)
  }

  ghost predicate StmtPlaced(a: Snap, s: Stmt) {
    Placed(s, a.stack != [], ContinueLevel(Loops(a.stack)).Some?, true) && PendPlaced(a.pending)
  }

  ghost predicate BlockPlaced(a: Snap, ss: Stmts) {
    PlacedIn(ss, a.stack != [], ContinueLevel(Loops(a.stack)).Some?, true) && PendPlaced(a.pending)
  }

  lemma {:induction false} PlacedMono(s: Stmt, brk: bool, cont: bool, ret: bool, brk1: bool, cont1: bool, ret1: bool)
    requires Placed(s, brk, cont, ret) && (brk ==> brk1) && (cont ==> cont1) && (ret ==> ret1)
    ensures Placed(s, brk1, cont1, ret1)
    decreases s
  {
    match s
    case Block(body) => PlacedInMono(body, brk, cont, ret, brk1, cont1, ret1);
    case If(_, thn, els) =>
      PlacedInMono(thn, brk, cont, ret, brk1, cont1, ret1);
      if els.Some? {
        PlacedInMono(els.value, brk, cont, ret, brk1, cont1, ret1);
      }
    case While(_, body) => PlacedInMono(body, true, true, ret, true, true, ret1);
    case For(init, _, _, body) =>
      if init.Some? {
        PlacedMono(init.value, brk, cont, ret, brk1, cont1, ret1);
      }
      PlacedInMono(body, true, true, ret, true, true, ret1);
    case Switch(_, cases) => PlacedCasesMono(cases, cont, ret, cont1, ret1);
    case Try(body, handler, fin) =>
      PlacedInMono(body, brk, cont, ret, brk1, cont1, ret1);
      if handler.Some? {
        PlacedInMono(handler.value.body, brk, cont, ret, brk1, cont1, ret1);
      }
    case _ =>
  }

  lemma {:induction false} PlacedInMono(ss: Stmts, brk: bool, cont: bool, ret: bool, brk1: bool, cont1: bool,
      ret1: bool)
    requires PlacedIn(ss, brk, cont, ret) && (brk ==> brk1) && (cont ==> cont1) && (ret ==> ret1)
    ensures PlacedIn(ss, brk1, cont1, ret1)
    decreases ss
  {
    if ss.Cons? {
      PlacedMono(ss.head, brk, cont, ret, brk1, cont1, ret1);
      PlacedInMono(ss.tail, brk, cont, ret, brk1, cont1, ret1);
    }
  }

  lemma {:induction false} PlacedCasesMono(cs: Cases, cont: bool, ret: bool, cont1: bool, ret1: bool)
    requires PlacedCases(cs, cont, ret) && (cont ==> cont1) && (ret ==> ret1)
    ensures PlacedCases(cs, cont1, ret1)
    decreases cs
  {
    if cs.Case? {
      PlacedInMono(cs.body, true, cont, ret, true, cont1, ret1);
      PlacedCasesMono(cs.rest, cont, ret, cont1, ret1);
    }
  }

  lemma HeadPlaced(a: Snap, ss: Stmts)
    requires ss.Cons?
    ensures BlockPlaced(a, ss) ==> StmtPlaced(a, ss.head)
  {
    hide Placed;
  }

  lemma TailPlaced(a: Snap, ss: Stmts, b: Snap)
    requires ss.Cons? && Loops(b.stack) == Loops(a.stack) && |b.stack| == |a.stack| && b.pending == a.pending
    ensures BlockPlaced(a, ss) ==> BlockPlaced(b, ss.tail)
  {
    hide Placed;
  }

  lemma FinPlaced(ps: seq<Stmts>, k: nat, a: Snap)
    requires k < |ps| && a.pending <= ps
    ensures PendPlaced(ps) ==> BlockPlaced(a, ps[k])
  {
    hide Placed, PlacedIn;
    if PendPlaced(ps) {
      PlacedInMono(ps[k], false, false, false, a.stack != [], ContinueLevel(Loops(a.stack)).Some?, true);
      assert forall i :: 0 <= i < |a.pending| ==> a.pending[i] == ps[i];
    }
  }

  lemma InLoopPlaced(a: Snap, body: Stmts, b: Snap)
    requires |b.stack| == |a.stack| + 1 && !b.stack[|a.stack|].isSwitch && b.pending == a.pending
    ensures BlockPlaced(b, body) <==> PlacedIn(body, true, true, true) && PendPlaced(a.pending)
  {
    hide PlacedIn;
    assert Loops(b.stack)[|a.stack|] == Loop(false, b.stack[|a.stack|].floor);
  }

  lemma ForPlaced(z: Snap, init: Option<Stmt>, test: Option<Expr>, post: Option<Effect>, body: Stmts, y: Snap)
    requires y.stack == z.stack && y.pending == z.pending
    ensures init.Some? && StmtPlaced(z, For(init, test, post, body)) ==> StmtPlaced(y, init.value)
  {
    hide PlacedIn;
  }

  lemma ForBodyPlaced(z: Snap, init: Option<Stmt>, test: Option<Expr>, post: Option<Effect>, body: Stmts, a: Snap)
    requires a.pending == z.pending
    ensures StmtPlaced(z, For(init, test, post, body)) ==> PlacedIn(body, true, true, true) && PendPlaced(a.pending)
  {
    hide PlacedIn;
  }

  // ---------- statements, step by step ----------

  ghost predicate DidStmt(a: Snap, s: Stmt, b: Snap) {
    var g := GenStmt(s, |a.code|, a.cs, Loops(a.stack), a.pending);
    After(a, g.code, g.cs, b)
  }

  ghost predicate DidBlock(a: Snap, ss: Stmts, b: Snap) {
    var g := GenBlock(ss, |a.code|, a.cs, Loops(a.stack), a.pending);
    After(a, g.code, g.cs, b)
  }

  ghost predicate DidPending(a: Snap, floor: nat, b: Snap) {
    var g := GenPending(a.pending, floor, |a.code|, a.cs, Loops(a.stack));
    After(a, g.code, g.cs, b)
  }

  ghost predicate DidTest(a: Snap, test: Option<Expr>, b: Snap) {
    var g := GenTest(test, 0, |a.code|, a.cs);
    After(a, g.code, g.cs, b)
  }

  ghost predicate DidPost(a: Snap, post: Option<Effect>, b: Snap) {
    var g := GenPost(post, |a.code|, a.cs);
    After(a, g.code, g.cs, b)
  }

  // What stays as it was: the loops and the pending blocks.
  predicate Framed(a: Snap, b: Snap) {
    && |a.code| <= |b.code| && |b.stack| == |a.stack| && Loops(b.stack) == Loops(a.stack) && b.pending == a.pending
    && forall l :: 0 <= l < |a.stack| ==> b.stack[l].target == a.stack[l].target
  }

  lemma AfterFrame(a: Snap, c: Code, cs: CState, b: Snap)
    requires After(a, c, cs, b)
    ensures Framed(a, b) && |b.code| == |a.code| + |c| && b.cs == cs
  {
    hide After, Loops;
    AfterFacts(a, c, cs, b);
  }

  lemma ExprFrame(a: Snap, e: Expr, dest: Option<nat>, r: nat, b: Snap)
    requires DidExpr(a, e, dest, r, b)
    ensures Framed(a, b)
  {
    hide After, GenExpr, Framed;
    var g := GenExpr(e, dest, |a.code|, a.cs);
    AfterFrame(a, g.code, g.cs, b);
  }

  lemma BlockFrame(a: Snap, ss: Stmts, b: Snap)
    requires DidBlock(a, ss, b)
    ensures Framed(a, b)
  {
    hide After, GenBlock, Framed;
    var g := GenBlock(ss, |a.code|, a.cs, Loops(a.stack), a.pending);
    AfterFrame(a, g.code, g.cs, b);
  }

  lemma StmtFrame(a: Snap, s: Stmt, b: Snap)
    requires DidStmt(a, s, b)
    ensures Framed(a, b)
  {
    hide After, GenStmt, Framed;
    var g := GenStmt(s, |a.code|, a.cs, Loops(a.stack), a.pending);
    AfterFrame(a, g.code, g.cs, b);
  }

  lemma PendingFacts(a: Snap, floor: nat, b: Snap)
    requires DidPending(a, floor, b)
    ensures Framed(a, b)
  {
    hide After, GenPending, Framed;
    var g := GenPending(a.pending, floor, |a.code|, a.cs, Loops(a.stack));
    AfterFrame(a, g.code, g.cs, b);
  }

  lemma TestFrame(a: Snap, test: Option<Expr>, b: Snap)
    requires DidTest(a, test, b)
    ensures Framed(a, b) && (test.Some? ==> |a.code| < |b.code|)
  {
    hide After, Framed, GenExpr;
    var g := GenTest(test, 0, |a.code|, a.cs);
    AfterFrame(a, g.code, g.cs, b);
  }

  lemma PostFrame(a: Snap, post: Option<Effect>, b: Snap)
    requires DidPost(a, post, b)
    ensures Framed(a, b)
  {
    hide After, Framed, GenPost;
    var g := GenPost(post, |a.code|, a.cs);
    AfterFrame(a, g.code, g.cs, b);
  }

  lemma DoDone(a: Snap, f: Effect, b: Snap)
    requires var g := GenEffect(f, |a.code|, a.cs); After(a, g.code, g.cs, b)
    ensures DidStmt(a, Do(f), b)
  {
    hide After, GenEffect;
  }

  lemma BlockStmt(a: Snap, body: Stmts, b: Snap)
    ensures DidBlock(a, body, b) ==> DidStmt(a, Block(body), b)
    ensures StmtPlaced(a, Block(body)) <==> BlockPlaced(a, body)
  {
    hide After, GenBlock, PlacedIn;
  }

  lemma NoStmts(base: nat, cs: CState, loops: seq<Loop>, pending: seq<Stmts>)
    ensures GenStmts(Nil, base, cs, loops, pending) == Gen([], cs)
  {
  }

  lemma StmtStep(b: Snap, done: Code, rest: Stmts, c: Snap, d: Snap) returns (more: Code)
    requires After(b, done, c.cs, c) && rest.Cons? && DidStmt(c, rest.head, d)
    ensures After(b, more, d.cs, d) && Framed(c, d) && Framed(b, d)
    ensures var g := GenStmts(rest, |c.code|, c.cs, Loops(b.stack), b.pending);
            var gr := GenStmts(rest.tail, |d.code|, d.cs, Loops(b.stack), b.pending);
            done + g.code == more + gr.code && g.cs == gr.cs
  {
    hide After, GenStmt, Loops;
    AfterFrame(b, done, c.cs, c);
    var g := GenStmt(rest.head, |c.code|, c.cs, Loops(c.stack), c.pending);
    AfterFrame(c, g.code, g.cs, d);
    AfterCat(b, done, c.cs, c, g.code, g.cs, d);
    AfterFrame(b, done + g.code, g.cs, d);
    more := done + g.code;
    var gr := GenStmts(rest.tail, |d.code|, d.cs, Loops(b.stack), b.pending);
    assert done + (g.code + gr.code) == more + gr.code;
  }

  lemma BlockDone(a: Snap, ss: Stmts, b: Snap, d: Snap, e: Snap)
    requires b == a.(cs := PushScope(a.cs))
    requires var g := GenStmts(ss, |b.code|, b.cs, Loops(b.stack), b.pending); After(b, g.code, g.cs, d)
    requires e == d.(cs := PopScope(d.cs))
    ensures DidBlock(a, ss, e)
  {
    hide After, GenStmts, PushScope, PopScope;
    var g := GenStmts(ss, |b.code|, b.cs, Loops(b.stack), b.pending);
    AfterFacts(b, g.code, g.cs, d);
    FromState(a, b, g.code, g.cs, d);
    AfterState(a, g.code, g.cs, d, e.cs, e);
  }

  lemma PendingNone(ps: seq<Stmts>, floor: nat, base: nat, cs: CState, loops: seq<Loop>)
    requires |ps| <= floor
    ensures GenPending(ps, floor, base, cs, loops) == Gen([], cs)
  {
  }

  lemma PendingSize(ps: seq<Stmts>, floor: nat, k: nat)
    requires floor + k < |ps|
    ensures SizeStmts(ps[floor + k]) + SizePending(ps[..floor]) < SizePending(ps)
  {
    hide SizeStmts;
    var n := floor + k;
    SizePendingPrefix(ps, n + 1);
    assert ps[..n + 1][..n] == ps[..n] && ps[..n][..floor] == ps[..floor];
    SizePendingPrefix(ps[..n], floor);
  }

  lemma PendingStep(b: Snap, done: Code, ps: seq<Stmts>, floor: nat, k: nat, c: Snap, d: Snap) returns (more: Code)
    requires floor + k < |ps| && b.pending == ps[..floor]
    requires After(b, done, c.cs, c) && DidBlock(c, ps[floor + k], d)
    ensures After(b, more, d.cs, d) && Framed(b, d)
    ensures var g := GenPending(ps[..floor + k + 1], floor, |c.code|, c.cs, Loops(b.stack));
            var gr := GenPending(ps[..floor + k], floor, |d.code|, d.cs, Loops(b.stack));
            done + g.code == more + gr.code && g.cs == gr.cs
  {
    hide After, GenBlock, Loops;
    var n := floor + k;
    AfterFrame(b, done, c.cs, c);
    var g := GenBlock(ps[n], |c.code|, c.cs, Loops(c.stack), c.pending);
    AfterFrame(c, g.code, g.cs, d);
    AfterCat(b, done, c.cs, c, g.code, g.cs, d);
    AfterFrame(b, done + g.code, g.cs, d);
    more := done + g.code;
    var qs := ps[..n + 1];
    assert qs[|qs| - 1] == ps[n] && qs[..|qs| - 1] == ps[..n] && qs[..floor] == ps[..floor];
    var gr := GenPending(ps[..n], floor, |d.code|, d.cs, Loops(b.stack));
    assert done + (g.code + gr.code) == more + gr.code;
  }

  lemma ReturnNullDone(a: Snap, b: Snap, c: Snap)
    requires DidPending(a, 0, b) && c == b.(code := b.code + [RetNull])
    ensures DidStmt(a, Return(None), c)
  {
    hide After, GenPending;
    var g := GenPending(a.pending, 0, |a.code|, a.cs, Loops(a.stack));
    AfterFacts(a, g.code, g.cs, b);
    AfterNext(a, g.code, g.cs, b, b, RetNull, c, c);
  }

  lemma ReturnDone(a: Snap, e: Expr, r: nat, b: Snap, c: Snap, d: Snap)
    requires DidExpr(a, e, None, r, b) && DidPending(b, 0, c)
    requires d == c.(code := c.code + [Ret(r)], cs := FreeTemp(c.cs, r))
    ensures DidStmt(a, Return(Some(e)), d)
  {
    hide After, GenPending, GenExpr, FreeTemp, Loops;
    var g := GenExpr(e, None, |a.code|, a.cs);
    AfterFrame(a, g.code, g.cs, b);
    var p := GenPending(b.pending, 0, |b.code|, b.cs, Loops(b.stack));
    AfterFacts(b, p.code, p.cs, c);
    AfterCat(a, g.code, g.cs, b, p.code, p.cs, c);
    AfterNext(a, g.code + p.code, p.cs, c, c, Ret(r), c.(code := c.code + [Ret(r)]), d);
  }

  lemma BreakDone(a: Snap, b: Snap, c: Snap)
    requires a.stack != [] && DidPending(a, a.stack[|a.stack| - 1].floor, b) && |b.stack| == |a.stack|
    requires var l := |b.stack| - 1; var e := b.stack[l];
             c == b.(code := b.code + [Jump(At(0))], stack := b.stack[l := e.(breaks := e.breaks + [|b.code|])])
    ensures DidStmt(a, Break, c)
  {
    hide After, GenPending;
    var p := GenPending(a.pending, a.stack[|a.stack| - 1].floor, |a.code|, a.cs, Loops(a.stack));
    AfterFacts(a, p.code, p.cs, b);
    AfterBreak(b, c);
    AfterCat(a, p.code, p.cs, b, [Jump(ToBreak(|b.stack| - 1))], b.cs, c);
  }

  lemma ContinueDone(a: Snap, level: nat, b: Snap, c: Snap)
    requires ContinueLevel(Loops(a.stack)) == Some(level) && level < |a.stack| == |b.stack|
    requires DidPending(a, a.stack[level].floor, b)
    requires var e := b.stack[level];
             if e.target.Some? then c == b.(code := b.code + [Jump(At(e.target.value))])
             else c == b.(code := b.code + [Jump(At(0))],
                          stack := b.stack[level := e.(continues := e.continues + [|b.code|])])
    ensures DidStmt(a, Continue, c)
  {
    hide After, GenPending, ContinueLevel;
    var p := GenPending(a.pending, a.stack[level].floor, |a.code|, a.cs, Loops(a.stack));
    AfterFacts(a, p.code, p.cs, b);
    AfterContinue(b, level, c);
    AfterCat(a, p.code, p.cs, b, [Jump(ToContinue(level))], b.cs, c);
  }

  lemma IfDone(a: Snap, c0: Expr, thn: Stmts, cond: nat, b: Snap, d: Snap, e: Snap, f: Snap)
    requires DidExpr(a, c0, None, cond, b)
    requires d == b.(code := b.code + [JumpIfFalse(cond, At(0))], cs := FreeTemp(b.cs, cond))
    requires DidBlock(d, thn, e) && f == e.(code := Retargeted(e.code, 0, [|b.code|], |e.code|))
    ensures DidStmt(a, If(c0, thn, None), f)
  {
    hide After, GenBlock, GenExpr, FreeTemp, Loops, Retargeted;
    var gc := GenExpr(c0, None, |a.code|, a.cs);
    AfterFrame(a, gc.code, gc.cs, b);
    var hole := JumpIfFalse(cond, At(0));
    AfterNext(a, gc.code, gc.cs, b, b, hole, b.(code := b.code + [hole]), d);
    var gt := GenBlock(thn, |d.code|, d.cs, Loops(d.stack), d.pending);
    AfterFrame(d, gt.code, gt.cs, e);
    AfterCat(a, gc.code + [hole], d.cs, d, gt.code, gt.cs, e);
    PatchOne(a, gc.code, hole, gt.code, gt.cs, e, |e.code|, f);
  }

  lemma IfElseDone(a: Snap, c0: Expr, thn: Stmts, els: Stmts, cond: nat, b: Snap, d: Snap, e: Snap, h: Snap, i: Snap,
      j: Snap)
    requires DidExpr(a, c0, None, cond, b)
    requires d == b.(code := b.code + [JumpIfFalse(cond, At(0))], cs := FreeTemp(b.cs, cond))
    requires DidBlock(d, thn, e) && h == Crossed(e, |b.code|)
    requires DidBlock(h, els, i) && j == i.(code := Retargeted(i.code, 0, [|e.code|], |i.code|))
    ensures DidStmt(a, If(c0, thn, Some(els)), j)
  {
    hide After, GenBlock, GenExpr, FreeTemp, Loops, Retargeted, Crossed;
    var gc := GenExpr(c0, None, |a.code|, a.cs);
    AfterFrame(a, gc.code, gc.cs, b);
    var gt := GenBlock(thn, |d.code|, d.cs, Loops(d.stack), d.pending);
    AfterFrame(d, gt.code, gt.cs, e);
    CrossedSize(e, |b.code|);
    var gf := GenBlock(els, |h.code|, h.cs, Loops(h.stack), h.pending);
    AfterFrame(h, gf.code, gf.cs, i);
    Diamond(a, gc.code, gc.cs, b, JumpIfFalse(cond, At(0)), d, gt.code, gt.cs, e, h, gf.code, gf.cs, i, j);
  }

  // ---------- loops, step by step ----------


  ghost predicate DidLoop(a: Snap, test: Option<Expr>, post: Option<Effect>, body: Stmts, isWhile: bool, b: Snap) {
    var g := GenLoop(test, post, body, isWhile, |a.code|, a.cs, Loops(a.stack), a.pending);
    After(a, g.code, g.cs, b)
  }

  lemma LoopsSize(stack: seq<Entry>)
    ensures |Loops(stack)| == |stack|
  {
  }

  // What closing a loop does.
  function LoopRun(q: Snap, start: nat, exit: Option<nat>, breaks: seq<nat>): Snap {
    var after := |q.code| + 1;
    var r := q.code + [Jump(At(start))];
    var s := if exit.Some? then Retargeted(r, 0, [exit.value], after) else r;
    q.(code := Retargeted(s, 0, breaks, after))
  }

  lemma NoPost(f: Snap)
    ensures DidPost(f, None, f)
  {
    hide After;
    AfterNothing(f);
  }

  lemma LoopDone(a: Snap, test: Option<Expr>, post: Option<Effect>, body: Stmts, isWhile: bool, d: Snap, e: Snap,
      f: Snap, p: Snap, q: Snap, t: Snap)
    requires DidTest(a, test, d)
    requires var e0 := Entry(false, |a.pending|, if isWhile then Some(|a.code|) else None, [], []);
             DidBlock(d.(stack := d.stack + [e0]), body, e)
    requires |e.stack| == |d.stack| + 1 && f == e.(stack := e.stack[..|d.stack|]) && DidPost(f, post, p)
             && (isWhile ==> post.None?)
    requires q == p.(code := Retargeted(p.code, 0, e.stack[|d.stack|].continues, if isWhile then |a.code|
                                        else |f.code|))
    requires t == LoopRun(q, |a.code|, if test.Some? then Some(|d.code| - 1) else None, e.stack[|d.stack|].breaks)
    requires test.Some? ==> |d.code| > 0
    ensures DidLoop(a, test, post, body, isWhile, t)
  {
    hide After, GenBlock, GenTest, GenPost, Retargeted, Loops, Places, InnerCode, Patch;
    LoopsSize(a.stack);
    var start, level := |a.code|, |a.stack|;
    var target := if isWhile then Some(start) else None;
    var e0 := Entry(false, |a.pending|, target, [], []);
    var tst := GenTest(test, 0, start, a.cs);
    AfterFrame(a, tst.code, tst.cs, d);
    var inner := d.(stack := d.stack + [e0]);
    var g := GenBlock(body, |inner.code|, inner.cs, Loops(inner.stack), inner.pending);
    PushedLoops(d.stack, e0);
    Popped(d, e0, g.code, g.cs, e);
    var body0 := InnerCode(g.code, level, target);
    AfterFrame(d, body0, g.cs, f);
    var bodyAt := |d.code|;
    AfterCat(a, tst.code, tst.cs, d, body0, g.cs, f);
    var gp := GenPost(post, |f.code|, f.cs);
    AfterFrame(f, gp.code, gp.cs, p);
    AfterCat(a, tst.code + body0, g.cs, f, gp.code, gp.cs, p);
    var cont := if isWhile then start else |f.code|;
    var conts := Continuing(g.code, bodyAt, level, target);
    var brks := Places(g.code, bodyAt, Breaks(level));
    ContinuesAre(e0, g.code, bodyAt, level);
    BreaksAre(e0, g.code, bodyAt, level);
    ContinuingHoles(g.code, bodyAt, level, target);
    ListHoles(g.code, bodyAt, Breaks(level), target);
    PatchMiddle(a, tst.code, body0, gp.code, gp.cs, p, conts, cont, q);
    var body1 := Retargeted(body0, bodyAt, conts, cont);
    HolesKept(body0, bodyAt, brks, conts, cont);
    LoopClosed(a, test, tst.code, body1, gp.code, gp.cs, q, start, brks, t);
    Closed(g.code, level, bodyAt, target, |q.code| + 1, cont);
    AfterFrame(a, tst.code + body1 + gp.code, gp.cs, q);
  }

  lemma PushedLoops(stack: seq<Entry>, e: Entry)
    ensures Loops(stack + [e]) == Loops(stack) + [Loop(e.isSwitch, e.floor)]
  {
  }

  lemma ContinuesAre(e: Entry, c: Code, base: nat, level: nat)
    requires e.continues == []
    ensures ListedEntry(e, level, c, base).continues == Continuing(c, base, level, e.target)
  {
    hide Places;
  }

  lemma BreaksAre(e: Entry, c: Code, base: nat, level: nat)
    requires e.breaks == []
    ensures ListedEntry(e, level, c, base).breaks == Places(c, base, Breaks(level))
  {
    hide Places;
  }

  lemma ContinuingHoles(c: Code, base: nat, level: nat, target: Option<nat>)
    ensures Holes(InnerCode(c, level, target), base, Continuing(c, base, level, target))
  {
    hide Places, InnerCode;
    ListHoles(c, base, Continues(level), target);
  }

  // The jump back behind the loop, and the jumps out of it.
  lemma LoopClosed(a: Snap, test: Option<Expr>, tst: Code, body: Code, post: Code, cs: CState, q: Snap, start: nat,
      brks: seq<nat>, t: Snap)
    requires start == |a.code| && tst == GenTest(test, 0, start, a.cs).code
    requires After(a, tst + body + post, cs, q) && Holes(body, |a.code| + |tst|, brks)
    requires t == LoopRun(q, start, if test.Some? then Some(|a.code| + |tst| - 1) else None, brks)
    requires test.Some? ==> |a.code| + |tst| > 0
    ensures var after := |q.code| + 1;
            After(a, GenTest(test, after, start, a.cs).code + Retargeted(body, |a.code| + |tst|, brks, after) + post
                  + [Jump(At(start))], cs, t)
    ensures |GenTest(test, |q.code| + 1, start, a.cs).code| == |tst|
  {
    hide After, GenTest, Retargeted, Holes;
    var after := |q.code| + 1;
    var r := q.(code := q.code + [Jump(At(start))]);
    AfterFrame(a, tst + body + post, cs, q);
    AfterNext(a, tst + body + post, cs, q, q, Jump(At(start)), r, r);
    var tail := post + [Jump(At(start))];
    assert tst + body + post + [Jump(At(start))] == tst + body + tail;
    TestHole(test, after, start, a.cs);
    var tst1 := GenTest(test, after, start, a.cs).code;
    var s := if test.Some? then r.(code := Retargeted(r.code, 0, [|a.code| + |tst| - 1], after)) else r;
    if test.Some? {
      var n := |tst| - 1;
      assert tst + body + tail == tst[..n] + [tst[n]] + (body + tail) by {
        assert tst == tst[..n] + [tst[n]];
      }
      PatchOne(a, tst[..n], tst[n], body + tail, cs, r, after, s);
      assert tst[..n] + [Retarget(tst[n], At(after))] + (body + tail) == tst1 + body + tail;
    }
    PatchMiddle(a, tst1, body, tail, cs, s, brks, after, t);
    var body1 := Retargeted(body, |a.code| + |tst|, brks, after);
    assert tst1 + body1 + tail == tst1 + body1 + post + [Jump(At(start))];
  }

  lemma TestHole(test: Option<Expr>, exit: nat, base: nat, cs: CState)
    ensures var c, d := GenTest(test, 0, base, cs).code, GenTest(test, exit, base, cs).code;
            && |c| == |d|
            && (test.None? ==> c == d)
            && (test.Some? ==> |c| > 0 && TargetOf(c[|c| - 1]) == Some(At(0))
                               && d == c[..|c| - 1] + [Retarget(c[|c| - 1], At(exit))])
  {
    hide GenExpr, FreeTemp;
    if test.Some? {
      var g := GenExpr(test.value, None, base, cs);
      var c := GenTest(test, 0, base, cs).code;
      assert c[..|c| - 1] == g.code;
    }
  }

  lemma WhileStmt(a: Snap, c0: Expr, body: Stmts, t: Snap)
    requires DidLoop(a, Some(c0), None, body, true, t)
    ensures DidStmt(a, While(c0, body), t)
  {
    hide After, GenLoop;
  }

  lemma ForStmt(z: Snap, init: Option<Stmt>, test: Option<Expr>, post: Option<Effect>, body: Stmts, y: Snap, a: Snap,
      t: Snap, u: Snap)
    requires y == z.(cs := PushScope(z.cs))
    requires if init.Some? then DidStmt(y, init.value, a) else a == y
    requires DidLoop(a, test, post, body, false, t)
    requires u == t.(cs := PopScope(t.cs))
    ensures DidStmt(z, For(init, test, post, body), u)
  {
    hide After, GenLoop, GenStmt, Loops, PushScope, PopScope;
    var gi := if init.Some? then GenStmt(init.value, |y.code|, y.cs, Loops(y.stack), y.pending) else Gen([], y.cs);
    if init.None? {
      AfterNothing(y);
    }
    AfterFrame(y, gi.code, gi.cs, a);
    FromState(z, y, gi.code, gi.cs, a);
    var g := GenLoop(test, post, body, false, |a.code|, a.cs, Loops(a.stack), a.pending);
    AfterFrame(a, g.code, g.cs, t);
    AfterCat(z, gi.code, gi.cs, a, g.code, g.cs, t);
    AfterState(z, gi.code + g.code, g.cs, t, u.cs, u);
    ForGen(init, test, post, body, |z.code|, z.cs, Loops(z.stack), z.pending);
  }

  lemma ForGen(init: Option<Stmt>, test: Option<Expr>, post: Option<Effect>, body: Stmts, base: nat, cs: CState,
      loops: seq<Loop>, pending: seq<Stmts>)
    ensures var cs1 := PushScope(cs);
            var gi := if init.Some? then GenStmt(init.value, base, cs1, loops, pending) else Gen([], cs1);
            var g := GenLoop(test, post, body, false, base + |gi.code|, gi.cs, loops, pending);
            GenStmt(For(init, test, post, body), base, cs, loops, pending) == Gen(gi.code + g.code, PopScope(g.cs))
  {
    hide GenLoop, PushScope, PopScope;
  }

  // In the body of a loop or switch, one entry more is open.
  lemma InnerFrame(d: Snap, e0: Entry, ss: Stmts, e: Snap)
    requires DidBlock(d.(stack := d.stack + [e0]), ss, e) && e0.breaks == [] && e0.continues == []
    ensures |e.stack| == |d.stack| + 1 && |d.code| <= |e.code| && e.pending == d.pending
    ensures e.stack[|d.stack|].isSwitch == e0.isSwitch
    ensures forall p :: p in e.stack[|d.stack|].breaks || p in e.stack[|d.stack|].continues ==> p < |e.code|
  {
    hide After, GenBlock, Loops, Places, InnerCode;
    var inner := d.(stack := d.stack + [e0]);
    var g := GenBlock(ss, |inner.code|, inner.cs, Loops(inner.stack), inner.pending);
    var level := |d.stack|;
    AfterFrame(inner, g.code, g.cs, e);
    Popped(d, e0, g.code, g.cs, e);
    ContinuesAre(e0, g.code, |d.code|, level);
    BreaksAre(e0, g.code, |d.code|, level);
    ListHoles(g.code, |d.code|, Breaks(level), e0.target);
    ListHoles(g.code, |d.code|, Continues(level), e0.target);
  }

  // ---------- try, step by step ----------

  ghost predicate DidHandling(a: Snap, handler: Option<Handler>, fin: Option<Stmts>, outer: seq<Stmts>, b: Snap) {
    var g := GenHandling(handler, fin, |a.code|, a.cs, Loops(a.stack), outer);
    After(a, g.code, g.cs, b)
  }

  function FinGen(fin: Option<Stmts>, base: nat, cs: CState, loops: seq<Loop>, pending: seq<Stmts>): Gen {
    match fin
    case Some(b) => GenBlock(b, base, cs, loops, pending)
    case None => Gen([], cs)
  }

  ghost predicate DidFin(a: Snap, fin: Option<Stmts>, b: Snap) {
    var g := FinGen(fin, |a.code|, a.cs, Loops(a.stack), a.pending);
    After(a, g.code, g.cs, b)
  }

  lemma HandlingFrame(a: Snap, handler: Option<Handler>, fin: Option<Stmts>, outer: seq<Stmts>, b: Snap)
    requires DidHandling(a, handler, fin, outer, b)
    ensures Framed(a, b)
  {
    hide After, GenHandling, Framed;
    var g := GenHandling(handler, fin, |a.code|, a.cs, Loops(a.stack), outer);
    AfterFrame(a, g.code, g.cs, b);
  }

  lemma CatchPending(a: Snap, h: Handler, fin: Option<Stmts>, outer: seq<Stmts>, b: Snap)
    requires DidHandling(a, Some(h), fin, outer, b)
    ensures DidHandling(a.(pending := outer), Some(h), fin, outer, b.(pending := outer))
  {
    hide After, GenHandling;
    var g := GenHandling(Some(h), fin, |a.code|, a.cs, Loops(a.stack), outer);
    AfterPending(a, g.code, g.cs, b, outer);
  }

  lemma TryPlaced(a: Snap, body: Stmts, handler: Option<Handler>, fin: Option<Stmts>, x: Snap)
    requires x.pending == WithFin(a.pending, fin) && |x.stack| == |a.stack| && Loops(x.stack) == Loops(a.stack)
    ensures StmtPlaced(a, Try(body, handler, fin))
            ==> BlockPlaced(x, body) && (handler.Some? ==> BlockPlaced(x, handler.value.body))
  {
    hide PlacedIn;
  }

  lemma FinallyPlaced(a: Snap, body: Stmts, handler: Option<Handler>, fin: Option<Stmts>, x: Snap)
    requires x.pending == a.pending && |x.stack| == |a.stack| && Loops(x.stack) == Loops(a.stack)
    ensures StmtPlaced(a, Try(body, handler, fin)) && fin.Some? ==> BlockPlaced(x, fin.value)
  {
    hide PlacedIn;
    if StmtPlaced(a, Try(body, handler, fin)) && fin.Some? {
      PlacedInMono(fin.value, false, false, false, x.stack != [], ContinueLevel(Loops(x.stack)).Some?, true);
    }
  }

  // The blocks the code for exceptions holds.
  ghost predicate CatchPlaced(d: Snap, handler: Option<Handler>, fin: Option<Stmts>, outer: seq<Stmts>) {
    && (handler.Some? ==> BlockPlaced(d, handler.value.body))
    && (handler.None? && fin.Some? ==> BlockPlaced(d.(pending := outer), fin.value))
  }

  lemma CatchSplit(d: Snap, handler: Option<Handler>, fin: Option<Stmts>, outer: seq<Stmts>)
    ensures CatchPlaced(d, handler, fin, outer) && handler.Some? ==> BlockPlaced(d, handler.value.body)
    ensures CatchPlaced(d, handler, fin, outer) && handler.None? && fin.Some?
            ==> BlockPlaced(d.(pending := outer), fin.value)
  {
    hide BlockPlaced;
  }

  lemma HandlingPlaced(a: Snap, body: Stmts, handler: Option<Handler>, fin: Option<Stmts>, d: Snap)
    requires d.pending == WithFin(a.pending, fin) && |d.stack| == |a.stack| && Loops(d.stack) == Loops(a.stack)
    ensures StmtPlaced(a, Try(body, handler, fin)) ==> CatchPlaced(d, handler, fin, a.pending)
  {
    hide BlockPlaced, StmtPlaced;
    TryPlaced(a, body, handler, fin, d);
    FinallyPlaced(a, body, handler, fin, d.(pending := a.pending));
  }

  lemma SizePendingFin(outer: seq<Stmts>, fin: Option<Stmts>)
    ensures SizePending(WithFin(outer, fin)) >= SizePending(outer) + SizeFin(fin)
    ensures fin.Some? ==> SizePending(WithFin(outer, fin)) > SizePending(outer) + SizeFin(fin)
  {
    if fin.Some? {
      SizePendingPush(outer, fin.value);
    }
  }

  lemma CatchDone(a: Snap, h: Handler, fin: Option<Stmts>, outer: seq<Stmts>, b: Snap, s: nat, c: Snap, d: Snap,
      e: Snap)
    requires a.pending == WithFin(outer, fin) && b == a.(cs := PushScope(a.cs))
    requires if h.name != "" then
               (s, c.cs) == DeclareLocal(b.cs, h.name) && c == b.(code := b.code + [LoadExc(s)], cs := c.cs)
             else c == b
    requires DidBlock(c, h.body, d) && e == d.(cs := PopScope(d.cs))
    ensures DidHandling(a, Some(h), fin, outer, e)
  {
    hide After, GenBlock, GenHandling, Loops, PushScope, PopScope, DeclareLocal, WithFin;
    var head := if h.name != "" then [LoadExc(s)] else [];
    CatchHead(a, h.name, b, s, c, head);
    var g := GenBlock(h.body, |c.code|, c.cs, Loops(c.stack), c.pending);
    AfterFrame(c, g.code, g.cs, d);
    AfterCat(a, head, c.cs, c, g.code, g.cs, d);
    AfterState(a, head + g.code, g.cs, d, e.cs, e);
    CatchGen(h, fin, |a.code|, a.cs, Loops(a.stack), outer);
  }

  lemma CatchHead(a: Snap, name: string, b: Snap, s: nat, c: Snap, head: Code)
    requires b == a.(cs := PushScope(a.cs)) && head == if name != "" then [LoadExc(s)] else []
    requires if name != "" then c == b.(code := b.code + [LoadExc(s)], cs := c.cs) else c == b
    ensures After(a, head, c.cs, c) && |c.code| == |a.code| + |head| && c.stack == a.stack && c.pending == a.pending
  {
    hide After, PushScope;
    AfterNothing(a);
    if name != "" {
      AfterNext(a, [], a.cs, a, b, LoadExc(s), b.(code := b.code + [LoadExc(s)]), c);
      assert [] + [LoadExc(s)] == [LoadExc(s)];
    } else {
      AfterState(a, [], a.cs, a, c.cs, c);
    }
  }

  lemma CatchGen(h: Handler, fin: Option<Stmts>, at: nat, cs: CState, loops: seq<Loop>, outer: seq<Stmts>)
    ensures var cs1 := PushScope(cs);
            var (s, cs2) := if h.name != "" then DeclareLocal(cs1, h.name) else (0, cs1);
            var head := if h.name != "" then [LoadExc(s)] else [];
            var g := GenBlock(h.body, at + |head|, cs2, loops, WithFin(outer, fin));
            GenHandling(Some(h), fin, at, cs, loops, outer) == Gen(head + g.code, PopScope(g.cs))
  {
    hide GenBlock, PushScope, PopScope, DeclareLocal, WithFin;
  }

  lemma RethrowDone(a: Snap, fin: Option<Stmts>, exc: nat, b: Snap, c: Snap, d: Snap, e: Snap)
    requires (exc, b.cs) == AllocTemp(a.cs) && b == a.(cs := b.cs) && c == b.(code := b.code + [LoadExc(exc)])
    requires DidFin(c, fin, d) && e == d.(code := d.code + [Throw(exc)], cs := FreeTemp(d.cs, exc))
    ensures DidHandling(a, None, fin, a.pending, e)
  {
    hide After, GenBlock, Loops, AllocTemp, FreeTemp;
    AfterNothing(a);
    AfterNext(a, [], a.cs, a, b, LoadExc(exc), c, c);
    assert [] + [LoadExc(exc)] == [LoadExc(exc)];
    var g := FinGen(fin, |c.code|, c.cs, Loops(c.stack), c.pending);
    AfterFrame(c, g.code, g.cs, d);
    AfterCat(a, [LoadExc(exc)], c.cs, c, g.code, g.cs, d);
    AfterNext(a, [LoadExc(exc)] + g.code, g.cs, d, d, Throw(exc), d.(code := d.code + [Throw(exc)]), e);
  }

  // A protected block compiled since `a`: up to `c` the block itself.
  ghost predicate Started(a: Snap, body: Stmts, fin: Option<Stmts>, c: Snap, d: Snap) {
    && DidBlock(a.(code := a.code + [TryPush(At(0))], pending := WithFin(a.pending, fin)), body, c)
    && d == c.(code := Retargeted(c.code + [TryPop] + [Jump(At(0))], 0, [|a.code|], |c.code| + 2))
  }

  lemma StartedFrame(a: Snap, body: Stmts, fin: Option<Stmts>, c: Snap, d: Snap)
    requires Started(a, body, fin, c, d)
    ensures |d.code| == |c.code| + 2 && |a.code| <= |c.code|
    ensures d.pending == WithFin(a.pending, fin) && |d.stack| == |a.stack| && Loops(d.stack) == Loops(a.stack)
  {
    hide DidBlock;
    BlockFrame(a.(code := a.code + [TryPush(At(0))], pending := WithFin(a.pending, fin)), body, c);
  }

  lemma TryDone(a: Snap, body: Stmts, handler: Option<Handler>, fin: Option<Stmts>, c: Snap, d: Snap, e: Snap, f: Snap,
      g: Snap)
    requires Started(a, body, fin, c, d)
    requires DidHandling(d.(pending := a.pending), handler, fin, a.pending, e)
    requires f == e.(code := Retargeted(e.code, 0, [|c.code| + 1], |e.code|)) && DidFin(f, fin, g)
    ensures DidStmt(a, Try(body, handler, fin), g)
  {
    hide After, GenBlock, Loops, GenHandling, Retargeted, WithFin, FinGen, DidFin;
    var ps := a.pending;
    var b := a.(code := a.code + [TryPush(At(0))], pending := WithFin(a.pending, fin));
    var gb := GenBlock(body, |b.code|, b.cs, Loops(b.stack), b.pending);
    AfterFrame(b, gb.code, gb.cs, c);
    var d0 := d.(pending := ps);
    TryStarted(a, gb.code, gb.cs, b, c, d0);
    var catchAt := |c.code| + 2;
    var c1 := [TryPush(At(catchAt))] + gb.code + [TryPop] + [Jump(At(0))];
    AfterFrame(a, c1, gb.cs, d0);
    var gh := GenHandling(handler, fin, |d0.code|, d0.cs, Loops(d0.stack), ps);
    AfterFrame(d0, gh.code, gh.cs, e);
    AfterCat(a, c1, gb.cs, d0, gh.code, gh.cs, e);
    var before := [TryPush(At(catchAt))] + gb.code + [TryPop];
    PatchOne(a, before, Jump(At(0)), gh.code, gh.cs, e, |e.code|, f);
    FinDone(a, before + [Jump(At(|e.code|))] + gh.code, gh.cs, f, fin, g);
    var gf := FinGen(fin, |f.code|, f.cs, Loops(a.stack), ps);
    AfterFrame(a, before + [Jump(At(|e.code|))] + gh.code, gh.cs, f);
    assert before + [Jump(At(|e.code|))] + gh.code + gf.code
        == [TryPush(At(catchAt))] + gb.code + [TryPop, Jump(At(|e.code|))] + gh.code + gf.code;
    TryGen(body, handler, fin, |a.code|, a.cs, Loops(a.stack), ps);
  }

  lemma FinDone(a: Snap, c: Code, cs: CState, f: Snap, fin: Option<Stmts>, g: Snap)
    requires After(a, c, cs, f) && DidFin(f, fin, g)
    ensures var gf := FinGen(fin, |f.code|, f.cs, Loops(a.stack), a.pending); After(a, c + gf.code, gf.cs, g)
  {
    hide After, Loops, FinGen;
    AfterFrame(a, c, cs, f);
    var gf := FinGen(fin, |f.code|, f.cs, Loops(f.stack), f.pending);
    AfterCat(a, c, cs, f, gf.code, gf.cs, g);
  }

  lemma TryStarted(a: Snap, body: Code, cs: CState, b: Snap, c: Snap, d: Snap)
    requires b == a.(code := a.code + [TryPush(At(0))], pending := b.pending) && After(b, body, cs, c)
    requires d == c.(code := Retargeted(c.code + [TryPop] + [Jump(At(0))], 0, [|a.code|], |c.code| + 2),
                     pending := a.pending)
    ensures After(a, [TryPush(At(|c.code| + 2))] + body + [TryPop] + [Jump(At(0))], cs, d)
  {
    hide After, Retargeted;
    var ps := a.pending;
    var push := TryPush(At(0));
    var b0, c0 := b.(pending := ps), c.(pending := ps);
    AfterInstr(a, push, b0);
    AfterPending(b, body, cs, c, ps);
    AfterCat(a, [push], a.cs, b0, body, cs, c0);
    var tail := [TryPop, Jump(At(0))];
    var d0 := c0.(code := c0.code + tail);
    AfterTail(a, [push] + body, cs, c0, tail, d0);
    assert [push] + body + tail == [] + [push] + (body + tail) && c0.code + tail == c.code + [TryPop] + [Jump(At(0))];
    AfterFacts(a, [push] + body, cs, c0);
    PatchOne(a, [], push, body + tail, c0.cs, d0, |c.code| + 2, d);
    var p1 := TryPush(At(|c.code| + 2));
    assert [] + [p1] + (body + tail) == [p1] + body + [TryPop] + [Jump(At(0))];
  }

  lemma TryGen(body: Stmts, handler: Option<Handler>, fin: Option<Stmts>, base: nat, cs: CState, loops: seq<Loop>,
      pending: seq<Stmts>)
    ensures var gb := GenBlock(body, base + 1, cs, loops, WithFin(pending, fin));
            var catchAt := base + 1 + |gb.code| + 2;
            var gh := GenHandling(handler, fin, catchAt, gb.cs, loops, pending);
            var end := catchAt + |gh.code|;
            var gf := FinGen(fin, end, gh.cs, loops, pending);
            GenStmt(Try(body, handler, fin), base, cs, loops, pending)
            == Gen([TryPush(At(catchAt))] + gb.code + [TryPop, Jump(At(end))] + gh.code + gf.code, gf.cs)
  {
    hide GenBlock, GenHandling, WithFin;
  }

  // ---------- switch, step by step ----------

  function SwitchEntry(d: Snap): Entry {
    Entry(true, |d.pending|, None, [], [])
  }

  function InnerLoops(d: Snap): (r: seq<Loop>)
    ensures r != []
  {
    Loops(d.stack) + [Loop(true, |d.pending|)]
  }

  ghost predicate CasesPlaced(d: Snap, cases: Cases) {
    PlacedCases(cases, ContinueLevel(Loops(d.stack)).Some?, true) && PendPlaced(d.pending)
  }

  lemma SwitchPlaced(a: Snap, subject: Expr, cases: Cases, d: Snap)
    requires Loops(d.stack) == Loops(a.stack) && d.pending == a.pending
    ensures StmtPlaced(a, Switch(subject, cases)) ==> CasesPlaced(d, cases)
  {
    hide PlacedCases;
  }

  lemma InSwitchPlaced(d: Snap, rest: Cases, f: Snap)
    requires rest.Case? && Loops(f.stack) == InnerLoops(d) && f.stack != [] && f.pending == d.pending
    ensures CasesPlaced(d, rest) ==> BlockPlaced(f, rest.body) && CasesPlaced(d, rest.rest)
  {
    hide PlacedIn;
    assert InnerLoops(d)[..|InnerLoops(d)| - 1] == Loops(d.stack);
  }

  // Jumps, other than settled ones, only to the cases from `lo` up to `hi`.
  ghost predicate CasedBelow(c: Code, level: nat, lo: nat, hi: nat) {
    forall k :: 0 <= k < |c| && TargetOf(c[k]).Some? ==> ToCases(TargetOf(c[k]).value, level, lo, hi)
  }

  predicate ToCases(t: Target, level: nat, lo: nat, hi: nat) {
    t.At? || (t.ToCase? && t.level == level && lo <= t.index < hi)
  }

  lemma CasedCat(c: Code, d: Code, level: nat, lo: nat, mid: nat, hi: nat)
    requires CasedBelow(c, level, lo, mid) && CasedBelow(d, level, mid, hi) && lo <= mid <= hi
    ensures CasedBelow(c + d, level, lo, hi)
  {
  }

  lemma CasedPlaces(c: Code, base: nat, level: nat, lo: nat, hi: nat, i: nat)
    requires CasedBelow(c, level, lo, hi) && !(lo <= i < hi)
    ensures Places(c, base, CaseOf(level, i)) == []
  {
    hide Places;
    PlacesIn(c, base, CaseOf(level, i));
    NoElements(Places(c, base, CaseOf(level, i)));
  }

  lemma NoElements(s: seq<nat>)
    ensures s == [] || exists x :: x in s
  {
    if s != [] {
      assert s[0] in s;
    }
  }

  lemma SettledPlaces(c: Code, base: nat, m: Mark)
    requires Settled(c)
    ensures Places(c, base, m) == []
  {
    hide Places;
    PlacesIn(c, base, m);
    NoElements(Places(c, base, m));
  }

  lemma ExprSettled(e: Expr, base: nat, cs: CState)
    ensures Settled(GenExpr(e, None, base, cs).code)
  {
    hide GenExpr, PoolIn;
    ExprIn(e, None, base, cs, 0, ExprLits(e));
    var c := GenExpr(e, None, base, cs).code;
    forall k | 0 <= k < |c| && TargetOf(c[k]).Some?
      ensures TargetOf(c[k]).value.At?
    {
      assert InstrIn(c[k], base, base + |c|, 0);
    }
  }

  ghost predicate DidValues(a: Snap, values: Exprs, subj: nat, level: nat, index: nat, list: seq<nat>, b: Snap) {
    var g := GenValues(values, subj, ToCase(level, index), |a.code|, a.cs);
    && After(a, g.code, g.cs, b)
    && list == Places(g.code, |a.code|, CaseOf(level, index)) && CasedBelow(g.code, level, index, index + 1)
  }

  ghost predicate DidChecks(b: Snap, cases: Cases, subj: nat, jumps: seq<seq<nat>>, c: Snap) {
    var g := GenChecks(cases, subj, |b.stack|, 0, |b.code|, b.cs);
    && After(b, g.code, g.cs, c)
    && |jumps| == Count(cases) && CasedBelow(g.code, |b.stack|, 0, |jumps|)
    && forall i :: 0 <= i < |jumps| ==> jumps[i] == Places(g.code, |b.code|, CaseOf(|b.stack|, i))
  }

  lemma NoPlaces(base: nat, level: nat, index: nat)
    ensures Places([], base, CaseOf(level, index)) == [] && CasedBelow([], level, index, index)
            && CasedBelow([], level, index, index + 1)
  {
  }

  lemma NoValues(subj: nat, level: nat, index: nat, base: nat, cs: CState)
    ensures GenValues(ENil, subj, ToCase(level, index), base, cs) == Gen([], cs)
  {
  }

  lemma NoChecks(subj: nat, level: nat, index: nat, base: nat, cs: CState)
    ensures GenChecks(NoCase, subj, level, index, base, cs) == Gen([], cs)
  {
  }

  // A jump to a case: emitted with address 0, and in no entry's list.
  lemma AfterCaseJump(a: Snap, eq: nat, level: nat, index: nat, b: Snap)
    requires b == a.(code := a.code + [JumpIfTrue(eq, At(0))])
    ensures After(a, [JumpIfTrue(eq, ToCase(level, index))], a.cs, b)
  {
    var i := JumpIfTrue(eq, ToCase(level, index));
    assert EmittedCode([i], a.stack) == [JumpIfTrue(eq, At(0))];
    forall l | 0 <= l < |a.stack|
      ensures ListedEntry(a.stack[l], l, [i], |a.code|) == a.stack[l]
    {
      PlacesOne(i, |a.code|, Breaks(l));
      PlacesOne(i, |a.code|, Continues(l));
    }
    assert a.stack == Listed(a.stack, [i], |a.code|);
  }

  lemma ValueStep(a: Snap, done: Code, b: Snap, rest: Exprs, subj: nat, level: nat, index: nat, r: nat, c: Snap,
      eq: nat, d: Snap, e: Snap)
    returns (more: Code)
    requires After(a, done, b.cs, b) && CasedBelow(done, level, index, index + 1) && rest.ECons?
    requires DidExpr(b, rest.head, None, r, c) && (eq, d.cs) == AllocTemp(c.cs) && d == c.(cs := d.cs)
    requires e == d.(code := d.code + [Bin2(Eq, eq, subj, r)] + [JumpIfTrue(eq, At(0))],
                     cs := FreeTemp(FreeTemp(d.cs, r), eq))
    ensures After(a, more, e.cs, e) && CasedBelow(more, level, index, index + 1)
    ensures Places(more, |a.code|, CaseOf(level, index))
            == Places(done, |a.code|, CaseOf(level, index)) + [|d.code| + 1]
    ensures var t := ToCase(level, index);
            var g := GenValues(rest, subj, t, |b.code|, b.cs); var gr := GenValues(rest.tail, subj, t, |e.code|, e.cs);
            done + g.code == more + gr.code && g.cs == gr.cs
  {
    hide After, GenExpr, AllocTemp, FreeTemp, Places, Loops, CasedBelow, Settled;
    var t := ToCase(level, index);
    var g := GenExpr(rest.head, None, |b.code|, b.cs);
    AfterFrame(a, done, b.cs, b);
    AfterFrame(b, g.code, g.cs, c);
    AfterCat(a, done, b.cs, b, g.code, g.cs, c);
    var eqn, jump := Bin2(Eq, eq, subj, r), JumpIfTrue(eq, t);
    var d1 := d.(code := d.code + [eqn], cs := FreeTemp(d.cs, r));
    AfterNext(a, done + g.code, g.cs, c, d, eqn, d.(code := d.code + [eqn]), d1);
    var e1 := d1.(code := d1.code + [JumpIfTrue(eq, At(0))]);
    AfterCaseJump(d1, eq, level, index, e1);
    AfterCat(a, done + g.code + [eqn], d1.cs, d1, [jump], d1.cs, e1);
    AfterState(a, done + g.code + [eqn] + [jump], d1.cs, e1, e.cs, e);
    var own := g.code + [eqn] + [jump];
    more := done + own;
    assert more == done + g.code + [eqn] + [jump];
    ExprSettled(rest.head, |b.code|, b.cs);
    OwnJump(g.code, eqn, jump, |b.code|, level, index);
    PlacesCat(done, own, |a.code|, CaseOf(level, index));
    CasedSame(done, own, level, index);
    var gr := GenValues(rest.tail, subj, t, |e.code|, e.cs);
    assert GenValues(rest, subj, t, |b.code|, b.cs).code == g.code + [eqn, jump] + gr.code;
    assert done + (g.code + [eqn, jump] + gr.code) == more + gr.code;
  }

  lemma OwnJump(c: Code, eqn: Instr, jump: Instr, base: nat, level: nat, index: nat)
    requires Settled(c) && TargetOf(eqn).None? && TargetOf(jump) == Some(ToCase(level, index))
    ensures var own := c + [eqn] + [jump];
            && Places(own, base, CaseOf(level, index)) == [base + |c| + 1] && CasedBelow(own, level, index, index + 1)
  {
    hide Places;
    var m := CaseOf(level, index);
    SettledPlaces(c, base, m);
    PlacesOne(eqn, base + |c|, m);
    PlacesOne(jump, base + |c| + 1, m);
    PlacesCat(c, [eqn], base, m);
    PlacesCat(c + [eqn], [jump], base, m);
  }

  lemma CasedSame(c: Code, d: Code, level: nat, index: nat)
    requires CasedBelow(c, level, index, index + 1) && CasedBelow(d, level, index, index + 1)
    ensures CasedBelow(c + d, level, index, index + 1)
  {
  }

  lemma CheckStep(a: Snap, done: Code, b: Snap, rest: Cases, subj: nat, level: nat, jumps: seq<seq<nat>>,
      list: seq<nat>, c: Snap)
    returns (more: Code)
    requires After(a, done, b.cs, b) && CasedBelow(done, level, 0, |jumps|) && rest.Case?
    requires forall i :: 0 <= i < |jumps| ==> jumps[i] == Places(done, |a.code|, CaseOf(level, i))
    requires DidValues(b, rest.values, subj, level, |jumps|, list, c)
    ensures After(a, more, c.cs, c) && CasedBelow(more, level, 0, |jumps| + 1)
    ensures forall i :: 0 <= i < |jumps| + 1 ==> (jumps + [list])[i] == Places(more, |a.code|, CaseOf(level, i))
    ensures var n := |jumps|;
            var g := GenChecks(rest, subj, level, n, |b.code|, b.cs);
              var gr := GenChecks(rest.rest, subj, level, n + 1, |c.code|, c.cs);
            done + g.code == more + gr.code && g.cs == gr.cs
  {
    hide After, GenValues, Places, CasedBelow, Loops;
    var n := |jumps|;
    var g := GenValues(rest.values, subj, ToCase(level, n), |b.code|, b.cs);
    AfterFrame(a, done, b.cs, b);
    AfterFrame(b, g.code, g.cs, c);
    AfterCat(a, done, b.cs, b, g.code, g.cs, c);
    more := done + g.code;
    CasedCat(done, g.code, level, 0, n, n + 1);
    forall i | 0 <= i < n + 1
      ensures (jumps + [list])[i] == Places(more, |a.code|, CaseOf(level, i))
    {
      PlacesCat(done, g.code, |a.code|, CaseOf(level, i));
      if i < n {
        CasedPlaces(g.code, |b.code|, level, n, n + 1, i);
      } else {
        CasedPlaces(done, |a.code|, level, 0, n, i);
      }
    }
    var gr := GenChecks(rest.rest, subj, level, n + 1, |c.code|, c.cs);
    assert done + (g.code + gr.code) == more + gr.code;
  }

  lemma ChecksFrame(b: Snap, cases: Cases, subj: nat, jumps: seq<seq<nat>>, c: Snap)
    requires DidChecks(b, cases, subj, jumps, c)
    ensures Framed(b, c)
  {
    hide After, GenChecks, Framed, Places;
    var g := GenChecks(cases, subj, |b.stack|, 0, |b.code|, b.cs);
    AfterFrame(b, g.code, g.cs, c);
  }

  // The comparisons are done, and the jump taken when none holds is emitted behind them.
  ghost predicate ChecksDone(b: Snap, cases: Cases, subj: nat, jumps: seq<seq<nat>>, noMatch: nat, d: Snap) {
    && |d.code| == noMatch + 1 && d.code[noMatch] == Jump(At(0))
    && DidChecks(b, cases, subj, jumps, d.(code := d.code[..noMatch]))
  }

  lemma ChecksHead(b: Snap, cases: Cases, subj: nat, jumps: seq<seq<nat>>, c: Snap, d: Snap)
    requires DidChecks(b, cases, subj, jumps, c)
    requires d.code == c.code + [Jump(At(0))] && d.cs == c.cs && d.pending == c.pending && d.stack == c.stack
    ensures ChecksDone(b, cases, subj, jumps, |c.code|, d)
  {
    hide DidChecks;
    assert d.code[..|c.code|] == c.code;
    assert d.(code := d.code[..|c.code|]) == c;
  }

  function SetCase(i: Instr, level: nat, starts: seq<nat>): Instr {
    match TargetOf(i)
    case None => i
    case Some(t) => if t.ToCase? && t.level == level && t.index < |starts| then Retarget(i, At(starts[t.index])) else i
  }

  // The comparisons once the first cases' addresses are known.
  function CasesSet(c: Code, level: nat, starts: seq<nat>): (r: Code)
    ensures |r| == |c|
  {
    seq(|c|, k requires 0 <= k < |c| => SetCase(c[k], level, starts))
  }

  ghost predicate HeadIs(b: Snap, cases: Cases, subj: nat, starts: seq<nat>, nm: nat, hd: Snap) {
    var g := GenChecks(cases, subj, |b.stack|, 0, |b.code|, b.cs);
    After(b, CasesSet(g.code, |b.stack|, starts) + [Jump(At(nm))], g.cs, hd)
  }

  // The bodies emitted behind the head, with the entry of the switch open.
  ghost predicate InBodies(hd: Snap, bodies: Code, now: Snap) {
    After(hd.(stack := hd.stack + [SwitchEntry(hd)]), bodies, now.cs, now)
  }

  // The jumps at the ends of the bodies are emitted as holes.
  ghost predicate EndsOf(c: Code, c0: Code, ends: seq<nat>, base: nat, level: nat) {
    && |c| == |c0| && (forall p :: p in ends ==> base <= p < base + |c|)
    && forall k :: 0 <= k < |c| ==>
         if base + k in ends then c[k] == Jump(ToEnd(level)) && c0[k] == Jump(At(0)) else c[k] == c0[k]
  }

  ghost predicate BodiesLeft(d: Snap, cases: Cases, rest: Cases, full: GenC, starts: seq<nat>, sym: Code, bodies: Code,
                             ends: seq<nat>, hasDefault: bool, nm: nat, at: nat, cs: CState) {
    var gr := GenCases(rest, at, cs, InnerLoops(d), d.pending);
    var after := |d.code| + |full.code|;
    && full.code == sym + gr.code && full.starts == starts + gr.starts && full.cs == gr.cs
    && at == |d.code| + |sym| && EndsOf(sym, bodies, ends, |d.code|, |d.stack|)
    && DefaultStart(cases, full.starts, after) == DefaultStart(rest, gr.starts, if hasDefault then nm else after)
  }

  ghost predicate DidBodies(b: Snap, cases: Cases, subj: nat, d: Snap, ends: seq<nat>, hasDefault: bool, nm: nat,
                            hd: Snap, bodies: Code, e: Snap) {
    var full := GenCases(cases, |d.code|, d.cs, InnerLoops(d), d.pending);
    var after := |d.code| + |full.code|;
    && HeadIs(b, cases, subj, full.starts, nm, hd) && |hd.code| == |d.code| && InBodies(hd, bodies, e)
    && e.cs == full.cs && EndsOf(full.code, bodies, ends, |d.code|, |d.stack|) && |full.starts| == Count(cases)
    && DefaultStart(cases, full.starts, after) == if hasDefault then nm else after
  }

  lemma HeadFacts(b: Snap, cases: Cases, subj: nat, jumps: seq<seq<nat>>, noMatch: nat, d: Snap, starts: seq<nat>,
      nm: nat, hd: Snap)
    requires ChecksDone(b, cases, subj, jumps, noMatch, d) && HeadIs(b, cases, subj, starts, nm, hd)
    ensures |hd.code| == |d.code| == noMatch + 1 && hd.cs == d.cs && Framed(b, hd) && Framed(b, d)
    ensures Loops(hd.stack) == Loops(d.stack) && |hd.stack| == |d.stack| && hd.pending == d.pending
            && InnerLoops(hd) == InnerLoops(d)
  {
    hide After, GenChecks, CasesSet, Places, CasedBelow;
    var g := GenChecks(cases, subj, |b.stack|, 0, |b.code|, b.cs);
    AfterFrame(b, g.code, g.cs, d.(code := d.code[..noMatch]));
    AfterFrame(b, CasesSet(g.code, |b.stack|, starts) + [Jump(At(nm))], g.cs, hd);
  }

  lemma JumpsBelow(b: Snap, cases: Cases, subj: nat, jumps: seq<seq<nat>>, noMatch: nat, d: Snap, i: nat)
    requires ChecksDone(b, cases, subj, jumps, noMatch, d) && i < |jumps|
    ensures forall p :: p in jumps[i] ==> p < noMatch
  {
    hide After, GenChecks, Places, CasedBelow;
    var g := GenChecks(cases, subj, |b.stack|, 0, |b.code|, b.cs);
    AfterFrame(b, g.code, g.cs, d.(code := d.code[..noMatch]));
    PlacesIn(g.code, |b.code|, CaseOf(|b.stack|, i));
  }

  lemma InBodiesFrame(hd: Snap, bodies: Code, e: Snap)
    requires InBodies(hd, bodies, e)
    ensures |e.code| == |hd.code| + |bodies| && |e.stack| == |hd.stack| + 1 && e.pending == hd.pending
    ensures Loops(e.stack) == InnerLoops(hd)
  {
    hide After;
    AfterFrame(hd.(stack := hd.stack + [SwitchEntry(hd)]), bodies, e.cs, e);
    PushedLoops(hd.stack, SwitchEntry(hd));
  }

  lemma SetNone(c: Code, level: nat)
    ensures CasesSet(c, level, []) == c
  {
  }

  lemma BodiesStart(b: Snap, cases: Cases, subj: nat, jumps: seq<seq<nat>>, noMatch: nat, d: Snap)
    requires ChecksDone(b, cases, subj, jumps, noMatch, d)
    ensures HeadIs(b, cases, subj, [], 0, d) && |jumps| == Count(cases)
    ensures var now := d.(stack := d.stack + [SwitchEntry(d)]);
            var full := GenCases(cases, |d.code|, d.cs, InnerLoops(d), d.pending);
            InBodies(d, [], now) && BodiesLeft(d, cases, cases, full, [], [], [], [], false, 0, |d.code|, d.cs)
  {
    hide After, GenChecks, Places, CasedBelow, GenCases, CasesSet;
    var g := GenChecks(cases, subj, |b.stack|, 0, |b.code|, b.cs);
    var c := d.(code := d.code[..noMatch]);
    AfterFrame(b, g.code, g.cs, c);
    assert d.code == c.code + [Jump(At(0))];
    AfterNext(b, g.code, g.cs, c, c, Jump(At(0)), d, d);
    SetNone(g.code, |b.stack|);
    AfterNothing(d.(stack := d.stack + [SwitchEntry(d)]));
    var full := GenCases(cases, |d.code|, d.cs, InnerLoops(d), d.pending);
    assert [] + full.code == full.code && [] + full.starts == full.starts;
  }

  lemma SetNext(c: Code, level: nat, starts: seq<nat>, base: nat, ip: nat)
    ensures Retargeted(CasesSet(c, level, starts), base, Places(c, base, CaseOf(level, |starts|)), ip)
         == CasesSet(c, level, starts + [ip])
    ensures Holes(CasesSet(c, level, starts), base, Places(c, base, CaseOf(level, |starts|)))
  {
    hide Places;
    var m := CaseOf(level, |starts|);
    PlacesIn(c, base, m);
    var r := Retargeted(CasesSet(c, level, starts), base, Places(c, base, m), ip);
    forall k | 0 <= k < |c|
      ensures r[k] == CasesSet(c, level, starts + [ip])[k]
    {
      assert base + k in Places(c, base, m) <==> Hits(c[base + k - base], m);
      SetOne(c[k], level, starts, ip);
    }
    forall q | q in Places(c, base, m)
      ensures Hole(CasesSet(c, level, starts)[q - base])
    {
      SetOne(c[q - base], level, starts, ip);
    }
  }

  lemma SetOne(i: Instr, level: nat, starts: seq<nat>, ip: nat)
    ensures var m := CaseOf(level, |starts|);
            && SetCase(i, level, starts + [ip])
                 == (if Hits(i, m) then Retarget(SetCase(i, level, starts), At(ip)) else SetCase(i, level, starts))
            && (Hits(i, m) ==> Hole(SetCase(i, level, starts)))
  {
  }

  // Patching the head while the bodies follow it.
  lemma HeadPatched(hd: Snap, bodies: Code, e: Snap, list: seq<nat>, t: nat, f: Snap) returns (hd1: Snap)
    requires InBodies(hd, bodies, e) && (forall p :: p in list ==> p < |hd.code|)
    requires f == e.(code := Retargeted(e.code, 0, list, t))
    ensures hd1 == hd.(code := Retargeted(hd.code, 0, list, t)) && InBodies(hd1, bodies, f)
  {
    hide Retargeted, Listed, EmittedCode;
    hd1 := hd.(code := Retargeted(hd.code, 0, list, t));
    RetargetLeft(hd.code, EmittedCode(bodies, hd.stack + [SwitchEntry(hd)]), 0, list, t);
  }

  lemma HeadStep(b: Snap, cases: Cases, subj: nat, jumps: seq<seq<nat>>, noMatch: nat, d: Snap, starts: seq<nat>,
      nm: nat,
                 hd: Snap, bodies: Code, isDefault: bool, e: Snap, f: Snap) returns (hd2: Snap)
    requires ChecksDone(b, cases, subj, jumps, noMatch, d) && |starts| < |jumps|
    requires HeadIs(b, cases, subj, starts, nm, hd) && InBodies(hd, bodies, e)
    requires var ip := |e.code|;
             var e1 := if isDefault then e.(code := Retargeted(e.code, 0, [noMatch], ip)) else e;
             f == e1.(code := Retargeted(e1.code, 0, jumps[|starts|], ip))
    ensures HeadIs(b, cases, subj, starts + [|e.code|], if isDefault then |e.code| else nm, hd2)
    ensures InBodies(hd2, bodies, f) && |hd2.code| == |hd.code|
  {
    hide After, GenChecks, Places, CasedBelow, Retargeted, InBodies, CasesSet;
    HeadFacts(b, cases, subj, jumps, noMatch, d, starts, nm, hd);
    JumpsBelow(b, cases, subj, jumps, noMatch, d, |starts|);
    var ip, level := |e.code|, |b.stack|;
    var g := GenChecks(cases, subj, level, 0, |b.code|, b.cs);
    var set0 := CasesSet(g.code, level, starts);
    AfterFrame(b, g.code, g.cs, d.(code := d.code[..noMatch]));
    var hd1, e1 := hd, e;
    var nm1 := if isDefault then ip else nm;
    if isDefault {
      hd1 := HeadPatched(hd, bodies, e, [noMatch], ip, e.(code := Retargeted(e.code, 0, [noMatch], ip)));
      e1 := e.(code := Retargeted(e.code, 0, [noMatch], ip));
      PatchLast(b, set0, nm, g.cs, hd, noMatch, ip, hd1);
    }
    hd2 := HeadPatched(hd1, bodies, e1, jumps[|starts|], ip, f);
    SetNext(g.code, level, starts, |b.code|, ip);
    assert [] + set0 + [Jump(At(nm1))] == set0 + [Jump(At(nm1))];
    PatchMiddle(b, [], set0, [Jump(At(nm1))], g.cs, hd1, jumps[|starts|], ip, hd2);
    var set1 := CasesSet(g.code, level, starts + [ip]);
    assert [] + set1 + [Jump(At(nm1))] == set1 + [Jump(At(nm1))];
  }

  lemma PatchLast(b: Snap, c: Code, nm: nat, cs: CState, hd: Snap, p: nat, ip: nat, hd1: Snap)
    requires After(b, c + [Jump(At(nm))], cs, hd) && p == |b.code| + |c|
             && hd1 == hd.(code := Retargeted(hd.code, 0, [p], ip))
    ensures After(b, c + [Jump(At(ip))], cs, hd1)
  {
    hide After, Retargeted;
    assert c + [Jump(At(nm))] + [] == c + [Jump(At(nm))];
    PatchMiddle(b, c, [Jump(At(nm))], [], cs, hd, [p], ip, hd1);
    RetargetOne([], Jump(At(nm)), [], p, ip);
    assert [] + [Jump(At(nm))] + [] == [Jump(At(nm))] && [] + [Jump(At(ip))] + [] == [Jump(At(ip))];
    assert c + [Jump(At(ip))] + [] == c + [Jump(At(ip))];
  }

  lemma CasesStep(rest: Cases, at: nat, cs: CState, d: Snap)
    requires rest.Case?
    ensures var g := GenBlock(rest.body, at, cs, InnerLoops(d), d.pending);
            var gr := GenCases(rest.rest, at + |g.code| + 1, g.cs, InnerLoops(d), d.pending);
            GenCases(rest, at, cs, InnerLoops(d), d.pending)
            == GenC(g.code + [Jump(ToEnd(|d.stack|))] + gr.code, [at] + gr.starts, gr.cs)
  {
    hide GenBlock;
  }

  lemma BodyStep(d: Snap, cases: Cases, rest: Cases, full: GenC, starts: seq<nat>, sym: Code, bodies: Code,
      ends: seq<nat>,
                 hasDefault: bool, nm: nat, nm1: nat, hd: Snap, f: Snap, g: Snap, h: Snap)
                   returns (sym1: Code, more: Code)
    requires rest.Case? && BodiesLeft(d, cases, rest, full, starts, sym, bodies, ends, hasDefault, nm, |f.code|, f.cs)
    requires InBodies(hd, bodies, f) && |hd.code| == |d.code| && Loops(f.stack) == InnerLoops(d)
             && f.pending == d.pending
    requires nm1 == if rest.values.ENil? then |f.code| else nm
    requires DidBlock(f, rest.body, g) && h == g.(code := g.code + [Jump(At(0))])
    ensures InBodies(hd, more, h)
    ensures BodiesLeft(d, cases, rest.rest, full, starts + [|f.code|], sym1, more, ends + [|g.code|],
                       hasDefault || rest.values.ENil?, nm1, |h.code|, h.cs)
  {
    hide After, GenBlock, GenCases, Loops, InnerLoops, EndsOf;
    var gb := GenBlock(rest.body, |f.code|, f.cs, Loops(f.stack), f.pending);
    AfterFrame(f, gb.code, gb.cs, g);
    var a := hd.(stack := hd.stack + [SwitchEntry(hd)]);
    AfterCat(a, bodies, f.cs, f, gb.code, gb.cs, g);
    AfterNext(a, bodies + gb.code, gb.cs, g, g, Jump(At(0)), h, h);
    more := bodies + gb.code + [Jump(At(0))];
    var jump := Jump(ToEnd(|d.stack|));
    sym1 := sym + gb.code + [jump];
    CasesStep(rest, |f.code|, f.cs, d);
    var gr := GenCases(rest.rest, |h.code|, h.cs, InnerLoops(d), d.pending);
    assert sym + (gb.code + [jump] + gr.code) == sym1 + gr.code;
    assert starts + ([|f.code|] + gr.starts) == starts + [|f.code|] + gr.starts;
    EndsMore(sym, bodies, ends, |d.code|, |d.stack|, gb.code);
    DefaultNext(rest, |f.code|, gr.starts, if hasDefault then nm else |d.code| + |full.code|);
  }

  lemma DefaultNext(rest: Cases, at: nat, starts: seq<nat>, dflt: nat)
    requires rest.Case?
    ensures DefaultStart(rest, [at] + starts, dflt)
            == DefaultStart(rest.rest, starts, if rest.values.ENil? then at else dflt)
  {
    assert ([at] + starts)[1..] == starts;
  }

  lemma EndsMore(c: Code, c0: Code, ends: seq<nat>, base: nat, level: nat, body: Code)
    requires EndsOf(c, c0, ends, base, level)
    ensures EndsOf(c + body + [Jump(ToEnd(level))], c0 + body + [Jump(At(0))], ends + [base + |c| + |body|], base,
                   level)
  {
    var n := |c| + |body|;
    var d, d0, more := c + body + [Jump(ToEnd(level))], c0 + body + [Jump(At(0))], ends + [base + n];
    forall k | 0 <= k < |d|
      ensures if base + k in more then d[k] == Jump(ToEnd(level)) && d0[k] == Jump(At(0)) else d[k] == d0[k]
    {
      assert base + k in more <==> base + k in ends || k == n;
      if |c| <= k < n {
        assert d[k] == body[k - |c|] == d0[k];
      }
    }
  }

  lemma BodiesEnd(b: Snap, cases: Cases, subj: nat, d: Snap, full: GenC, starts: seq<nat>, sym: Code, bodies: Code,
      ends: seq<nat>,
                  hasDefault: bool, nm: nat, hd: Snap, e: Snap)
    requires full == GenCases(cases, |d.code|, d.cs, InnerLoops(d), d.pending) && |starts| == Count(cases)
    requires HeadIs(b, cases, subj, starts, nm, hd) && |hd.code| == |d.code| && InBodies(hd, bodies, e)
    requires BodiesLeft(d, cases, NoCase, full, starts, sym, bodies, ends, hasDefault, nm, |e.code|, e.cs)
    ensures DidBodies(b, cases, subj, d, ends, hasDefault, nm, hd, bodies, e)
  {
    hide HeadIs, InBodies, InnerLoops;
    NoBodies(|e.code|, e.cs, d);
    assert sym + [] == sym && starts + [] == starts;
    assert DefaultStart(NoCase, [], if hasDefault then nm else |d.code| + |full.code|) == if hasDefault then nm
      else |d.code| + |full.code|;
  }

  lemma NoBodies(at: nat, cs: CState, d: Snap)
    ensures GenCases(NoCase, at, cs, InnerLoops(d), d.pending) == GenC([], [], cs)
  {
  }

  lemma BodiesFrame(b: Snap, cases: Cases, subj: nat, jumps: seq<seq<nat>>, noMatch: nat, d: Snap, ends: seq<nat>,
      hasDefault: bool, nm: nat,
                    hd: Snap, bodies: Code, e: Snap)
    requires ChecksDone(b, cases, subj, jumps, noMatch, d)
             && DidBodies(b, cases, subj, d, ends, hasDefault, nm, hd, bodies, e)
    ensures |e.stack| == |d.stack| + 1 && e.pending == d.pending && noMatch < |d.code| <= |e.code|
    ensures e.stack[|d.stack|].isSwitch
    ensures forall p :: p in ends || p in e.stack[|d.stack|].breaks ==> p < |e.code|
  {
    hide After, GenCases, Loops, Places, InnerCode, HeadIs, ChecksDone, InnerLoops;
    var full := GenCases(cases, |d.code|, d.cs, InnerLoops(d), d.pending);
    HeadFacts(b, cases, subj, jumps, noMatch, d, full.starts, nm, hd);
    InBodiesFrame(hd, bodies, e);
    Popped(hd, SwitchEntry(hd), bodies, e.cs, e);
    BreaksAre(SwitchEntry(hd), bodies, |hd.code|, |hd.stack|);
    ListHoles(bodies, |hd.code|, Breaks(|hd.stack|), None);
  }

  // What closing a switch does.
  function SwitchRun(f: Snap, noMatch: Option<nat>, ends: seq<nat>, breaks: seq<nat>): Snap {
    var after := |f.code|;
    var c := if noMatch.Some? then Retargeted(f.code, 0, [noMatch.value], after) else f.code;
    f.(code := Retargeted(Retargeted(c, 0, ends, after), 0, breaks, after))
  }

  // Once the cases' addresses are all known, the comparisons are patched.
  lemma ChecksPatched(c: Code, level: nat, fx: Fix)
    requires CasedBelow(c, level, 0, |fx.starts|)
    ensures CasesSet(c, level, fx.starts) == Patch(c, level, fx)
  {
    forall k | 0 <= k < |c|
      ensures CasesSet(c, level, fx.starts)[k] == Patch(c, level, fx)[k]
    {
    }
  }

  function PendSet(ps: seq<Stmts>): set<Value> {
    if ps == [] then {} else PendSet(ps[..|ps| - 1]) + StmtsLits(ps[|ps| - 1])
  }

  lemma {:induction false} PendSetIs(ps: seq<Stmts>, lits: set<Value>)
    requires PendSet(ps) <= lits
    ensures PendLits(ps, lits)
    decreases |ps|
  {
    hide StmtsLits;
    if ps != [] {
      PendSetIs(ps[..|ps| - 1], lits);
      assert forall i :: 0 <= i < |ps| - 1 ==> ps[..|ps| - 1][i] == ps[i];
    }
  }

  predicate NoCases(c: Code) {
    forall k :: 0 <= k < |c| && TargetOf(c[k]).Some? ==> !TargetOf(c[k]).value.ToCase?
  }

  lemma BodiesUncased(cases: Cases, base: nat, cs: CState, loops: seq<Loop>, pending: seq<Stmts>)
    requires |loops| > 0
    ensures NoCases(GenCases(cases, base, cs, loops, pending).code)
  {
    hide GenCases, PoolIn, PendLits;
    var lits := CasesLits(cases) + PendSet(pending);
    PendSetIs(pending, lits);
    CasesIn(cases, base, cs, loops, pending, lits);
    var c := GenCases(cases, base, cs, loops, pending).code;
    forall k | 0 <= k < |c| && TargetOf(c[k]).Some?
      ensures !TargetOf(c[k]).value.ToCase?
    {
      assert InstrIn(c[k], base, base + |c|, |loops|);
    }
  }

  // Patching the ends and the breaks of the bodies is patching the code.
  lemma BodiesClosed(c: Code, c0: Code, ends: seq<nat>, base: nat, level: nat, after: nat, starts: seq<nat>)
    requires EndsOf(c, c0, ends, base, level) && NoCases(c) && Places(c0, base, Continues(level)) == []
    ensures Retargeted(Retargeted(InnerCode(c0, level, None), base, ends, after), base,
                       Places(c0, base, Breaks(level)), after)
         == Patch(c, level, Fix(after, after, starts))
    ensures Holes(InnerCode(c0, level, None), base, ends)
  {
    hide Places;
    PlacesIn(c0, base, Breaks(level));
    PlacesIn(c0, base, Continues(level));
    var brks := Places(c0, base, Breaks(level));
    var r := Retargeted(Retargeted(InnerCode(c0, level, None), base, ends, after), base, brks, after);
    var fx := Fix(after, after, starts);
    forall k | 0 <= k < |c|
      ensures r[k] == Patch(c, level, fx)[k]
    {
      assert base + k in brks <==> Hits(c0[base + k - base], Breaks(level));
      assert base + k !in Places(c0, base, Continues(level));
      BodyInstr(c[k], c0[k], base + k in ends, level, fx);
    }
    forall p | p in ends
      ensures Hole(InnerCode(c0, level, None)[p - base])
    {
      assert c0[p - base] == Jump(At(0)) by {
        assert base + (p - base) in ends;
      }
    }
  }

  lemma BodyInstr(i: Instr, i0: Instr, isEnd: bool, level: nat, fx: Fix)
    requires if isEnd then i == Jump(ToEnd(level)) && i0 == Jump(At(0)) else i == i0
    requires TargetOf(i).Some? ==> !TargetOf(i).value.ToCase?
    requires !Hits(i0, Continues(level)) && fx.brk == fx.cont
    ensures var j := Inner(i0, level, None);
            var j1 := if isEnd then Retarget(j, At(fx.brk)) else j;
            MapTarget(i, level, fx) == if Hits(i0, Breaks(level)) then Retarget(j1, At(fx.brk)) else j1
  {
  }

  // The closing patches, on the whole code of the switch.
  lemma SwitchClosing(a: Snap, x: Code, nm: nat, body: Code, cs: CState, f: Snap, noMatch: Option<nat>, ends: seq<nat>,
      brks: seq<nat>, g: Snap)
    requires After(a, x + [Jump(At(nm))] + body, cs, f)
    requires noMatch.Some? ==> noMatch.value == |a.code| + |x|
    requires var base := |a.code| + |x| + 1; Holes(body, base, ends) && Holes(body, base, brks)
    requires g == SwitchRun(f, noMatch, ends, brks)
    ensures var after := |f.code|; var base := |a.code| + |x| + 1;
            After(a, x + [Jump(At(if noMatch.Some? then after else nm))]
                  + Retargeted(Retargeted(body, base, ends, after), base, brks, after), cs, g)
  {
    hide After, Retargeted, Holes;
    var after, base := |f.code|, |a.code| + |x| + 1;
    var dflt := if noMatch.Some? then after else nm;
    var f1 := if noMatch.Some? then f.(code := Retargeted(f.code, 0, [noMatch.value], after)) else f;
    if noMatch.Some? {
      JumpHole(nm, |a.code| + |x|);
      PatchMiddle(a, x, [Jump(At(nm))], body, cs, f, [noMatch.value], after, f1);
      RetargetOne([], Jump(At(nm)), [], |a.code| + |x|, after);
      assert [] + [Jump(At(nm))] + [] == [Jump(At(nm))] && [] + [Jump(At(after))] + [] == [Jump(At(after))];
    }
    var head := x + [Jump(At(dflt))];
    assert head + body + [] == head + body;
    var f2 := f1.(code := Retargeted(f1.code, 0, ends, after));
    PatchMiddle(a, head, body, [], cs, f1, ends, after, f2);
    var body1 := Retargeted(body, base, ends, after);
    HolesKept(body, base, brks, ends, after);
    PatchMiddle(a, head, body1, [], cs, f2, brks, after, g);
    var body2 := Retargeted(body1, base, brks, after);
    assert head + body2 + [] == head + body2;
  }

  lemma JumpHole(nm: nat, p: nat)
    ensures Holes([Jump(At(nm))], p, [p])
  {
  }

  // The code of the switch before it is closed.
  lemma SwitchOpen(a: Snap, gs: GenE, cases: Cases, subj: nat, b: Snap, starts: seq<nat>, nm: nat, hd: Snap,
      bodies: Code, e: Snap, f: Snap)
    requires After(a, gs.code, gs.cs, b) && HeadIs(b, cases, subj, starts, nm, hd) && InBodies(hd, bodies, e)
    requires var level := |hd.stack|; |e.stack| == level + 1 && f == e.(stack := e.stack[..level])
    ensures var level := |hd.stack|; var gv := GenChecks(cases, subj, |b.stack|, 0, |b.code|, b.cs);
            && After(a, gs.code + CasesSet(gv.code, |b.stack|, starts) + [Jump(At(nm))]
                     + InnerCode(bodies, level, None), e.cs, f)
            && e.stack[level].breaks == Places(bodies, |hd.code|, Breaks(level))
            && e.stack[level].continues == Places(bodies, |hd.code|, Continues(level))
            && |f.code| == |hd.code| + |bodies|
  {
    hide After, GenChecks, Places, CasesSet, InnerCode, HeadIs;
    var level := |hd.stack|;
    var gv := GenChecks(cases, subj, |b.stack|, 0, |b.code|, b.cs);
    var set1 := CasesSet(gv.code, |b.stack|, starts);
    HeadCat(a, gs.code, gs.cs, b, cases, subj, starts, nm, hd);
    Popped(hd, SwitchEntry(hd), bodies, e.cs, e);
    var body := InnerCode(bodies, level, None);
    AfterCat(a, gs.code + (set1 + [Jump(At(nm))]), hd.cs, hd, body, e.cs, f);
    assert gs.code + (set1 + [Jump(At(nm))]) + body == gs.code + set1 + [Jump(At(nm))] + body;
    ContinuesAre(SwitchEntry(hd), bodies, |hd.code|, level);
    BreaksAre(SwitchEntry(hd), bodies, |hd.code|, level);
    AfterFrame(hd, body, e.cs, f);
  }

  lemma SwitchDone(a: Snap, subject: Expr, cases: Cases, subj: nat, b: Snap, jumps: seq<seq<nat>>, noMatch: nat,
      d: Snap, ends: seq<nat>,
                   hasDefault: bool, nm: nat, hd: Snap, bodies: Code, e: Snap, f: Snap, g: Snap, h: Snap)
    requires DidExpr(a, subject, None, subj, b) && ChecksDone(b, cases, subj, jumps, noMatch, d)
    requires DidBodies(b, cases, subj, d, ends, hasDefault, nm, hd, bodies, e)
    requires |e.stack| == |d.stack| + 1 && e.stack[|d.stack|].continues == [] && f == e.(stack := e.stack[..|d.stack|])
    requires g == SwitchRun(f, if hasDefault then None else Some(noMatch), ends, e.stack[|d.stack|].breaks)
    requires h == g.(cs := FreeTemp(g.cs, subj))
    ensures DidStmt(a, Switch(subject, cases), h)
  {
    hide After, GenExpr, GenChecks, GenCases, Places, CasesSet, CasedBelow, Retargeted, InnerCode, Loops, EndsOf,
         DefaultStart, FreeTemp, Patch, SwitchRun, HeadIs, InBodies, ChecksDone;
    var gs := GenExpr(subject, None, |a.code|, a.cs);
    AfterFrame(a, gs.code, gs.cs, b);
    var level := |a.stack|;
    var gv := GenChecks(cases, subj, level, 0, |b.code|, b.cs);
    var full := GenCases(cases, |d.code|, d.cs, InnerLoops(d), d.pending);
    HeadFacts(b, cases, subj, jumps, noMatch, d, full.starts, nm, hd);
    SwitchOpen(a, gs, cases, subj, b, full.starts, nm, hd, bodies, e, f);
    ListHoles(bodies, |hd.code|, Breaks(level), None);
    BodiesUncased(cases, |d.code|, d.cs, InnerLoops(d), d.pending);
    var after := |d.code| + |full.code|;
    SizesAgree(full.code, bodies, ends, |d.code|, level);
    BodiesClosed(full.code, bodies, ends, |d.code|, level, after, full.starts);
    CheckSizes(b, cases, subj, jumps, noMatch, d);
    var x := gs.code + CasesSet(gv.code, level, full.starts);
    SwitchClosing(a, x, nm, InnerCode(bodies, level, None), e.cs, f, if hasDefault then None
                  else Some(noMatch), ends, e.stack[level].breaks, g);
    SwitchWhole(a, subject, cases, gs, gv, full, d, e.cs, g, h);
  }

  lemma SwitchWhole(a: Snap, subject: Expr, cases: Cases, gs: GenE, gv: Gen, full: GenC, d: Snap, cs: CState, g: Snap,
      h: Snap)
    requires gs == GenExpr(subject, None, |a.code|, a.cs)
             && gv == GenChecks(cases, gs.r, |a.stack|, 0, |a.code| + |gs.code|, gs.cs)
    requires full == GenCases(cases, |d.code|, d.cs, InnerLoops(d), d.pending) && cs == full.cs
    requires d.cs == gv.cs && |d.code| == |a.code| + |gs.code| + |gv.code| + 1 && Loops(d.stack) == Loops(a.stack)
             && d.pending == a.pending
    requires CasedBelow(gv.code, |a.stack|, 0, |full.starts|)
    requires var after := |d.code| + |full.code|; var fx := Fix(after, after, full.starts);
             After(a, gs.code + CasesSet(gv.code, |a.stack|, full.starts)
                   + [Jump(At(DefaultStart(cases, full.starts, after)))]
                      + Patch(full.code, |a.stack|, fx), cs, g)
    requires h == g.(cs := FreeTemp(g.cs, gs.r))
    ensures DidStmt(a, Switch(subject, cases), h)
  {
    hide After, GenExpr, GenChecks, GenCases, CasesSet, CasedBelow, Loops, DefaultStart, FreeTemp, Patch, GenStmt;
    LoopsSize(a.stack);
    var level, after := |a.stack|, |d.code| + |full.code|;
    var fx := Fix(after, after, full.starts);
    ChecksPatched(gv.code, level, fx);
    var jump := [Jump(At(DefaultStart(cases, full.starts, after)))];
    var c := gs.code + CasesSet(gv.code, level, full.starts) + jump + Patch(full.code, level, fx);
    AfterFacts(a, c, cs, g);
    AfterState(a, c, cs, g, h.cs, h);
    SwitchGen(subject, cases, |a.code|, a.cs, Loops(a.stack), a.pending);
    assert c == gs.code + (Patch(gv.code, level, fx) + jump + Patch(full.code, level, fx));
  }

  lemma HeadCat(a: Snap, c: Code, cs: CState, b: Snap, cases: Cases, subj: nat, starts: seq<nat>, nm: nat, hd: Snap)
    requires After(a, c, cs, b) && HeadIs(b, cases, subj, starts, nm, hd)
    ensures var g := GenChecks(cases, subj, |b.stack|, 0, |b.code|, b.cs);
            After(a, c + (CasesSet(g.code, |b.stack|, starts) + [Jump(At(nm))]), hd.cs, hd)
  {
    hide After, GenChecks, CasesSet;
    var g := GenChecks(cases, subj, |b.stack|, 0, |b.code|, b.cs);
    var d := CasesSet(g.code, |b.stack|, starts) + [Jump(At(nm))];
    AfterFacts(b, d, g.cs, hd);
    AfterCat(a, c, cs, b, d, g.cs, hd);
  }

  lemma SizesAgree(c: Code, c0: Code, ends: seq<nat>, base: nat, level: nat)
    requires EndsOf(c, c0, ends, base, level)
    ensures |c| == |c0|
  {
  }

  lemma CheckSizes(b: Snap, cases: Cases, subj: nat, jumps: seq<seq<nat>>, noMatch: nat, d: Snap)
    requires ChecksDone(b, cases, subj, jumps, noMatch, d)
    ensures var g := GenChecks(cases, subj, |b.stack|, 0, |b.code|, b.cs);
            && noMatch == |b.code| + |g.code| && d.cs == g.cs && CasedBelow(g.code, |b.stack|, 0, Count(cases))
  {
    hide After, GenChecks, Places, CasedBelow;
    var g := GenChecks(cases, subj, |b.stack|, 0, |b.code|, b.cs);
    AfterFrame(b, g.code, g.cs, d.(code := d.code[..noMatch]));
  }

  lemma SwitchGen(subject: Expr, cases: Cases, base: nat, cs: CState, loops: seq<Loop>, pending: seq<Stmts>)
    ensures var level := |loops|;
            var gs := GenExpr(subject, None, base, cs);
            var gv := GenChecks(cases, gs.r, level, 0, base + |gs.code|, gs.cs);
            var bodiesAt := base + |gs.code| + |gv.code| + 1;
            var gb := GenCases(cases, bodiesAt, gv.cs, loops + [Loop(true, |pending|)], pending);
            var after := bodiesAt + |gb.code|;
            var fx := Fix(after, after, gb.starts);
            GenStmt(Switch(subject, cases), base, cs, loops, pending)
            == Gen(gs.code + (Patch(gv.code, level, fx) + [Jump(At(DefaultStart(cases, gb.starts, after)))]
                              + Patch(gb.code, level, fx)),
                   FreeTemp(gb.cs, gs.r))
  {
    hide GenExpr, GenChecks, GenCases, FreeTemp, DefaultStart, Patch;
    var level := |loops|;
    var gs := GenExpr(subject, None, base, cs);
    var gv := GenChecks(cases, gs.r, level, 0, base + |gs.code|, gs.cs);
    var bodiesAt := base + |gs.code| + |gv.code| + 1;
    var gb := GenCases(cases, bodiesAt, gv.cs, loops + [Loop(true, |pending|)], pending);
    var after := bodiesAt + |gb.code|;
    var fx := Fix(after, after, gb.starts);
    var jump := Jump(At(DefaultStart(cases, gb.starts, after)));
    PatchCat(gv.code + [jump], gb.code, level, fx);
    PatchCat(gv.code, [jump], level, fx);
    PatchJumpAt(jump, level, fx);
  }

  lemma PatchJumpAt(jump: Instr, level: nat, fx: Fix)
    requires jump.Jump? && jump.t.At?
    ensures Patch([jump], level, fx) == [jump]
  {
  }

  // ---------- the whole function ----------

  // No jump of a whole body is left to be patched.
  lemma WholeCode(params: seq<string>, body: Stmts, b: Snap)
    requires var g := GenBlock(body, 0, InitState(params), [], []);
             After(Snap([], [], InitState(params), []), g.code, g.cs, b)
    ensures b.code == GenBlock(body, 0, InitState(params), [], []).code
  {
    hide GenBlock, PoolIn, Places;
    BlockIn(body, 0, InitState(params), [], [], StmtsLits(body));
    var c := GenBlock(body, 0, InitState(params), [], []).code;
    forall k | 0 <= k < |c|
      ensures EmittedInstr(c[k], []) == c[k]
    {
      assert InstrIn(c[k], 0, |c|, 0);
    }
    assert EmittedCode(c, []) == c;
  }
}
