/** What is emitted: constants that are literals of the function, and jumps that stay inside
    the piece of code they belong to. */
module Emission {
  import opened Options
  import opened Values
  import opened Syntax
  import opened Bytecode
  import opened CodeGen
  import opened Discipline
  import opened SwitchProof
  import opened StmtShapes

  // Inside `[lo, hi]`, or the exit of one of the `depth` open loops and switches.
  predicate TargetIn(t: Target, lo: nat, hi: nat, depth: nat) {
    match t
    case At(ip) => lo <= ip <= hi
    case ToBreak(l) => l < depth
    case ToEnd(l) => l < depth
    case ToContinue(l) => l < depth
    case ToCase(_, _) => false
  }

  predicate InstrIn(i: Instr, lo: nat, hi: nat, depth: nat) {
    match i
    case Jump(t) => TargetIn(t, lo, hi, depth)
    case JumpIfFalse(_, t) => TargetIn(t, lo, hi, depth)
    case JumpIfTrue(_, t) => TargetIn(t, lo, hi, depth)
    case JumpIfNull(_, t) => TargetIn(t, lo, hi, depth)
    case TryPush(t) => TargetIn(t, lo, hi, depth)
    case _ => true
  }

  predicate CodeIn(c: Code, lo: nat, hi: nat, depth: nat) {
    forall i :: 0 <= i < |c| ==> InstrIn(c[i], lo, hi, depth)
  }

  lemma CodeInCat(c: Code, d: Code, lo: nat, hi: nat, depth: nat)
    requires CodeIn(c, lo, hi, depth) && CodeIn(d, lo, hi, depth)
    ensures CodeIn(c + d, lo, hi, depth)
  {
  }

  lemma CodeInWider(c: Code, lo: nat, hi: nat, lo1: nat, hi1: nat, depth: nat)
    requires CodeIn(c, lo, hi, depth) && lo1 <= lo && hi <= hi1
    ensures CodeIn(c, lo1, hi1, depth)
  {
    forall i | 0 <= i < |c|
      ensures InstrIn(c[i], lo1, hi1, depth)
    {
      assert InstrIn(c[i], lo, hi, depth);
    }
  }

  ghost predicate PoolIn(pool: seq<Value>, lits: set<Value>) {
    forall i :: 0 <= i < |pool| ==> pool[i] in lits || pool[i].Str?
  }

  // A piece of code emitted at `base`.
  ghost predicate Sound(c: Code, base: nat, depth: nat, cs: CState, cs1: CState, lits: set<Value>) {
    && CodeIn(c, base, base + |c|, depth)
    && (PoolIn(cs.pool, lits) ==> PoolIn(cs1.pool, lits))
  }

  // Two pieces, one behind the other.
  lemma SoundCat(c: Code, d: Code, base: nat, depth: nat, cs: CState, cs1: CState, cs2: CState, lits: set<Value>)
    requires Sound(c, base, depth, cs, cs1, lits) && Sound(d, base + |c|, depth, cs1, cs2, lits)
    ensures Sound(c + d, base, depth, cs, cs2, lits)
  {
    hide PoolIn, InstrIn;
    CodeInWider(c, base, base + |c|, base, base + |c + d|, depth);
    CodeInWider(d, base + |c|, base + |c| + |d|, base, base + |c + d|, depth);
  }

  // The same piece, with a jump or another single instruction behind it.
  lemma SoundWith(c: Code, i: Instr, base: nat, hi: nat, depth: nat)
    requires CodeIn(c, base, base + |c|, depth) && base + |c| + 1 <= hi && InstrIn(i, base, hi, depth)
    ensures CodeIn(c + [i], base, hi, depth)
  {
    CodeInWider(c, base, base + |c|, base, hi, depth);
  }

  lemma ConstIn(cs: CState, v: Value, lits: set<Value>)
    requires PoolIn(cs.pool, lits) && (v in lits || v.Str?)
    ensures PoolIn(AddConst(cs, v).1.pool, lits)
  {
  }

  lemma LoadIn(r: nat, v: Value, cs: CState, base: nat, depth: nat, lits: set<Value>)
    requires v in lits || v.Str?
    ensures var g := LoadValue(r, v, cs); |g.code| == 1 && Sound(g.code, base, depth, cs, g.cs, lits)
  {
    if PoolIn(cs.pool, lits) {
      ConstIn(cs, v, lits);
    }
  }

  lemma DestPool(dest: Option<nat>, cs: CState)
    ensures Dest(dest, cs).1.pool == cs.pool && AllocTemp(cs).1.pool == cs.pool
    ensures forall r :: FreeTemp(cs, r).pool == cs.pool
  {
  }

  lemma {:induction false} ExprIn(e: Expr, dest: Option<nat>, base: nat, cs: CState, depth: nat, lits: set<Value>)
    requires ExprLits(e) <= lits
    ensures var g := GenExpr(e, dest, base, cs); Sound(g.code, base, depth, cs, g.cs, lits)
    decreases e
  {
    hide PoolIn, CodeIn, LooseEq, Alloc, AllocTemp, Dest, FreeTemp, AddConst, LoadValue;
    match e
    case Lit(v) =>
      DestPool(dest, cs);
      LoadIn(Dest(dest, cs).0, v, Dest(dest, cs).1, base, depth, lits);
    case Var(x) => VarIn(x, dest, base, cs, depth, lits);
    case Un(op, a) =>
      ExprIn(a, None, base, cs, depth, lits);
      var g := GenExpr(a, None, base, cs);
      DestPool(dest, g.cs);
      DestPool(dest, Dest(dest, g.cs).1);
      SoundWith(g.code, Un1(op, Dest(dest, g.cs).0, g.r), base, base + |g.code| + 1, depth);
    case Bin(op, a, b) => BinIn(op, a, b, dest, base, cs, depth, lits);
    case Logical(isAnd, a, b) => LogicalIn(isAnd, a, b, dest, base, cs, depth, lits);
    case Coalesce(a, b) => CoalesceIn(a, b, dest, base, cs, depth, lits);
    case Ternary(c, t, f) => TernaryIn(c, t, f, dest, base, cs, depth, lits);
  }

  lemma {:induction false} BinIn(op: BinOp, a: Expr, b: Expr, dest: Option<nat>, base: nat, cs: CState, depth: nat,
      lits: set<Value>)
    requires ExprLits(a) <= lits && ExprLits(b) <= lits
    ensures var g := GenExpr(Bin(op, a, b), dest, base, cs); Sound(g.code, base, depth, cs, g.cs, lits)
    decreases Bin(op, a, b), 0
  {
    hide PoolIn, CodeIn, Alloc, AllocTemp, Dest, FreeTemp;
    ExprIn(a, None, base, cs, depth, lits);
    var ga := GenExpr(a, None, base, cs);
    ExprIn(b, None, base + |ga.code|, ga.cs, depth, lits);
    var gb := GenExpr(b, None, base + |ga.code|, ga.cs);
    SoundCat(ga.code, gb.code, base, depth, cs, ga.cs, gb.cs, lits);
    var (r, cs1) := Dest(dest, gb.cs);
    DestPool(dest, gb.cs);
    DestPool(dest, cs1);
    DestPool(dest, FreeTemp(cs1, gb.r));
    SoundWith(ga.code + gb.code, Bin2(op, r, ga.r, gb.r), base, base + |ga.code + gb.code| + 1, depth);
  }

  lemma {:induction false} LogicalIn(isAnd: bool, a: Expr, b: Expr, dest: Option<nat>, base: nat, cs: CState,
      depth: nat, lits: set<Value>)
    requires ExprLits(a) <= lits && ExprLits(b) <= lits
    ensures var g := GenExpr(Logical(isAnd, a, b), dest, base, cs); Sound(g.code, base, depth, cs, g.cs, lits)
    decreases Logical(isAnd, a, b), 0
  {
    hide PoolIn, CodeIn, InstrIn, GenExpr, ExprLits, Dest;
    DestPool(dest, cs);
    var (r, cs1) := Dest(dest, cs);
    ExprIn(a, Some(r), base, cs1, depth, lits);
    var ga := GenExpr(a, Some(r), base, cs1);
    var at := base + |ga.code| + 1;
    ExprIn(b, Some(r), at, ga.cs, depth, lits);
    var gb := GenExpr(b, Some(r), at, ga.cs);
    var i := if isAnd then JumpIfFalse(r, At(at + |gb.code|)) else JumpIfTrue(r, At(at + |gb.code|));
    JumpIn(i, at + |gb.code|, base, depth);
    Between(ga.code, i, gb.code, base, depth);
    LogicalGen(isAnd, a, b, dest, base, cs);
  }

  lemma JumpIn(i: Instr, hi: nat, base: nat, depth: nat)
    requires base <= hi && (i.JumpIfFalse? || i.JumpIfTrue? || i.JumpIfNull? || i.Jump?) && i.t == At(hi)
    ensures InstrIn(i, base, hi, depth)
  {
  }

  lemma LogicalGen(isAnd: bool, a: Expr, b: Expr, dest: Option<nat>, base: nat, cs: CState)
    ensures var (r, cs1) := Dest(dest, cs);
            var ga := GenExpr(a, Some(r), base, cs1);
            var at := base + |ga.code| + 1;
            var gb := GenExpr(b, Some(r), at, ga.cs);
            var i := if isAnd then JumpIfFalse(r, At(at + |gb.code|)) else JumpIfTrue(r, At(at + |gb.code|));
            GenExpr(Logical(isAnd, a, b), dest, base, cs) == GenE(ga.code + [i] + gb.code, r, gb.cs)
  {
    hide Dest, FreeTemp, AllocTemp, LoadValue, AddConst, Slot;
  }


  lemma VarIn(x: string, dest: Option<nat>, base: nat, cs: CState, depth: nat, lits: set<Value>)
    ensures var g := GenExpr(Var(x), dest, base, cs); Sound(g.code, base, depth, cs, g.cs, lits)
  {
    DestPool(dest, cs);
    if PoolIn(cs.pool, lits) {
      ConstIn(Dest(dest, cs).1, Str(x), lits);
    }
  }

  // One instruction between two pieces of code.
  lemma Between(c: Code, i: Instr, d: Code, base: nat, depth: nat)
    requires CodeIn(c, base, base + |c|, depth) && CodeIn(d, base + |c| + 1, base + |c| + 1 + |d|, depth)
    requires InstrIn(i, base, base + |c| + 1 + |d|, depth)
    ensures CodeIn(c + [i] + d, base, base + |c + [i] + d|, depth)
  {
    hide InstrIn;
    var hi := base + |c + [i] + d|;
    CodeInWider(c, base, base + |c|, base, hi, depth);
    CodeInWider(d, base + |c| + 1, base + |c| + 1 + |d|, base, hi, depth);
  }

  lemma {:induction false} CoalesceIn(a: Expr, b: Expr, dest: Option<nat>, base: nat, cs: CState, depth: nat,
      lits: set<Value>)
    requires ExprLits(a) <= lits && ExprLits(b) <= lits
    ensures var g := GenExpr(Coalesce(a, b), dest, base, cs); Sound(g.code, base, depth, cs, g.cs, lits)
    decreases Coalesce(a, b), 0
  {
    hide PoolIn, CodeIn, GenExpr, ExprLits, Dest, FreeTemp;
    ExprIn(a, None, base, cs, depth, lits);
    var ga := GenExpr(a, None, base, cs);
    DestPool(dest, ga.cs);
    var (r, cs1) := Dest(dest, ga.cs);
    DestPool(dest, cs1);
    var alt := base + |ga.code| + 3;
    ExprIn(b, Some(r), alt, FreeTemp(cs1, ga.r), depth, lits);
    var gb := GenExpr(b, Some(r), alt, FreeTemp(cs1, ga.r));
    var hi := alt + |gb.code|;
    var mid := [JumpIfNull(ga.r, At(alt)), Move(r, ga.r), Jump(At(hi))];
    CodeInWider(ga.code, base, base + |ga.code|, base, hi, depth);
    CodeInWider(gb.code, alt, hi, base, hi, depth);
    ThreeIn(mid, base, hi, depth);
    CodeInCat(ga.code, mid, base, hi, depth);
    CodeInCat(ga.code + mid, gb.code, base, hi, depth);
    CoalesceGen(a, b, dest, base, cs);
  }

  lemma CoalesceGen(l: Expr, rhs: Expr, dest: Option<nat>, base: nat, cs: CState)
    ensures var ga := GenExpr(l, None, base, cs);
            var (r, cs1) := Dest(dest, ga.cs);
            var alt := base + |ga.code| + 3;
            var gb := GenExpr(rhs, Some(r), alt, FreeTemp(cs1, ga.r));
            GenExpr(Coalesce(l, rhs), dest, base, cs)
            == GenE(ga.code + [JumpIfNull(ga.r, At(alt)), Move(r, ga.r), Jump(At(alt + |gb.code|))] + gb.code, r, gb.cs)
  {
    hide Dest, FreeTemp, AllocTemp, LoadValue, AddConst, Slot;
  }

  lemma {:induction false} TernaryIn(c: Expr, t: Expr, f: Expr, dest: Option<nat>, base: nat, cs: CState, depth: nat,
      lits: set<Value>)
    requires ExprLits(c) <= lits && ExprLits(t) <= lits && ExprLits(f) <= lits
    ensures var g := GenExpr(Ternary(c, t, f), dest, base, cs); Sound(g.code, base, depth, cs, g.cs, lits)
    decreases Ternary(c, t, f), 0
  {
    hide GenExpr, PoolIn, CodeIn, InstrIn, Alloc, AllocTemp, Dest, FreeTemp, ExprLits;
    ExprIn(c, None, base, cs, depth, lits);
    var gc := GenExpr(c, None, base, cs);
    DestPool(None, gc.cs);
    var cs0 := FreeTemp(gc.cs, gc.r);
    DestPool(dest, cs0);
    var (r, cs1) := Dest(dest, cs0);
    var thenAt := base + |gc.code| + 1;
    ExprIn(t, Some(r), thenAt, cs1, depth, lits);
    var gt := GenExpr(t, Some(r), thenAt, cs1);
    var alt := thenAt + |gt.code| + 1;
    ExprIn(f, Some(r), alt, gt.cs, depth, lits);
    var gf := GenExpr(f, Some(r), alt, gt.cs);
    TernaryGen(c, t, f, dest, base, cs);
    TernaryCode(gc.code, gc.r, gt.code, gf.code, base, depth);
  }

  lemma TernaryGen(c: Expr, t: Expr, f: Expr, dest: Option<nat>, base: nat, cs: CState)
    ensures var gc := GenExpr(c, None, base, cs);
            var (r, cs1) := Dest(dest, FreeTemp(gc.cs, gc.r));
            var thenAt := base + |gc.code| + 1;
            var gt := GenExpr(t, Some(r), thenAt, cs1);
            var alt := thenAt + |gt.code| + 1;
            var gf := GenExpr(f, Some(r), alt, gt.cs);
            GenExpr(Ternary(c, t, f), dest, base, cs)
            == GenE(gc.code + [JumpIfFalse(gc.r, At(alt))] + gt.code + [Jump(At(alt + |gf.code|))] + gf.code, r, gf.cs)
  {
    hide Dest, FreeTemp, AllocTemp, LoadValue, AddConst, Slot;
  }

  lemma TernaryCode(c: Code, r: nat, t: Code, f: Code, base: nat, depth: nat)
    requires var thenAt := base + |c| + 1;
             var alt := thenAt + |t| + 1;
             CodeIn(c, base, base + |c|, depth) && CodeIn(t, thenAt, thenAt + |t|, depth)
               && CodeIn(f, alt, alt + |f|, depth)
    ensures var alt := base + |c| + 1 + |t| + 1;
            var all := c + [JumpIfFalse(r, At(alt))] + t + [Jump(At(alt + |f|))] + f;
            CodeIn(all, base, base + |all|, depth)
  {
    hide CodeIn;
    var thenAt := base + |c| + 1;
    var alt := thenAt + |t| + 1;
    var j := Jump(At(alt + |f|));
    Between(t, j, f, thenAt, depth);
    var rest := t + [j] + f;
    Between(c, JumpIfFalse(r, At(alt)), rest, base, depth);
    assert c + [JumpIfFalse(r, At(alt))] + t + [j] + f == c + [JumpIfFalse(r, At(alt))] + rest;
  }

  lemma ThreeIn(c: Code, lo: nat, hi: nat, depth: nat)
    requires |c| == 3 && InstrIn(c[0], lo, hi, depth) && InstrIn(c[1], lo, hi, depth) && InstrIn(c[2], lo, hi, depth)
    ensures CodeIn(c, lo, hi, depth)
  {
  }

  // ---------- effects and output ----------

  // A tail without jumps.
  predicate Straight(c: Code) {
    forall i :: 0 <= i < |c| ==>
      && InstrIn(c[i], 0, 0, 0)
      && !c[i].Jump? && !c[i].JumpIfFalse? && !c[i].JumpIfTrue? && !c[i].JumpIfNull? && !c[i].TryPush?
  }

  lemma SoundStraight(c: Code, tail: Code, base: nat, depth: nat, cs: CState, cs1: CState, cs2: CState,
      lits: set<Value>)
    requires Sound(c, base, depth, cs, cs1, lits) && Straight(tail)
    requires PoolIn(cs1.pool, lits) ==> PoolIn(cs2.pool, lits)
    ensures Sound(c + tail, base, depth, cs, cs2, lits)
  {
    hide PoolIn;
    assert forall i :: 0 <= i < |tail| ==> InstrIn(tail[i], base, base + |c + tail|, depth);
    CodeInWider(c, base, base + |c|, base, base + |c + tail|, depth);
  }

  lemma AssignIn(x: string, aop: AssignOp, rhs: Expr, base: nat, cs: CState, depth: nat, lits: set<Value>)
    requires ExprLits(rhs) <= lits
    ensures var g := GenAssign(x, aop, rhs, base, cs); Sound(g.code, base, depth, cs, g.cs, lits)
  {
    hide PoolIn, LooseEq, GenExpr, Free, Alloc, Sound;
    ExprIn(rhs, None, base, cs, depth, lits);
    var g := GenExpr(rhs, None, base, cs);
    var ga := GenAssign(x, aop, rhs, base, cs);
    var tail := ga.code[|g.code|..];
    AssignTail(x, aop, rhs, base, cs, lits);
    assert ga.code == g.code + tail;
    SoundStraight(g.code, tail, base, depth, cs, g.cs, ga.cs, lits);
  }

  lemma AssignTail(x: string, aop: AssignOp, rhs: Expr, base: nat, cs: CState, lits: set<Value>)
    ensures var g := GenExpr(rhs, None, base, cs);
            var ga := GenAssign(x, aop, rhs, base, cs);
            && g.code <= ga.code && Straight(ga.code[|g.code|..])
            && (PoolIn(g.cs.pool, lits) ==> PoolIn(ga.cs.pool, lits))
  {
    hide GenExpr, LooseEq;
    var g := GenExpr(rhs, None, base, cs);
    if PoolIn(g.cs.pool, lits) {
      ConstIn(g.cs, Str(x), lits);
    }
  }

  lemma IncDecIn(x: string, inc: bool, prefix: bool, base: nat, cs: CState, depth: nat, lits: set<Value>)
    ensures var g := GenIncDec(x, inc, prefix, cs); Sound(g.code, base, depth, cs, g.cs, lits)
  {
    hide LooseEq;
    var cs2 := AllocTemp(AllocTemp(cs).1).1;
    if PoolIn(cs.pool, lits) {
      ConstIn(cs2, Str(x), lits);
    }
  }

  lemma EffectValueIn(f: Effect, base: nat, cs: CState, depth: nat, lits: set<Value>)
    requires EffectLits(f) <= lits
    ensures var g := GenEffectValue(f, base, cs); Sound(g.code, base, depth, cs, g.cs, lits)
  {
    hide PoolIn, GenExpr, GenAssign, GenIncDec, Slot;
    match f
    case Eval(e) => ExprIn(e, None, base, cs, depth, lits);
    case Assign(x, aop, rhs) =>
      AssignIn(x, aop, rhs, base, cs, depth, lits);
      var g := GenAssign(x, aop, rhs, base, cs);
      var (r, cs1) := AllocTemp(g.cs);
      var slot := Slot(cs1.locals, x);
      SoundStraight(g.code, [Move(r, if slot.Some? then slot.value else 0)], base, depth, cs, g.cs, cs1, lits);
    case IncDec(x, inc, prefix) => IncDecIn(x, inc, prefix, base, cs, depth, lits);
  }

  lemma EffectIn(f: Effect, base: nat, cs: CState, depth: nat, lits: set<Value>)
    requires EffectLits(f) <= lits
    ensures var g := GenEffect(f, base, cs); Sound(g.code, base, depth, cs, g.cs, lits)
  {
    hide PoolIn, GenExpr, GenAssign, GenIncDec;
    if f.Assign? {
      AssignIn(f.x, f.aop, f.rhs, base, cs, depth, lits);
    } else {
      EffectValueIn(f, base, cs, depth, lits);
    }
  }

  lemma LiteralOutIn(text: string, base: nat, cs: CState, depth: nat, lits: set<Value>)
    ensures var g := GenLiteralOut(text, cs); Sound(g.code, base, depth, cs, g.cs, lits)
  {
    hide LoadValue, PoolIn;
    var (r, cs1) := AllocTemp(cs);
    LoadIn(r, Str(text), cs1, base, depth, lits);
    var g := LoadValue(r, Str(text), cs1);
    SoundStraight(g.code, [CallWrite(r, r)], base, depth, cs, g.cs, FreeTemp(g.cs, r), lits);
  }

  lemma {:induction false} WritesIn(args: Exprs, first: bool, base: nat, cs: CState, depth: nat, lits: set<Value>)
    requires ExprsLits(args) <= lits
    ensures var g := GenWrites(args, first, base, cs); Sound(g.code, base, depth, cs, g.cs, lits)
    decreases args
  {
    hide PoolIn, CodeIn, GenExpr, ExprLits, GenLiteralOut, FreeTemp;
    if args.ECons? {
      var sep := if first then Gen([], cs) else GenLiteralOut(" ", cs);
      if first {
        SoundNone(base, depth, cs, cs, lits);
      } else {
        LiteralOutIn(" ", base, cs, depth, lits);
      }
      var at := base + |sep.code|;
      ExprIn(args.head, None, at, sep.cs, depth, lits);
      var g := GenExpr(args.head, None, at, sep.cs);
      DestPool(None, g.cs);
      var cs1 := FreeTemp(g.cs, g.r);
      SoundStraight(g.code, [CallWrite(g.r, g.r)], at, depth, sep.cs, g.cs, cs1, lits);
      var one := g.code + [CallWrite(g.r, g.r)];
      WritesIn(args.tail, false, at + |g.code| + 1, cs1, depth, lits);
      var tail := GenWrites(args.tail, false, at + |g.code| + 1, cs1);
      SoundCat(one, tail.code, at, depth, sep.cs, cs1, tail.cs, lits);
      SoundCat(sep.code, one + tail.code, base, depth, cs, sep.cs, tail.cs, lits);
      assert sep.code + g.code + [CallWrite(g.r, g.r)] + tail.code == sep.code + (one + tail.code);
    } else {
      SoundNone(base, depth, cs, cs, lits);
    }
  }

  // ---------- tests ----------

  lemma TestIn(test: Option<Expr>, exit: nat, base: nat, cs: CState, hi: nat, depth: nat, lits: set<Value>)
    requires test.Some? ==> ExprLits(test.value) <= lits
    requires base <= exit <= hi && base + |GenTest(test, exit, base, cs).code| <= hi
    ensures var g := GenTest(test, exit, base, cs);
            CodeIn(g.code, base, hi, depth) && (PoolIn(cs.pool, lits) ==> PoolIn(g.cs.pool, lits))
  {
    hide PoolIn, GenExpr, FreeTemp;
    if test.Some? {
      ExprIn(test.value, None, base, cs, depth, lits);
      var g := GenExpr(test.value, None, base, cs);
      DestPool(None, g.cs);
      SoundWith(g.code, JumpIfFalse(g.r, At(exit)), base, hi, depth);
    }
  }

  lemma PostIn(post: Option<Effect>, base: nat, cs: CState, depth: nat, lits: set<Value>)
    requires post.Some? ==> EffectLits(post.value) <= lits
    ensures var g := GenPost(post, base, cs); Sound(g.code, base, depth, cs, g.cs, lits)
  {
    hide PoolIn, GenEffectValue, FreeTemp;
    if post.Some? {
      EffectValueIn(post.value, base, cs, depth, lits);
      DestPool(None, GenEffectValue(post.value, base, cs).cs);
    }
  }

  // ---------- patching ----------

  ghost predicate FixIn(fx: Fix, lo: nat, hi: nat) {
    && lo <= fx.brk <= hi && lo <= fx.cont <= hi
    && forall i :: 0 <= i < |fx.starts| ==> lo <= fx.starts[i] <= hi
  }

  // Closing the innermost entry leaves only jumps of the outer ones.
  lemma PatchIn(c: Code, lo: nat, hi: nat, depth: nat, fx: Fix, lo1: nat, hi1: nat)
    requires CodeIn(c, lo, hi, depth + 1) && FixIn(fx, lo1, hi1) && lo1 <= lo && hi <= hi1
    ensures CodeIn(Patch(c, depth, fx), lo1, hi1, depth)
  {
    forall i | 0 <= i < |c|
      ensures InstrIn(Patch(c, depth, fx)[i], lo1, hi1, depth)
    {
      assert InstrIn(c[i], lo, hi, depth + 1);
    }
  }

  // The comparisons of a switch also hold jumps to its cases.
  predicate ChecksIn(c: Code, lo: nat, hi: nat, level: nat, count: nat) {
    forall i :: 0 <= i < |c| ==>
      InstrIn(c[i], lo, hi, level) || (c[i].JumpIfTrue? && c[i].t.ToCase? && c[i].t.level == level
                                       && c[i].t.index < count)
  }

  lemma {:induction false} ValuesIn(values: Exprs, subject: nat, level: nat, index: nat, count: nat, base: nat,
      cs: CState, lits: set<Value>)
    requires ExprsLits(values) <= lits && index < count
    ensures var g := GenValues(values, subject, ToCase(level, index), base, cs);
            && ChecksIn(g.code, base, base + |g.code|, level, count)
            && (PoolIn(cs.pool, lits) ==> PoolIn(g.cs.pool, lits))
    decreases values
  {
    hide PoolIn, GenExpr, ExprLits, FreeTemp, AllocTemp;
    if values.ECons? {
      ExprIn(values.head, None, base, cs, level, lits);
      var g := GenExpr(values.head, None, base, cs);
      DestPool(None, g.cs);
      var (eq, cs1) := AllocTemp(g.cs);
      DestPool(None, cs1);
      DestPool(None, FreeTemp(cs1, g.r));
      var cs2 := FreeTemp(FreeTemp(cs1, g.r), eq);
      ValuesIn(values.tail, subject, level, index, count, base + |g.code| + 2, cs2, lits);
      var gr := GenValues(values.tail, subject, ToCase(level, index), base + |g.code| + 2, cs2);
      ChecksWider(g.code, base, base + |g.code|, base, base + |g.code| + 2 + |gr.code|, level, count);
      ChecksWider(gr.code, base + |g.code| + 2, base + |g.code| + 2 + |gr.code|, base, base + |g.code| + 2 + |gr.code|,
                  level, count);
    }
  }

  lemma ChecksWider(c: Code, lo: nat, hi: nat, lo1: nat, hi1: nat, level: nat, count: nat)
    requires ChecksIn(c, lo, hi, level, count) && lo1 <= lo && hi <= hi1
    ensures ChecksIn(c, lo1, hi1, level, count)
  {
    forall i | 0 <= i < |c|
      ensures InstrIn(c[i], lo, hi, level) ==> InstrIn(c[i], lo1, hi1, level)
    {
    }
  }

  lemma {:induction false} ChecksAll(cases: Cases, subject: nat, level: nat, index: nat, count: nat, base: nat,
      cs: CState, lits: set<Value>)
    requires CasesLits(cases) <= lits && index + Count(cases) <= count
    ensures var g := GenChecks(cases, subject, level, index, base, cs);
            && ChecksIn(g.code, base, base + |g.code|, level, count)
            && (PoolIn(cs.pool, lits) ==> PoolIn(g.cs.pool, lits))
    decreases cases
  {
    hide PoolIn, GenValues, InstrIn;
    if cases.Case? {
      ValuesIn(cases.values, subject, level, index, count, base, cs, lits);
      var g := GenValues(cases.values, subject, ToCase(level, index), base, cs);
      ChecksAll(cases.rest, subject, level, index + 1, count, base + |g.code|, g.cs, lits);
      var gr := GenChecks(cases.rest, subject, level, index + 1, base + |g.code|, g.cs);
      ChecksWider(g.code, base, base + |g.code|, base, base + |g.code| + |gr.code|, level, count);
      ChecksWider(gr.code, base + |g.code|, base + |g.code| + |gr.code|, base, base + |g.code| + |gr.code|, level,
                  count);
    }
  }

  lemma PatchChecks(c: Code, lo: nat, hi: nat, level: nat, fx: Fix, lo1: nat, hi1: nat)
    requires ChecksIn(c, lo, hi, level, |fx.starts|) && FixIn(fx, lo1, hi1) && lo1 <= lo && hi <= hi1
    ensures CodeIn(Patch(c, level, fx), lo1, hi1, level)
  {
    forall i | 0 <= i < |c|
      ensures InstrIn(Patch(c, level, fx)[i], lo1, hi1, level)
    {
    }
  }

  lemma PatchCat(c: Code, d: Code, level: nat, fx: Fix)
    ensures Patch(c + d, level, fx) == Patch(c, level, fx) + Patch(d, level, fx)
  {
  }

  // ---------- statements ----------

  // The literals of the blocks that may be inlined.
  ghost predicate PendLits(pending: seq<Stmts>, lits: set<Value>) {
    forall i :: 0 <= i < |pending| ==> StmtsLits(pending[i]) <= lits
  }

  lemma {:induction false} PendingIn(ps: seq<Stmts>, floor: nat, base: nat, cs: CState, loops: seq<Loop>,
      lits: set<Value>)
    requires PendLits(ps, lits)
    ensures var g := GenPending(ps, floor, base, cs, loops); Sound(g.code, base, |loops|, cs, g.cs, lits)
    decreases SizePending(ps), 3
  {
    hide PoolIn, GenBlock, CodeIn;
    if |ps| > floor {
      SizePendingPrefix(ps[..|ps| - 1], floor);
      assert ps[..|ps| - 1][..floor] == ps[..floor];
      BlockIn(ps[|ps| - 1], base, cs, loops, ps[..floor], lits);
      var g := GenBlock(ps[|ps| - 1], base, cs, loops, ps[..floor]);
      PendingIn(ps[..|ps| - 1], floor, base + |g.code|, g.cs, loops, lits);
      var gr := GenPending(ps[..|ps| - 1], floor, base + |g.code|, g.cs, loops);
      SoundCat(g.code, gr.code, base, |loops|, cs, g.cs, gr.cs, lits);
    } else {
      SoundNone(base, |loops|, cs, cs, lits);
    }
  }

  lemma SoundNone(base: nat, depth: nat, cs: CState, cs1: CState, lits: set<Value>)
    requires PoolIn(cs.pool, lits) ==> PoolIn(cs1.pool, lits)
    ensures Sound([], base, depth, cs, cs1, lits)
  {
  }

  lemma {:induction false} BlockIn(ss: Stmts, base: nat, cs: CState, loops: seq<Loop>, pending: seq<Stmts>,
      lits: set<Value>)
    requires StmtsLits(ss) <= lits && PendLits(pending, lits)
    ensures var g := GenBlock(ss, base, cs, loops, pending); Sound(g.code, base, |loops|, cs, g.cs, lits)
    decreases SizeStmts(ss) + SizePending(pending), 1
  {
    hide PoolIn, CodeIn;
    StmtsIn(ss, base, PushScope(cs), loops, pending, lits);
    PopPool(GenStmts(ss, base, PushScope(cs), loops, pending).cs);
  }

  lemma {:induction false} StmtsIn(ss: Stmts, base: nat, cs: CState, loops: seq<Loop>, pending: seq<Stmts>,
      lits: set<Value>)
    requires StmtsLits(ss) <= lits && PendLits(pending, lits)
    ensures var g := GenStmts(ss, base, cs, loops, pending); Sound(g.code, base, |loops|, cs, g.cs, lits)
    decreases SizeStmts(ss) + SizePending(pending), 0
  {
    hide PoolIn, CodeIn, GenStmt;
    if ss.Nil? {
      SoundNone(base, |loops|, cs, cs, lits);
    } else {
      StmtIn(ss.head, base, cs, loops, pending, lits);
      var g := GenStmt(ss.head, base, cs, loops, pending);
      StmtsIn(ss.tail, base + |g.code|, g.cs, loops, pending, lits);
      var gr := GenStmts(ss.tail, base + |g.code|, g.cs, loops, pending);
      SoundCat(g.code, gr.code, base, |loops|, cs, g.cs, gr.cs, lits);
    }
  }

  lemma {:induction false} LoopIn(test: Option<Expr>, post: Option<Effect>, body: Stmts, isWhile: bool, start: nat,
      cs: CState,
                                  loops: seq<Loop>, pending: seq<Stmts>, lits: set<Value>)
    requires (test.Some? ==> ExprLits(test.value) <= lits) && (post.Some? ==> EffectLits(post.value) <= lits)
    requires StmtsLits(body) <= lits && PendLits(pending, lits)
    ensures var g := GenLoop(test, post, body, isWhile, start, cs, loops, pending);
            Sound(g.code, start, |loops|, cs, g.cs, lits)
    decreases SizeStmts(body) + SizePending(pending), 2
  {
    hide PoolIn, CodeIn, GenTest, GenBlock, GenPost;
    var depth := |loops|;
    var g := GenLoop(test, post, body, isWhile, start, cs, loops, pending);
    var gt0 := GenTest(test, 0, start, cs);
    var bodyAt := start + |gt0.code|;
    BlockIn(body, bodyAt, gt0.cs, loops + [Loop(false, |pending|)], pending, lits);
    var gb := GenBlock(body, bodyAt, gt0.cs, loops + [Loop(false, |pending|)], pending);
    var postAt := bodyAt + |gb.code|;
    PostIn(post, postAt, gb.cs, depth, lits);
    var gp := GenPost(post, postAt, gb.cs);
    var after := postAt + |gp.code| + 1;
    TestSame(test, after, start, cs);
    TestIn(test, after, start, cs, after, depth, lits);
    var gt := GenTest(test, after, start, cs);
    var fx := Fix(after, if isWhile then start else postAt, []);
    PatchIn(gb.code, bodyAt, postAt, depth, fx, start, after);
    var pb := Patch(gb.code, depth, fx);
    PostTail(gp.code, postAt, start, after, depth);
    CodeInCat(gt.code, pb, start, after, depth);
    CodeInCat(gt.code + pb, gp.code + [Jump(At(start))], start, after, depth);
    assert g.code == gt.code + pb + (gp.code + [Jump(At(start))]);
    assert start + |g.code| == after;
  }

  lemma PostTail(c: Code, at: nat, start: nat, after: nat, depth: nat)
    requires CodeIn(c, at, at + |c|, depth) && start <= at && at + |c| + 1 == after
    ensures CodeIn(c + [Jump(At(start))], start, after, depth)
  {
    CodeInWider(c, at, at + |c|, start, after, depth);
  }

  lemma {:induction false} CasesIn(cases: Cases, base: nat, cs: CState, loops: seq<Loop>, pending: seq<Stmts>,
      lits: set<Value>)
    requires |loops| > 0 && CasesLits(cases) <= lits && PendLits(pending, lits)
    ensures var g := GenCases(cases, base, cs, loops, pending);
            && Sound(g.code, base, |loops|, cs, g.cs, lits)
            && |g.starts| == Count(cases)
            && (forall i :: 0 <= i < |g.starts| ==> base <= g.starts[i] <= base + |g.code|)
    decreases SizeCases(cases) + SizePending(pending), 2
  {
    hide PoolIn, CodeIn, InstrIn, GenBlock, GenStmts, GenStmt, GenPending, GenLoop, StmtsLits, PendLits;
    if cases.NoCase? {
      SoundNone(base, |loops|, cs, cs, lits);
    } else {
      var depth := |loops|;
      BlockIn(cases.body, base, cs, loops, pending, lits);
      var g := GenBlock(cases.body, base, cs, loops, pending);
      var at := base + |g.code| + 1;
      CasesIn(cases.rest, at, g.cs, loops, pending, lits);
      var gr := GenCases(cases.rest, at, g.cs, loops, pending);
      EndBetween(g.code, gr.code, base, depth);
      StartsIn(base, gr.starts, at, base + |g.code| + 1 + |gr.code|);
    }
  }

  lemma EndBetween(c: Code, d: Code, base: nat, depth: nat)
    requires depth > 0 && CodeIn(c, base, base + |c|, depth) && CodeIn(d, base + |c| + 1, base + |c| + 1 + |d|, depth)
    ensures var all := c + [Jump(ToEnd(depth - 1))] + d; CodeIn(all, base, base + |all|, depth)
  {
    Between(c, Jump(ToEnd(depth - 1)), d, base, depth);
  }

  lemma StartsIn(base: nat, starts: seq<nat>, lo: nat, hi: nat)
    requires base <= lo <= hi && forall i :: 0 <= i < |starts| ==> lo <= starts[i] <= hi
    ensures forall i :: 0 <= i < |[base] + starts| ==> base <= ([base] + starts)[i] <= hi
  {
  }

  lemma {:induction false} SwitchIn(s: Stmt, base: nat, cs: CState, loops: seq<Loop>, pending: seq<Stmts>,
      lits: set<Value>)
    requires s.Switch? && StmtLits(s) <= lits && PendLits(pending, lits)
    ensures var g := GenStmt(s, base, cs, loops, pending); Sound(g.code, base, |loops|, cs, g.cs, lits)
    decreases SizeStmt(s) + SizePending(pending), 1
  {
    hide PoolIn, CodeIn, GenExpr, GenChecks, GenCases, GenBlock, FreeTemp, DefaultStart;
    var level := |loops|;
    ExprIn(s.subject, None, base, cs, level, lits);
    var gs := GenExpr(s.subject, None, base, cs);
    var checksAt := base + |gs.code|;
    ChecksAll(s.cases, gs.r, level, 0, Count(s.cases), checksAt, gs.cs, lits);
    var gv := GenChecks(s.cases, gs.r, level, 0, checksAt, gs.cs);
    var bodiesAt := checksAt + |gv.code| + 1;
    var inner := loops + [Loop(true, |pending|)];
    CasesIn(s.cases, bodiesAt, gv.cs, inner, pending, lits);
    var gb := GenCases(s.cases, bodiesAt, gv.cs, inner, pending);
    DestPool(None, gb.cs);
    var after := bodiesAt + |gb.code|;
    var fx := Fix(after, after, gb.starts);
    var jump := Jump(At(DefaultStart(s.cases, gb.starts, after)));
    DefaultIn(s.cases, gb.starts, after, bodiesAt);
    PatchChecks(gv.code, checksAt, checksAt + |gv.code|, level, fx, base, after);
    PatchIn(gb.code, bodiesAt, after, level, fx, base, after);
    PatchCat(gv.code + [jump], gb.code, level, fx);
    PatchCat(gv.code, [jump], level, fx);
    assert Patch([jump], level, fx) == [jump];
    assert CodeIn([jump], base, after, level) by {
      OneIn(jump, base, after, level);
    }
    CodeInWider(gs.code, base, checksAt, base, after, level);
    CodeInCat(Patch(gv.code, level, fx), [jump], base, after, level);
    CodeInCat(Patch(gv.code, level, fx) + [jump], Patch(gb.code, level, fx), base, after, level);
    CodeInCat(gs.code, Patch(gv.code + [jump] + gb.code, level, fx), base, after, level);
  }

  lemma OneIn(i: Instr, lo: nat, hi: nat, depth: nat)
    requires InstrIn(i, lo, hi, depth)
    ensures CodeIn([i], lo, hi, depth)
  {
  }

  lemma {:induction false} DefaultIn(cases: Cases, starts: seq<nat>, dflt: nat, lo: nat)
    requires lo <= dflt && forall i :: 0 <= i < |starts| ==> lo <= starts[i] <= dflt
    requires |starts| == Count(cases)
    ensures lo <= DefaultStart(cases, starts, dflt) <= dflt
  {
    DefaultChosen(cases, starts, dflt);
  }

  lemma {:induction false} HandlingIn(handler: Option<Handler>, fin: Option<Stmts>, at: nat, cs: CState,
                                      loops: seq<Loop>, pending: seq<Stmts>, lits: set<Value>)
    requires (handler.Some? ==> StmtsLits(handler.value.body) <= lits) && (fin.Some? ==> StmtsLits(fin.value) <= lits)
    requires PendLits(pending, lits)
    ensures var g := GenHandling(handler, fin, at, cs, loops, pending); Sound(g.code, at, |loops|, cs, g.cs, lits)
    decreases 2 + (match handler case Some(h) => SizeStmts(h.body) case None => 0) + SizeFin(fin)
      + SizePending(pending), 0
  {
    hide PoolIn, CodeIn, GenBlock, PopScope, Alloc, FreeTemp, InstrIn;
    var depth := |loops|;
    match handler
    case Some(h) =>
      var cs1 := PushScope(cs);
      var gx := if h.name != "" then (var (e, cs2) := DeclareLocal(cs1, h.name); Gen([LoadExc(e)], cs2))
        else Gen([], cs1);
      SoundNone(at, depth, cs, cs1, lits);
      CatchIn(h.name, at, depth, cs1, lits);
      var pend := WithFin(pending, fin);
      BlockIn(h.body, at + |gx.code|, gx.cs, loops, pend, lits);
      var gh := GenBlock(h.body, at + |gx.code|, gx.cs, loops, pend);
      SoundCat(gx.code, gh.code, at, depth, cs1, gx.cs, gh.cs, lits);
      PopPool(gh.cs);
    case None =>
      var (exc, cs1) := AllocTemp(cs);
      DestPool(None, cs);
      SoundNone(at + 1, depth, cs1, cs1, lits);
      if fin.Some? {
        BlockIn(fin.value, at + 1, cs1, loops, pending, lits);
      }
      var gt := match fin case Some(b) => GenBlock(b, at + 1, cs1, loops, pending) case None => Gen([], cs1);
      DestPool(None, gt.cs);
      Wrapped(LoadExc(exc), gt.code, Throw(exc), at, depth);
  }

  lemma CatchIn(name: string, at: nat, depth: nat, cs: CState, lits: set<Value>)
    ensures var gx := if name != "" then (var (e, cs2) := DeclareLocal(cs, name); Gen([LoadExc(e)], cs2))
            else Gen([], cs);
            Sound(gx.code, at, depth, cs, gx.cs, lits)
  {
  }

  lemma Wrapped(i: Instr, c: Code, j: Instr, at: nat, depth: nat)
    requires CodeIn(c, at + 1, at + 1 + |c|, depth) && i.LoadExc? && j.Throw?
    ensures CodeIn([i] + c + [j], at, at + |[i] + c + [j]|, depth)
  {
    CodeInWider(c, at + 1, at + 1 + |c|, at, at + |c| + 2, depth);
  }

  lemma {:induction false} TryIn(s: Stmt, base: nat, cs: CState, loops: seq<Loop>, pending: seq<Stmts>,
      lits: set<Value>)
    requires s.Try? && StmtLits(s) <= lits && PendLits(pending, lits)
    ensures var g := GenStmt(s, base, cs, loops, pending); Sound(g.code, base, |loops|, cs, g.cs, lits)
    decreases SizeStmt(s) + SizePending(pending), 1
  {
    hide PoolIn, CodeIn, GenBlock, GenHandling;
    var depth := |loops|;
    var pend := WithFin(pending, s.fin);
    BlockIn(s.body, base + 1, cs, loops, pend, lits);
    var gb := GenBlock(s.body, base + 1, cs, loops, pend);
    var catchAt := base + 1 + |gb.code| + 2;
    HandlingIn(s.handler, s.fin, catchAt, gb.cs, loops, pending, lits);
    var gh := GenHandling(s.handler, s.fin, catchAt, gb.cs, loops, pending);
    var end := catchAt + |gh.code|;
    SoundNone(end, depth, gh.cs, gh.cs, lits);
    if s.fin.Some? {
      BlockIn(s.fin.value, end, gh.cs, loops, pending, lits);
    }
    var gf := match s.fin case Some(b) => GenBlock(b, end, gh.cs, loops, pending) case None => Gen([], gh.cs);
    TryCodeIn(gb.code, gh.code, gf.code, base, depth);
  }

  lemma TryCodeIn(b: Code, h: Code, f: Code, base: nat, depth: nat)
    requires var catchAt := base + 1 + |b| + 2;
             var end := catchAt + |h|;
             CodeIn(b, base + 1, base + 1 + |b|, depth) && CodeIn(h, catchAt, end, depth)
               && CodeIn(f, end, end + |f|, depth)
    ensures var catchAt := base + 1 + |b| + 2;
            var end := catchAt + |h|;
            var c := [TryPush(At(catchAt))] + b + [TryPop, Jump(At(end))] + h + f;
            CodeIn(c, base, base + |c|, depth)
  {
    hide CodeIn;
    var catchAt := base + 1 + |b| + 2;
    var end := catchAt + |h|;
    var hi := end + |f|;
    var mid := [TryPop] + [Jump(At(end))];
    CodeInWider(b, base + 1, base + 1 + |b|, base, hi, depth);
    CodeInWider(h, catchAt, end, base, hi, depth);
    CodeInWider(f, end, hi, base, hi, depth);
    OneIn(TryPush(At(catchAt)), base, hi, depth);
    OneIn(TryPop, base, hi, depth);
    OneIn(Jump(At(end)), base, hi, depth);
    CodeInCat([TryPop], [Jump(At(end))], base, hi, depth);
    CodeInCat([TryPush(At(catchAt))], b, base, hi, depth);
    CodeInCat([TryPush(At(catchAt))] + b, mid, base, hi, depth);
    CodeInCat([TryPush(At(catchAt))] + b + mid, h, base, hi, depth);
    CodeInCat([TryPush(At(catchAt))] + b + mid + h, f, base, hi, depth);
    assert mid == [TryPop, Jump(At(end))];
  }

  lemma {:induction false} IfIn(s: Stmt, base: nat, cs: CState, loops: seq<Loop>, pending: seq<Stmts>, lits: set<Value>)
    requires s.If? && StmtLits(s) <= lits && PendLits(pending, lits)
    ensures var g := GenStmt(s, base, cs, loops, pending); Sound(g.code, base, |loops|, cs, g.cs, lits)
    decreases SizeStmt(s) + SizePending(pending), 1
  {
    hide PoolIn, CodeIn, GenBlock, GenExpr, FreeTemp;
    var depth := |loops|;
    ExprIn(s.cond, None, base, cs, depth, lits);
    var gc := GenExpr(s.cond, None, base, cs);
    DestPool(None, gc.cs);
    var cs1 := FreeTemp(gc.cs, gc.r);
    var thenAt := base + |gc.code| + 1;
    BlockIn(s.thn, thenAt, cs1, loops, pending, lits);
    var gt := GenBlock(s.thn, thenAt, cs1, loops, pending);
    var alt := thenAt + |gt.code|;
    if s.els.None? {
      Between(gc.code, JumpIfFalse(gc.r, At(alt)), gt.code, base, depth);
    } else {
      BlockIn(s.els.value, alt + 1, gt.cs, loops, pending, lits);
      var gf := GenBlock(s.els.value, alt + 1, gt.cs, loops, pending);
      var j := Jump(At(alt + 1 + |gf.code|));
      Between(gt.code, j, gf.code, thenAt, depth);
      var rest := gt.code + [j] + gf.code;
      Between(gc.code, JumpIfFalse(gc.r, At(alt + 1)), rest, base, depth);
      assert gc.code + [JumpIfFalse(gc.r, At(alt + 1))] + gt.code + [j] + gf.code
        == gc.code + [JumpIfFalse(gc.r, At(alt + 1))] + rest;
    }
  }

  lemma {:induction false} LeaveIn(s: Stmt, base: nat, cs: CState, loops: seq<Loop>, pending: seq<Stmts>,
      lits: set<Value>)
    requires (s.Return? || s.Break? || s.Continue?) && StmtLits(s) <= lits && PendLits(pending, lits)
    ensures var g := GenStmt(s, base, cs, loops, pending); Sound(g.code, base, |loops|, cs, g.cs, lits)
    decreases SizeStmt(s) + SizePending(pending), 1
  {
    hide PoolIn, CodeIn, GenPending, GenExpr, FreeTemp;
    var depth := |loops|;
    SoundNone(base, depth, cs, cs, lits);
    match s
    case Return(value) =>
      if value.None? {
        PendingIn(pending, 0, base, cs, loops, lits);
        var p := GenPending(pending, 0, base, cs, loops);
        SoundWith(p.code, RetNull, base, base + |p.code| + 1, depth);
      } else {
        ExprIn(value.value, None, base, cs, depth, lits);
        var g := GenExpr(value.value, None, base, cs);
        PendingIn(pending, 0, base + |g.code|, g.cs, loops, lits);
        var p := GenPending(pending, 0, base + |g.code|, g.cs, loops);
        SoundCat(g.code, p.code, base, depth, cs, g.cs, p.cs, lits);
        DestPool(None, p.cs);
        SoundWith(g.code + p.code, Instr.Ret(g.r), base, base + |g.code + p.code| + 1, depth);
      }
    case Break =>
      if loops != [] {
        PendingIn(pending, loops[depth - 1].floor, base, cs, loops, lits);
        var p := GenPending(pending, loops[depth - 1].floor, base, cs, loops);
        SoundWith(p.code, Jump(ToBreak(depth - 1)), base, base + |p.code| + 1, depth);
      }
    case Continue =>
      ContinueLevelBound(loops);
      if ContinueLevel(loops).Some? {
        var l := ContinueLevel(loops).value;
        PendingIn(pending, loops[l].floor, base, cs, loops, lits);
        var p := GenPending(pending, loops[l].floor, base, cs, loops);
        SoundWith(p.code, Jump(ToContinue(l)), base, base + |p.code| + 1, depth);
      }
  }

  lemma {:induction false} StmtIn(s: Stmt, base: nat, cs: CState, loops: seq<Loop>, pending: seq<Stmts>,
      lits: set<Value>)
    requires StmtLits(s) <= lits && PendLits(pending, lits)
    ensures var g := GenStmt(s, base, cs, loops, pending); Sound(g.code, base, |loops|, cs, g.cs, lits)
    decreases SizeStmt(s) + SizePending(pending), 2
  {
    hide PoolIn, CodeIn, GenBlock, GenPending, GenLoop, GenEffect, GenWrites, GenLiteralOut, PopScope;
    var depth := |loops|;
    match s
    case Do(f) => EffectIn(f, base, cs, depth, lits);
    case Write(args, newline) =>
      WritesIn(args, true, base, cs, depth, lits);
      var g := GenWrites(args, true, base, cs);
      if newline {
        LiteralOutIn("\n", base + |g.code|, g.cs, depth, lits);
        SoundCat(g.code, GenLiteralOut("\n", g.cs).code, base, depth, cs, g.cs, GenLiteralOut("\n", g.cs).cs, lits);
      }
    case Return(_) => LeaveIn(s, base, cs, loops, pending, lits);
    case Break => LeaveIn(s, base, cs, loops, pending, lits);
    case Continue => LeaveIn(s, base, cs, loops, pending, lits);
    case Block(body) => BlockIn(body, base, cs, loops, pending, lits);
    case If(_, _, _) => IfIn(s, base, cs, loops, pending, lits);
    case While(c, body) => LoopIn(Some(c), None, body, true, base, cs, loops, pending, lits);
    case For(init, test, post, body) =>
      var cs1 := PushScope(cs);
      SoundNone(base, depth, cs1, cs1, lits);
      if init.Some? {
        StmtIn(init.value, base, cs1, loops, pending, lits);
      }
      var gi := match init case Some(i) => GenStmt(i, base, cs1, loops, pending) case None => Gen([], cs1);
      LoopIn(test, post, body, false, base + |gi.code|, gi.cs, loops, pending, lits);
      var gl := GenLoop(test, post, body, false, base + |gi.code|, gi.cs, loops, pending);
      SoundCat(gi.code, gl.code, base, depth, cs1, gi.cs, gl.cs, lits);
      PopPool(gl.cs);
    case Switch(_, _) => SwitchIn(s, base, cs, loops, pending, lits);
    case Try(_, _, _) => TryIn(s, base, cs, loops, pending, lits);
  }
}
