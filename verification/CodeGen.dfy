/** What `FunctionCompiler` emits, as functions of the syntax.

    Each function maps the compiler's state to the code it appends (whose first instruction
    gets address `base`) and the state it leaves. Jumps whose destination is known only when
    an enclosing loop or switch ends carry a symbolic target, replaced by `Patch` there. */
module CodeGen {
  import opened Options
  import opened Values
  import opened Syntax
  import opened Bytecode

  // ---------- registers ----------

  // `RegisterAllocator`: registers below `localsEnd` hold the parameters, `pinned` ones the
  // other live locals; `free` is the pool of returned registers, used last in first out.
  datatype RegState = RegState(localsEnd: nat, next: nat, max: nat, free: seq<nat>, pinned: set<nat>)

  function Alloc(rs: RegState): (nat, RegState) {
    var r := if rs.free != [] then rs.free[|rs.free| - 1] else rs.next;
    var rs1 := if rs.free != [] then rs.(free := rs.free[..|rs.free| - 1]) else rs.(next := rs.next + 1);
    (r, rs1.(max := if r + 1 > rs1.max then r + 1 else rs1.max))
  }

  function Free(rs: RegState, r: nat): RegState {
    if r >= rs.localsEnd && r !in rs.pinned && r !in rs.free then rs.(free := rs.free + [r]) else rs
  }

  function AllocLocal(rs: RegState): (nat, RegState) {
    var (r, rs1) := Alloc(rs);
    (r, rs1.(pinned := rs1.pinned + {r}))
  }

  function FreeLocal(rs: RegState, r: nat): RegState {
    Free(rs.(pinned := rs.pinned - {r}), r)
  }

  // ---------- compiler state ----------

  datatype Local = Local(name: string, reg: nat, depth: nat)

  datatype CState = CState(rs: RegState, locals: seq<Local>, depth: nat, pool: seq<Value>)

  // The innermost local of that name.
  function Slot(locals: seq<Local>, x: string): Option<nat> {
    if locals == [] then None
    else if locals[|locals| - 1].name == x then Some(locals[|locals| - 1].reg)
    else Slot(locals[..|locals| - 1], x)
  }

  function AllocTemp(cs: CState): (nat, CState) {
    var (r, rs) := Alloc(cs.rs);
    (r, cs.(rs := rs))
  }

  function FreeTemp(cs: CState, r: nat): CState {
    cs.(rs := Free(cs.rs, r))
  }

  function DeclareLocal(cs: CState, x: string): (nat, CState) {
    var (r, rs) := AllocLocal(cs.rs);
    (r, cs.(rs := rs, locals := cs.locals + [Local(x, r, cs.depth)]))
  }

  function PushScope(cs: CState): CState {
    cs.(depth := cs.depth + 1)
  }

  function PopLocals(cs: CState): CState
    decreases |cs.locals|
  {
    if cs.locals != [] && cs.locals[|cs.locals| - 1].depth == cs.depth then
      PopLocals(cs.(rs := FreeLocal(cs.rs, cs.locals[|cs.locals| - 1].reg),
                    locals := cs.locals[..|cs.locals| - 1]))
    else cs
  }

  function PopScope(cs: CState): CState {
    var p := PopLocals(cs);
    p.(depth := if p.depth > 0 then p.depth - 1 else 0)
  }

  // ---------- constants ----------

  // `add_const` reuses the first pool entry that is `==` to the value.
  function FirstEqual(pool: seq<Value>, v: Value): nat {
    if pool == [] || LooseEq(pool[0], v) then 0 else 1 + FirstEqual(pool[1..], v)
  }

  function AddConst(cs: CState, v: Value): (nat, CState) {
    var k := FirstEqual(cs.pool, v);
    (k, if k < |cs.pool| then cs else cs.(pool := cs.pool + [v]))
  }

  datatype Gen = Gen(code: Code, cs: CState)
  datatype GenE = GenE(code: Code, r: nat, cs: CState)

  function LoadValue(dest: nat, v: Value, cs: CState): Gen {
    match v
    case Null => Gen([LoadNull(dest)], cs)
    case Bool(b) => Gen([LoadBool(dest, b)], cs)
    case Int(n) =>
      if -128 <= n <= 127 then Gen([LoadInt(dest, n)], cs)
      else (var (k, cs1) := AddConst(cs, v); Gen([LoadConst(dest, k)], cs1))
    case _ => (var (k, cs1) := AddConst(cs, v); Gen([LoadConst(dest, k)], cs1))
  }

  // ---------- expressions ----------

  function Dest(dest: Option<nat>, cs: CState): (nat, CState) {
    if dest.Some? then (dest.value, cs) else AllocTemp(cs)
  }

  function GenExpr(e: Expr, dest: Option<nat>, base: nat, cs: CState): GenE {
    match e
    case Lit(v) =>
      var (r, cs1) := Dest(dest, cs);
      var g := LoadValue(r, v, cs1);
      GenE(g.code, r, g.cs)
    case Var(x) =>
      var slot := Slot(cs.locals, x);
      if slot.Some? then
        if dest.None? then GenE([], slot.value, cs)
        else GenE([Move(dest.value, slot.value)], dest.value, cs)
      else
        var (r, cs1) := Dest(dest, cs);
        var (k, cs2) := AddConst(cs1, Str(x));
        GenE([LoadGlobal(r, k)], r, cs2)
    case Un(op, a) =>
      var g := GenExpr(a, None, base, cs);
      var (r, cs1) := Dest(dest, g.cs);
      GenE(g.code + [Un1(op, r, g.r)], r, FreeTemp(cs1, g.r))
    case Bin(op, a, b) =>
      var ga := GenExpr(a, None, base, cs);
      var gb := GenExpr(b, None, base + |ga.code|, ga.cs);
      var (r, cs1) := Dest(dest, gb.cs);
      GenE(ga.code + gb.code + [Bin2(op, r, ga.r, gb.r)], r, FreeTemp(FreeTemp(cs1, gb.r), ga.r))
    case Logical(isAnd, a, b) =>
      var (r, cs1) := Dest(dest, cs);
      var ga := GenExpr(a, Some(r), base, cs1);
      var gb := GenExpr(b, Some(r), base + |ga.code| + 1, ga.cs);
      var end := base + |ga.code| + 1 + |gb.code|;
      GenE(ga.code + [if isAnd then JumpIfFalse(r, At(end)) else JumpIfTrue(r, At(end))] + gb.code, r, gb.cs)
    case Coalesce(a, b) =>
      var ga := GenExpr(a, None, base, cs);
      var (r, cs1) := Dest(dest, ga.cs);
      var alt := base + |ga.code| + 3;
      var gb := GenExpr(b, Some(r), alt, FreeTemp(cs1, ga.r));
      GenE(ga.code + [JumpIfNull(ga.r, At(alt)), Move(r, ga.r), Jump(At(alt + |gb.code|))] + gb.code, r, gb.cs)
    case Ternary(c, t, f) =>
      var gc := GenExpr(c, None, base, cs);
      var (r, cs1) := Dest(dest, FreeTemp(gc.cs, gc.r));
      var gt := GenExpr(t, Some(r), base + |gc.code| + 1, cs1);
      var alt := base + |gc.code| + 1 + |gt.code| + 1;
      var gf := GenExpr(f, Some(r), alt, gt.cs);
      GenE(gc.code + [JumpIfFalse(gc.r, At(alt))] + gt.code + [Jump(At(alt + |gf.code|))] + gf.code, r, gf.cs)
  }

  // ---------- assignments ----------

  // The first assignment to a name that is not a local declares it in the current scope.
  function GenAssign(x: string, aop: AssignOp, rhs: Expr, base: nat, cs: CState): Gen {
    var g := GenExpr(rhs, None, base, cs);
    var slot := Slot(cs.locals, x);
    if slot.Some? then
      if aop.Plain? then Gen(g.code + [Move(slot.value, g.r)], FreeTemp(g.cs, g.r))
      else if aop.op == Concat then
        Gen(g.code + [Bin2(Concat, slot.value, slot.value, g.r)], FreeTemp(g.cs, g.r))
      else
        var (cur, cs1) := AllocTemp(g.cs);
        var (tmp, cs2) := AllocTemp(cs1);
        Gen(g.code + [Move(cur, slot.value), Bin2(aop.op, tmp, cur, g.r), Move(slot.value, tmp)],
            FreeTemp(FreeTemp(FreeTemp(cs2, cur), g.r), tmp))
    else if aop.Plain? then
      var (s, cs1) := DeclareLocal(g.cs, x);
      Gen(g.code + [Move(s, g.r)], FreeTemp(cs1, g.r))
    else
      var (k, cs0) := AddConst(g.cs, Str(x));
      var (cur, cs1) := AllocTemp(cs0);
      var (tmp, cs2) := AllocTemp(cs1);
      var (s, cs3) := DeclareLocal(FreeTemp(FreeTemp(cs2, cur), g.r), x);
      Gen(g.code + [LoadGlobal(cur, k), Bin2(aop.op, tmp, cur, g.r), Move(s, tmp)], FreeTemp(cs3, tmp))
  }

  function GenIncDec(x: string, inc: bool, prefix: bool, cs: CState): GenE {
    var op := if inc then Add else Sub;
    var (one, cs1) := AllocTemp(cs);
    var (r, cs2) := AllocTemp(cs1);
    var slot := Slot(cs.locals, x);
    if slot.Some? then
      var (nv, cs3) := AllocTemp(cs2);
      GenE([LoadInt(one, 1), Move(r, slot.value), Bin2(op, nv, r, one), Move(slot.value, nv)]
           + (if prefix then [Move(r, nv)] else []),
           r, FreeTemp(FreeTemp(cs3, nv), one))
    else
      var (k, cs3) := AddConst(cs2, Str(x));
      var (nv, cs4) := AllocTemp(cs3);
      GenE([LoadInt(one, 1), LoadGlobal(r, k), Bin2(op, nv, r, one), StoreGlobal(nv, k)]
           + (if prefix then [Move(r, nv)] else []),
           r, FreeTemp(FreeTemp(cs4, nv), one))
  }

  // An effect compiled as an expression (the `post` of a for loop): its value ends in a
  // register, which the caller frees.
  function GenEffectValue(f: Effect, base: nat, cs: CState): GenE {
    match f
    case Eval(e) => GenExpr(e, None, base, cs)
    case Assign(x, aop, rhs) =>
      var g := GenAssign(x, aop, rhs, base, cs);
      var (r, cs1) := AllocTemp(g.cs);
      var slot := Slot(cs1.locals, x);
      GenE(g.code + [Move(r, if slot.Some? then slot.value else 0)], r, cs1)
    case IncDec(x, inc, prefix) => GenIncDec(x, inc, prefix, cs)
  }

  function GenEffect(f: Effect, base: nat, cs: CState): Gen {
    if f.Assign? then GenAssign(f.x, f.aop, f.rhs, base, cs)
    else
      var g := GenEffectValue(f, base, cs);
      Gen(g.code, FreeTemp(g.cs, g.r))
  }

  // ---------- output ----------

  function GenLiteralOut(text: string, cs: CState): Gen {
    var (r, cs1) := AllocTemp(cs);
    var g := LoadValue(r, Str(text), cs1);
    Gen(g.code + [CallWrite(r, r)], FreeTemp(g.cs, r))
  }

  function GenWrites(args: Exprs, first: bool, base: nat, cs: CState): Gen {
    match args
    case ENil => Gen([], cs)
    case ECons(e, rest) =>
      var sep := if first then Gen([], cs) else GenLiteralOut(" ", cs);
      var g := GenExpr(e, None, base + |sep.code|, sep.cs);
      var tail := GenWrites(rest, false, base + |sep.code| + |g.code| + 1, FreeTemp(g.cs, g.r));
      Gen(sep.code + g.code + [CallWrite(g.r, g.r)] + tail.code, tail.cs)
  }

  // ---------- sizes, for termination ----------

  function SizeStmt(s: Stmt): nat {
    match s
    case Do(_) => 1
    case Write(_, _) => 1
    case Return(_) => 1
    case Break => 1
    case Continue => 1
    case Block(body) => 1 + SizeStmts(body)
    case If(_, thn, els) => 1 + SizeStmts(thn) + (match els case Some(b) => SizeStmts(b) case None => 0)
    case While(_, body) => 1 + SizeStmts(body)
    case For(init, _, _, body) => 1 + (match init case Some(i) => SizeStmt(i) case None => 0) + SizeStmts(body)
    case Switch(_, cases) => 1 + SizeCases(cases)
    case Try(body, handler, fin) =>
      2 + SizeStmts(body)
      + (match handler case Some(h) => SizeStmts(h.body) case None => 0)
      + SizeFin(fin)
  }

  function SizeFin(fin: Option<Stmts>): nat {
    match fin case Some(b) => SizeStmts(b) case None => 0
  }

  function SizeStmts(ss: Stmts): nat {
    match ss
    case Nil => 0
    case Cons(s, rest) => 1 + SizeStmt(s) + SizeStmts(rest)
  }

  function SizeCases(cs: Cases): nat {
    match cs
    case NoCase => 0
    case Case(_, body, rest) => 1 + SizeStmts(body) + SizeCases(rest)
  }

  function SizePending(ps: seq<Stmts>): nat {
    if ps == [] then 0 else SizePending(ps[..|ps| - 1]) + 1 + SizeStmts(ps[|ps| - 1])
  }

  lemma {:induction false} SizePendingPrefix(ps: seq<Stmts>, k: nat)
    requires k <= |ps|
    ensures SizePending(ps[..k]) <= SizePending(ps)
    decreases |ps|
  {
    if k < |ps| {
      assert ps[..|ps| - 1][..k] == ps[..k];
      SizePendingPrefix(ps[..|ps| - 1], k);
    } else {
      assert ps[..k] == ps;
    }
  }

  lemma SizePendingPush(ps: seq<Stmts>, f: Stmts)
    ensures SizePending(ps + [f]) == SizePending(ps) + 1 + SizeStmts(f)
  {
    assert (ps + [f])[..|ps|] == ps;
  }

  // ---------- statements ----------

  // A loop-stack entry; `floor` is the number of pending `finally` blocks at its entry.
  datatype Loop = Loop(isSwitch: bool, floor: nat)

  // The loop `continue` goes to: the innermost entry that is not a switch.
  function ContinueLevel(loops: seq<Loop>): Option<nat> {
    if loops == [] then None
    else if !loops[|loops| - 1].isSwitch then Some(|loops| - 1)
    else ContinueLevel(loops[..|loops| - 1])
  }

  lemma {:induction false} ContinueLevelBound(loops: seq<Loop>)
    ensures ContinueLevel(loops).Some? ==> ContinueLevel(loops).value < |loops|
    decreases |loops|
  {
    if loops != [] && loops[|loops| - 1].isSwitch {
      ContinueLevelBound(loops[..|loops| - 1]);
    }
  }

  // The loop test: falls through when it holds.
  function GenTest(test: Option<Expr>, exit: nat, base: nat, cs: CState): Gen {
    match test
    case None => Gen([], cs)
    case Some(c) =>
      var g := GenExpr(c, None, base, cs);
      Gen(g.code + [JumpIfFalse(g.r, At(exit))], FreeTemp(g.cs, g.r))
  }

  function GenPost(post: Option<Effect>, base: nat, cs: CState): Gen {
    match post
    case None => Gen([], cs)
    case Some(f) =>
      var g := GenEffectValue(f, base, cs);
      Gen(g.code, FreeTemp(g.cs, g.r))
  }

  // One comparison and jump for every value of every case, in order.
  function GenChecks(cases: Cases, subject: nat, level: nat, index: nat, base: nat, cs: CState): Gen {
    match cases
    case NoCase => Gen([], cs)
    case Case(values, _, rest) =>
      var g := GenValues(values, subject, ToCase(level, index), base, cs);
      var gr := GenChecks(rest, subject, level, index + 1, base + |g.code|, g.cs);
      Gen(g.code + gr.code, gr.cs)
  }

  function GenValues(values: Exprs, subject: nat, target: Target, base: nat, cs: CState): Gen {
    match values
    case ENil => Gen([], cs)
    case ECons(v, rest) =>
      var g := GenExpr(v, None, base, cs);
      var (eq, cs1) := AllocTemp(g.cs);
      var gr := GenValues(rest, subject, target, base + |g.code| + 2, FreeTemp(FreeTemp(cs1, g.r), eq));
      Gen(g.code + [Bin2(Eq, eq, subject, g.r), JumpIfTrue(eq, target)] + gr.code, gr.cs)
  }

  datatype GenC = GenC(code: Code, starts: seq<nat>, cs: CState)

  // Where a subject that equals no value goes: the last `default`, or past the switch.
  function DefaultStart(cases: Cases, starts: seq<nat>, dflt: nat): nat {
    match cases
    case NoCase => dflt
    case Case(values, _, rest) =>
      if starts == [] then dflt
      else DefaultStart(rest, starts[1..], if values.ENil? then starts[0] else dflt)
  }

  // The pending `finally` blocks above `floor`, innermost first, each compiled with only the
  // blocks below `floor` pending.
  function GenPending(ps: seq<Stmts>, floor: nat, base: nat, cs: CState, loops: seq<Loop>): Gen
    decreases SizePending(ps), 3
  {
    if |ps| <= floor then Gen([], cs)
    else
      SizePendingPrefix(ps[..|ps| - 1], floor);
      assert ps[..|ps| - 1][..floor] == ps[..floor];
      var g := GenBlock(ps[|ps| - 1], base, cs, loops, ps[..floor]);
      var rest := GenPending(ps[..|ps| - 1], floor, base + |g.code|, g.cs, loops);
      Gen(g.code + rest.code, rest.cs)
  }

  // Test, body, step and the jump back. `continue` re-enters a while loop at its test and a
  // for loop at its step.
  function GenLoop(test: Option<Expr>, post: Option<Effect>, body: Stmts, isWhile: bool, start: nat, cs: CState,
                   loops: seq<Loop>, pending: seq<Stmts>): Gen
    decreases SizeStmts(body) + SizePending(pending), 2
  {
    var bodyAt := start + |GenTest(test, 0, start, cs).code|;
    var gb := GenBlock(body, bodyAt, GenTest(test, 0, start, cs).cs, loops + [Loop(false, |pending|)], pending);
    var postAt := bodyAt + |gb.code|;
    var gp := GenPost(post, postAt, gb.cs);
    var after := postAt + |gp.code| + 1;
    Gen(GenTest(test, after, start, cs).code
        + Patch(gb.code, |loops|, Fix(after, if isWhile then start else postAt, []))
        + gp.code + [Jump(At(start))], gp.cs)
  }

  // The bodies of a switch, each ended by a jump out of it.
  function GenCases(cases: Cases, base: nat, cs: CState, loops: seq<Loop>, pending: seq<Stmts>): GenC
    requires |loops| > 0
    decreases SizeCases(cases) + SizePending(pending), 2
  {
    match cases
    case NoCase => GenC([], [], cs)
    case Case(_, body, rest) =>
      var g := GenBlock(body, base, cs, loops, pending);
      var gr := GenCases(rest, base + |g.code| + 1, g.cs, loops, pending);
      GenC(g.code + [Jump(ToEnd(|loops| - 1))] + gr.code, [base] + gr.starts, gr.cs)
  }

  function GenBlock(ss: Stmts, base: nat, cs: CState, loops: seq<Loop>, pending: seq<Stmts>): Gen
    decreases SizeStmts(ss) + SizePending(pending), 1
  {
    var g := GenStmts(ss, base, PushScope(cs), loops, pending);
    Gen(g.code, PopScope(g.cs))
  }

  function GenStmts(ss: Stmts, base: nat, cs: CState, loops: seq<Loop>, pending: seq<Stmts>): Gen
    decreases SizeStmts(ss) + SizePending(pending), 0
  {
    match ss
    case Nil => Gen([], cs)
    case Cons(s, rest) =>
      var g := GenStmt(s, base, cs, loops, pending);
      var gr := GenStmts(rest, base + |g.code|, g.cs, loops, pending);
      Gen(g.code + gr.code, gr.cs)
  }

  function GenStmt(s: Stmt, base: nat, cs: CState, loops: seq<Loop>, pending: seq<Stmts>): Gen
    decreases SizeStmt(s) + SizePending(pending), 2
  {
    match s
    case Do(f) => GenEffect(f, base, cs)
    case Write(args, newline) =>
      var g := GenWrites(args, true, base, cs);
      if newline then
        (var nl := GenLiteralOut("\n", g.cs); Gen(g.code + nl.code, nl.cs))
      else g
    case Return(value) =>
      (match value
       case None =>
         var p := GenPending(pending, 0, base, cs, loops);
         Gen(p.code + [RetNull], p.cs)
       case Some(e) =>
         var g := GenExpr(e, None, base, cs);
         var p := GenPending(pending, 0, base + |g.code|, g.cs, loops);
         Gen(g.code + p.code + [Ret(g.r)], FreeTemp(p.cs, g.r)))
    case Break =>
      if loops == [] then Gen([], cs)
      else
        var p := GenPending(pending, loops[|loops| - 1].floor, base, cs, loops);
        Gen(p.code + [Jump(ToBreak(|loops| - 1))], p.cs)
    case Continue =>
      ContinueLevelBound(loops);
      if ContinueLevel(loops).None? then Gen([], cs)
      else
        var level := ContinueLevel(loops).value;
        var p := GenPending(pending, loops[level].floor, base, cs, loops);
        Gen(p.code + [Jump(ToContinue(level))], p.cs)
    case Block(body) => GenBlock(body, base, cs, loops, pending)
    case If(c, thn, els) =>
      var gc := GenExpr(c, None, base, cs);
      var gt := GenBlock(thn, base + |gc.code| + 1, FreeTemp(gc.cs, gc.r), loops, pending);
      var alt := base + |gc.code| + 1 + |gt.code|;
      (match els
       case None => Gen(gc.code + [JumpIfFalse(gc.r, At(alt))] + gt.code, gt.cs)
       case Some(b) =>
         var gf := GenBlock(b, alt + 1, gt.cs, loops, pending);
         Gen(gc.code + [JumpIfFalse(gc.r, At(alt + 1))] + gt.code + [Jump(At(alt + 1 + |gf.code|))] + gf.code, gf.cs))
    case While(c, body) => GenLoop(Some(c), None, body, true, base, cs, loops, pending)
    case For(init, test, post, body) =>
      var gi := match init
                case Some(i) => GenStmt(i, base, PushScope(cs), loops, pending)
                case None => Gen([], PushScope(cs));
      var g := GenLoop(test, post, body, false, base + |gi.code|, gi.cs, loops, pending);
      Gen(gi.code + g.code, PopScope(g.cs))
    case Switch(subject, cases) =>
      var level := |loops|;
      var gs := GenExpr(subject, None, base, cs);
      var gv := GenChecks(cases, gs.r, level, 0, base + |gs.code|, gs.cs);
      var bodiesAt := base + |gs.code| + |gv.code| + 1;
      var gb := GenCases(cases, bodiesAt, gv.cs, loops + [Loop(true, |pending|)], pending);
      var after := bodiesAt + |gb.code|;
      Gen(gs.code
          + Patch(gv.code + [Jump(At(DefaultStart(cases, gb.starts, after)))] + gb.code,
                  level, Fix(after, after, gb.starts)),
          FreeTemp(gb.cs, gs.r))
    case Try(body, handler, fin) =>
      var gb := GenBlock(body, base + 1, cs, loops, WithFin(pending, fin));
      var catchAt := base + 1 + |gb.code| + 2;
      var gh := GenHandling(handler, fin, catchAt, gb.cs, loops, pending);
      var end := catchAt + |gh.code|;
      var gf := match fin
                case Some(b) => GenBlock(b, end, gh.cs, loops, pending)
                case None => Gen([], gh.cs);
      Gen([TryPush(At(catchAt))] + gb.code + [TryPop, Jump(At(end))] + gh.code + gf.code, gf.cs)
  }

  // The pending blocks inside a `try`: its own `finally` block is the innermost.
  function WithFin(pending: seq<Stmts>, fin: Option<Stmts>): (r: seq<Stmts>)
    ensures SizePending(r) <= SizePending(pending) + 1 + SizeFin(fin)
  {
    match fin
    case None => pending
    case Some(b) => SizePendingPush(pending, b); pending + [b]
  }

  // The code for exceptions: the `catch` block, or without one a copy of the `finally` block
  // and the rethrow.
  function GenHandling(handler: Option<Handler>, fin: Option<Stmts>, at: nat, cs: CState,
                       loops: seq<Loop>, pending: seq<Stmts>): Gen
    decreases 2 + (match handler case Some(h) => SizeStmts(h.body) case None => 0) + SizeFin(fin)
      + SizePending(pending), 1
  {
    match handler
    case Some(h) =>
      var cs1 := PushScope(cs);
      var gx := if h.name != "" then (var (e, cs2) := DeclareLocal(cs1, h.name); Gen([LoadExc(e)], cs2))
                else Gen([], cs1);
      var gh := GenBlock(h.body, at + |gx.code|, gx.cs, loops, WithFin(pending, fin));
      Gen(gx.code + gh.code, PopScope(gh.cs))
    case None =>
      var (exc, cs1) := AllocTemp(cs);
      var gt := match fin
                case Some(b) => GenBlock(b, at + 1, cs1, loops, pending)
                case None => Gen([], cs1);
      Gen([LoadExc(exc)] + gt.code + [Throw(exc)], FreeTemp(gt.cs, exc))
  }
}
