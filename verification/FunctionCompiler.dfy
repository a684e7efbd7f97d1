/** The compiler as it runs: it appends to the code, patches it, and keeps its lists and
    registers in place. Every method is proved against the functions of `CodeGen`. */
module FunctionCompilers {
  import opened Options
  import opened Values
  import opened Syntax
  import opened Bytecode
  import opened CodeGen
  import opened Discipline
  import opened SwitchProof
  import opened Emission
  import opened Theorems
  import opened Patching
  import opened CompilerSteps

  // Why compilation is given up, where the original throws.
  datatype Failure = NoFailure | TooManyRegisters | TooManyConstants | TooFar | Misplaced

  const WIDE := 0xFFFF

  class RegisterAllocator {
    const localsEnd: nat
    var next: nat
    var max: nat
    var free: seq<nat>
    var pinned: set<nat>

    ghost function Model(): RegState
      reads this
    {
      RegState(localsEnd, next, max, free, pinned)
    }

    constructor (end: nat)
      ensures Model() == RegState(end, end, end, [], {})
    {
      localsEnd, next, max, free, pinned := end, end, end, [], {};
    }

    method AllocReg() returns (ok: bool, r: nat)
      modifies this
      ensures ok ==> (r, Model()) == Alloc(old(Model()))
      ensures !ok ==> next >= 255 && free == []
    {
      ok, r := true, 0;
      if free != [] {
        r := free[|free| - 1];
        free := free[..|free| - 1];
      } else {
        if next >= 255 {
          return false, 0;
        }
        r := next;
        next := next + 1;
      }
      if r + 1 > max {
        max := r + 1;
      }
    }

    method FreeReg(r: nat)
      modifies this
      ensures Model() == Free(old(Model()), r)
    {
      if r >= localsEnd && r !in pinned && r !in free {
        free := free + [r];
      }
    }

    method AllocLocalReg() returns (ok: bool, r: nat)
      modifies this
      ensures ok ==> (r, Model()) == AllocLocal(old(Model()))
      ensures !ok ==> next >= 255 && free == []
    {
      ok, r := AllocReg();
      if ok {
        pinned := pinned + {r};
      }
    }

    method FreeLocalReg(r: nat)
      modifies this
      ensures Model() == FreeLocal(old(Model()), r)
    {
      pinned := pinned - {r};
      FreeReg(r);
    }
  }

  predicate StartsFar(e: Entry) {
    e.target.Some? && e.target.value > WIDE
  }

  class FunctionCompiler {
    var code: Code
    var pool: seq<Value>
    const regs: RegisterAllocator
    var locals: seq<Local>
    var depth: nat
    var loopStack: seq<Entry>
    var pending: seq<Stmts>

    ghost function Now(): Snap
      reads this, regs
    {
      Snap(code, loopStack, CState(regs.Model(), locals, depth, pool), pending)
    }

    // The parameters are the first locals.
    constructor (params: seq<string>)
      ensures Now() == Snap([], [], InitState(params), []) && fresh(regs)
    {
      code, pool, depth, loopStack, pending := [], [], 0, [], [];
      locals := [];
      regs := new RegisterAllocator(|params|);
      new;
      for k := 0 to |params|
        invariant Now() == Snap([], [], InitState(params).(locals := ParamLocals(params[..k])), [])
      {
        assert ParamLocals(params[..k + 1]) == ParamLocals(params[..k]) + [Local(params[k], k, 0)];
        locals := locals + [Local(params[k], k, 0)];
      }
      assert params[..|params|] == params;
    }

    // What a failure is about.
    ghost predicate Blamed(err: Failure)
      reads this, regs
    {
      && (err.TooManyRegisters? ==> regs.next >= 255 && regs.free == [])
      && (err.TooManyConstants? ==> |pool| >= WIDE)
      && (err.TooFar? ==> |code| > WIDE || exists l :: 0 <= l < |loopStack| && StartsFar(loopStack[l]))
    }

    // ---------- emitting and patching ----------

    method Emit(i: Instr) returns (ip: nat)
      modifies `code
      ensures ip == |old(code)| && Now() == old(Now()).(code := old(code) + [i])
    {
      ip := |code|;
      code := code + [i];
    }

    method PatchJump(ip: nat, target: nat) returns (err: Failure)
      requires ip < |code| && target <= |code|
      modifies `code
      ensures (err.NoFailure? || Blamed(err)) && !err.Misplaced? && |code| == |old(code)|
      ensures err.NoFailure? ==> Now() == old(Now()).(code := Retargeted(old(code), 0, [ip], target))
    {
      if target > WIDE {
        return TooFar;
      }
      code := code[ip := Retarget(code[ip], At(target))];
      assert code == Retargeted(old(code), 0, [ip], target);
      err := NoFailure;
    }

    method PatchAll(list: seq<nat>, target: nat) returns (err: Failure)
      requires (forall p :: p in list ==> p < |code|) && target <= |code|
      modifies `code
      ensures (err.NoFailure? || Blamed(err)) && !err.Misplaced? && |code| == |old(code)|
      ensures err.NoFailure? ==> Now() == old(Now()).(code := Retargeted(old(code), 0, list, target))
    {
      RetargetNone(code, 0, target);
      var k := 0;
      while k < |list|
        invariant 0 <= k <= |list|
        invariant Now() == old(Now()).(code := Retargeted(old(code), 0, list[..k], target))
      {
        assert list[k] in list;
        err := PatchJump(list[k], target);
        if !err.NoFailure? {
          return;
        }
        RetargetMore(old(code), list[..k], list[k], target);
        assert list[..k + 1] == list[..k] + [list[k]];
        k := k + 1;
      }
      assert list[..k] == list;
      err := NoFailure;
    }

    // A jump to be patched later; the one at `ip` goes past it.
    method JumpPast(ip: nat) returns (err: Failure, toEnd: nat)
      requires ip < |code|
      modifies `code
      ensures (err.NoFailure? || Blamed(err)) && !err.Misplaced?
      ensures err.NoFailure? ==> toEnd == |old(code)| && Now() == Crossed(old(Now()), ip)
    {
      toEnd := Emit(Jump(At(0)));
      err := PatchJump(ip, |code|);
    }

    // ---------- constants and registers ----------

    method AddConstant(v: Value) returns (err: Failure, k: nat)
      modifies `pool
      ensures (err.NoFailure? || Blamed(err)) && !err.Misplaced? && !err.TooFar? && !err.TooManyRegisters?
      ensures err.NoFailure? ==> (k, Now().cs) == AddConst(old(Now()).cs, v) && Now() == old(Now()).(cs := Now().cs)
    {
      err, k := NoFailure, 0;
      while k < |pool|
        invariant 0 <= k <= |pool|
        invariant FirstEqual(pool, v) == k + FirstEqual(pool[k..], v)
      {
        if LooseEq(pool[k], v) {
          return;
        }
        assert pool[k..][1..] == pool[k + 1..];
        k := k + 1;
      }
      if |pool| >= WIDE {
        return TooManyConstants, k;
      }
      pool := pool + [v];
    }

    method LoadConstant(dest: nat, v: Value) returns (err: Failure)
      modifies `code, `pool
      ensures (err.NoFailure? || Blamed(err)) && !err.Misplaced?
      ensures err.NoFailure? ==> var g := LoadValue(dest, v, old(Now()).cs); After(old(Now()), g.code, g.cs, Now())
    {
      hide Blamed, After;
      ghost var a := Now();
      err := NoFailure;
      var i := if v.Null? then LoadNull(dest) else if v.Bool? then LoadBool(dest, v.b)
               else if v.Int? then LoadInt(dest, v.n) else LoadNull(dest);
      if v.Float? || v.Str? || (v.Int? && !(-128 <= v.n <= 127)) {
        var k;
        err, k := AddConstant(v);
        if !err.NoFailure? {
          return;
        }
        i := LoadConst(dest, k);
      }
      ghost var b := Now();
      AfterNothing(a);
      AfterState(a, [], a.cs, a, b.cs, b);
      var _ := Emit(i);
      AfterInstr(b, i, Now());
      AfterCat(a, [], b.cs, b, [i], b.cs, Now());
      assert [] + [i] == [i];
    }

    method AllocateTemp() returns (err: Failure, r: nat)
      modifies regs
      ensures (err.NoFailure? || Blamed(err)) && (err.NoFailure? || err.TooManyRegisters?)
      ensures err.NoFailure? ==> (r, Now().cs) == AllocTemp(old(Now()).cs) && Now() == old(Now()).(cs := Now().cs)
    {
      var ok;
      ok, r := regs.AllocReg();
      err := if ok then NoFailure else TooManyRegisters;
    }

    method Release(r: nat)
      modifies regs
      ensures Now() == old(Now()).(cs := FreeTemp(old(Now()).cs, r))
    {
      regs.FreeReg(r);
    }

    method EnsureDest(dest: Option<nat>) returns (err: Failure, r: nat)
      modifies regs
      ensures (err.NoFailure? || Blamed(err)) && (err.NoFailure? || err.TooManyRegisters?)
      ensures err.NoFailure? ==> (r, Now().cs) == Dest(dest, old(Now()).cs) && Now() == old(Now()).(cs := Now().cs)
    {
      if dest.Some? {
        return NoFailure, dest.value;
      }
      err, r := AllocateTemp();
    }

    // ---------- scopes ----------

    method EnterScope()
      modifies `depth
      ensures Now() == old(Now()).(cs := PushScope(old(Now()).cs))
    {
      depth := depth + 1;
    }

    method LeaveScope()
      modifies `depth, `locals, regs
      ensures Now() == old(Now()).(cs := PopScope(old(Now()).cs))
    {
      while locals != [] && locals[|locals| - 1].depth == depth
        invariant PopLocals(Now().cs) == PopLocals(old(Now()).cs) && Now() == old(Now()).(cs := Now().cs)
        decreases |locals|
      {
        regs.FreeLocalReg(locals[|locals| - 1].reg);
        locals := locals[..|locals| - 1];
      }
      depth := if depth > 0 then depth - 1 else 0;
    }

    method Declare(x: string) returns (err: Failure, slot: nat)
      modifies `locals, regs
      ensures (err.NoFailure? || Blamed(err)) && (err.NoFailure? || err.TooManyRegisters?)
      ensures err.NoFailure? ==>
                (slot, Now().cs) == DeclareLocal(old(Now()).cs, x) && Now() == old(Now()).(cs := Now().cs)
    {
      var ok;
      ok, slot := regs.AllocLocalReg();
      if !ok {
        return TooManyRegisters, slot;
      }
      locals := locals + [Local(x, slot, depth)];
      err := NoFailure;
    }

    method Resolve(x: string) returns (slot: Option<nat>)
      ensures slot == Slot(locals, x)
    {
      var k := |locals|;
      assert locals[..k] == locals;
      while k > 0
        invariant 0 <= k <= |locals| && Slot(locals, x) == Slot(locals[..k], x)
      {
        assert locals[..k][|locals[..k]| - 1] == locals[k - 1] && locals[..k][..k - 1] == locals[..k - 1];
        if locals[k - 1].name == x {
          return Some(locals[k - 1].reg);
        }
        k := k - 1;
      }
      slot := None;
    }

    // ---------- expressions ----------

    // The register the value is in: `dest` if given, else one of the compiler's choice.
    method CompileExpr(e: Expr, dest: Option<nat>) returns (err: Failure, r: nat)
      modifies `code, `pool, regs
      ensures (err.NoFailure? || Blamed(err)) && !err.Misplaced?
      ensures err.NoFailure? ==> DidExpr(old(Now()), e, dest, r, Now())
      decreases e, 2
    {
      hide Blamed, After, GenExpr;
      match e
      case Lit(v) => err, r := CompileLit(v, dest);
      case Var(x) => err, r := CompileVar(x, dest);
      case Un(op, a) => err, r := CompileUnary(op, a, dest);
      case Bin(op, a, b) => err, r := CompileBinary(op, a, b, dest);
      case Logical(isAnd, a, b) => err, r := CompileLogical(isAnd, a, b, dest);
      case Coalesce(a, b) => err, r := CompileCoalesce(a, b, dest);
      case Ternary(c, t, f) => err, r := CompileTernary(c, t, f, dest);
    }

    method CompileLit(v: Value, dest: Option<nat>) returns (err: Failure, r: nat)
      modifies `code, `pool, regs
      ensures (err.NoFailure? || Blamed(err)) && !err.Misplaced?
      ensures err.NoFailure? ==> DidExpr(old(Now()), Lit(v), dest, r, Now())
    {
      hide Blamed, After, LoadValue;
      ghost var a := Now();
      err, r := EnsureDest(dest);
      if !err.NoFailure? {
        return;
      }
      ghost var b := Now();
      err := LoadConstant(r, v);
      if !err.NoFailure? {
        return;
      }
      FromState(a, b, LoadValue(r, v, b.cs).code, LoadValue(r, v, b.cs).cs, Now());
    }

    method CompileVar(x: string, dest: Option<nat>) returns (err: Failure, r: nat)
      modifies `code, `pool, regs
      ensures (err.NoFailure? || Blamed(err)) && !err.Misplaced?
      ensures err.NoFailure? ==> DidExpr(old(Now()), Var(x), dest, r, Now())
    {
      hide Blamed, After, Slot;
      ghost var a := Now();
      err := NoFailure;
      var slot := Resolve(x);
      if slot.Some? {
        if dest.None? {
          r := slot.value;
          AfterNothing(a);
          return;
        }
        r := dest.value;
        var _ := Emit(Move(r, slot.value));
        AfterInstr(a, Move(r, slot.value), Now());
        return;
      }
      err, r := EnsureDest(dest);
      if !err.NoFailure? {
        return;
      }
      var k;
      err, k := AddConstant(Str(x));
      if !err.NoFailure? {
        return;
      }
      ghost var b := Now();
      var _ := Emit(LoadGlobal(r, k));
      AfterInstr(b, LoadGlobal(r, k), Now());
      FromState(a, b, [LoadGlobal(r, k)], b.cs, Now());
    }

    method CompileUnary(op: UnOp, e: Expr, dest: Option<nat>) returns (err: Failure, r: nat)
      modifies `code, `pool, regs
      ensures (err.NoFailure? || Blamed(err)) && !err.Misplaced?
      ensures err.NoFailure? ==> DidExpr(old(Now()), Un(op, e), dest, r, Now())
      decreases Un(op, e), 0
    {
      hide Blamed, DidExpr, AllocTemp, FreeTemp, Dest;
      ghost var a := Now();
      r := 0;
      var operand;
      err, operand := CompileExpr(e, None);
      if !err.NoFailure? {
        return;
      }
      ghost var b := Now();
      err, r := EnsureDest(dest);
      if !err.NoFailure? {
        return;
      }
      ghost var c := Now();
      var _ := Emit(Un1(op, r, operand));
      ghost var d := Now();
      Release(operand);
      UnaryDone(a, op, e, dest, operand, b, r, c, d, Now());
    }

    method CompileBinary(op: BinOp, l: Expr, rhs: Expr, dest: Option<nat>) returns (err: Failure, r: nat)
      modifies `code, `pool, regs
      ensures (err.NoFailure? || Blamed(err)) && !err.Misplaced?
      ensures err.NoFailure? ==> DidExpr(old(Now()), Bin(op, l, rhs), dest, r, Now())
      decreases Bin(op, l, rhs), 1
    {
      hide Blamed, DidExpr, AllocTemp, FreeTemp, Dest;
      ghost var a := Now();
      r := 0;
      var x, y;
      ghost var b;
      err, x, y, b := CompileOperands(op, l, rhs);
      if !err.NoFailure? {
        return;
      }
      ghost var c := Now();
      err, r := EnsureDest(dest);
      if !err.NoFailure? {
        return;
      }
      ghost var d := Now();
      Apply(op, r, x, y);
      BinaryDone(a, op, l, rhs, dest, x, b, y, c, r, d, Now());
    }

    method CompileOperands(ghost op: BinOp, l: Expr, rhs: Expr) returns (err: Failure, x: nat, y: nat, ghost b: Snap)
      modifies `code, `pool, regs
      ensures (err.NoFailure? || Blamed(err)) && !err.Misplaced?
      ensures err.NoFailure? ==> DidExpr(old(Now()), l, None, x, b) && DidExpr(b, rhs, None, y, Now())
      decreases Bin(op, l, rhs), 0
    {
      hide *;
      y := 0;
      err, x := CompileExpr(l, None);
      b := Now();
      if err.NoFailure? {
        err, y := CompileExpr(rhs, None);
      }
    }

    method Apply(op: BinOp, r: nat, x: nat, y: nat)
      modifies `code, regs
      ensures Now() == old(Now()).(code := old(code) + [Bin2(op, r, x, y)],
                                   cs := FreeTemp(FreeTemp(old(Now()).cs, y), x))
    {
      var _ := Emit(Bin2(op, r, x, y));
      Release(y);
      Release(x);
    }

    method CompileLogical(isAnd: bool, l: Expr, rhs: Expr, dest: Option<nat>) returns (err: Failure, r: nat)
      modifies `code, `pool, regs
      ensures (err.NoFailure? || Blamed(err)) && !err.Misplaced?
      ensures err.NoFailure? ==> DidExpr(old(Now()), Logical(isAnd, l, rhs), dest, r, Now())
      decreases Logical(isAnd, l, rhs), 0
    {
      hide Blamed, DidExpr, Dest, Retargeted;
      ghost var a := Now();
      err, r := EnsureDest(dest);
      if !err.NoFailure? {
        return;
      }
      ghost var b := Now();
      // With a register given, that is the register it returns.
      var same;
      err, same := CompileExpr(l, Some(r));
      if !err.NoFailure? {
        return;
      }
      ghost var c := Now();
      var skip := Emit(if isAnd then JumpIfFalse(r, At(0)) else JumpIfTrue(r, At(0)));
      ghost var d := Now();
      ghost var last, e;
      err, last, e := CompileLast(rhs, r, skip);
      if err.NoFailure? {
        LogicalDone(a, isAnd, l, rhs, dest, r, b, same, c, d, last, e, Now());
      }
    }

    method CompileCoalesce(l: Expr, rhs: Expr, dest: Option<nat>) returns (err: Failure, r: nat)
      modifies `code, `pool, regs
      ensures (err.NoFailure? || Blamed(err)) && !err.Misplaced?
      ensures err.NoFailure? ==> DidExpr(old(Now()), Coalesce(l, rhs), dest, r, Now())
      decreases Coalesce(l, rhs), 0
    {
      hide Blamed, DidExpr, Dest, Retargeted, FreeTemp, Crossed;
      ghost var a := Now();
      r := 0;
      var lhs;
      err, lhs := CompileExpr(l, None);
      if !err.NoFailure? {
        return;
      }
      ghost var b := Now();
      err, r := EnsureDest(dest);
      if !err.NoFailure? {
        return;
      }
      ghost var c := Now();
      var onNull := Emit(JumpIfNull(lhs, At(0)));
      ghost var d := Now();
      MoveOver(r, lhs);
      ghost var e := Now();
      var toEnd;
      err, toEnd := JumpPast(onNull);
      if !err.NoFailure? {
        return;
      }
      ghost var h := Now();
      CrossedSize(e, |b.code|);
      ghost var same, i;
      err, same, i := CompileLast(rhs, r, toEnd);
      if err.NoFailure? {
        CoalesceDone(a, l, rhs, dest, lhs, b, r, c, d, e, h, same, i, Now());
      }
    }

    // A condition, and a jump to be patched that is taken when it fails.
    method CompileCond(e: Expr) returns (err: Failure, ip: nat, ghost cond: nat, ghost b: Snap)
      modifies `code, `pool, regs
      ensures (err.NoFailure? || Blamed(err)) && !err.Misplaced?
      ensures err.NoFailure? ==>
                && DidExpr(old(Now()), e, None, cond, b) && ip == |b.code|
                && Now() == b.(code := b.code + [JumpIfFalse(cond, At(0))], cs := FreeTemp(b.cs, cond))
      decreases e, 3
    {
      hide Blamed, DidExpr, FreeTemp;
      ip := 0;
      var r;
      err, r := CompileExpr(e, None);
      cond, b := r, Now();
      if !err.NoFailure? {
        return;
      }
      ip := Emit(JumpIfFalse(r, At(0)));
      Release(r);
    }

    // The last operand, into `r`; the jump at `skip` goes behind it.
    method CompileLast(e: Expr, r: nat, skip: nat) returns (err: Failure, ghost same: nat, ghost i: Snap)
      requires skip < |code|
      modifies `code, `pool, regs
      ensures (err.NoFailure? || Blamed(err)) && !err.Misplaced?
      ensures err.NoFailure? ==>
                DidExpr(old(Now()), e, Some(r), same, i) && Now() == i.(code := Retargeted(i.code, 0, [skip], |i.code|))
      decreases e, 3
    {
      hide Blamed, DidExpr, Retargeted;
      ghost var a := Now();
      var q;
      err, q := CompileExpr(e, Some(r));
      same, i := q, Now();
      if !err.NoFailure? {
        return;
      }
      DidMore(a, e, Some(r), q, i);
      err := PatchJump(skip, |code|);
    }

    method MoveOver(r: nat, from: nat)
      modifies `code, regs
      ensures Now() == old(Now()).(code := old(code) + [Move(r, from)], cs := FreeTemp(old(Now()).cs, from))
    {
      var _ := Emit(Move(r, from));
      Release(from);
    }

    method CompileTernary(c0: Expr, t: Expr, f: Expr, dest: Option<nat>) returns (err: Failure, r: nat)
      modifies `code, `pool, regs
      ensures (err.NoFailure? || Blamed(err)) && !err.Misplaced?
      ensures err.NoFailure? ==> DidExpr(old(Now()), Ternary(c0, t, f), dest, r, Now())
      decreases Ternary(c0, t, f), 0
    {
      hide Blamed, DidExpr, Dest, Retargeted, FreeTemp, Crossed;
      ghost var a := Now();
      r := 0;
      var cond, same;
      err, cond := CompileExpr(c0, None);
      if !err.NoFailure? {
        return;
      }
      ghost var b := Now();
      var onFalse := Emit(JumpIfFalse(cond, At(0)));
      Release(cond);
      ghost var c := Now();
      err, r := EnsureDest(dest);
      if !err.NoFailure? {
        return;
      }
      ghost var d := Now();
      err, same := CompileExpr(t, Some(r));
      if !err.NoFailure? {
        return;
      }
      ghost var e := Now();
      DidMore(d, t, Some(r), same, e);
      var toEnd;
      err, toEnd := JumpPast(onFalse);
      if !err.NoFailure? {
        return;
      }
      ghost var h := Now();
      CrossedSize(e, |b.code|);
      ghost var last, i;
      err, last, i := CompileLast(f, r, toEnd);
      if err.NoFailure? {
        TernaryDone(a, c0, t, f, dest, cond, b, c, r, d, same, e, h, last, i, Now());
      }
    }

    // ---------- effects ----------

    // A local assigned for the first time is declared.
    method CompileAssign(x: string, aop: AssignOp, rhs: Expr) returns (err: Failure)
      modifies `code, `pool, `locals, regs
      ensures (err.NoFailure? || Blamed(err)) && !err.Misplaced?
      ensures err.NoFailure? ==>
                var g := GenAssign(x, aop, rhs, |old(code)|, old(Now()).cs); After(old(Now()), g.code, g.cs, Now())
    {
      hide Blamed, DidExpr, After, AllocTemp, FreeTemp, DeclareLocal, AddConst, GenExpr, GenAssign;
      ghost var a := Now();
      var slot := Resolve(x);
      var val;
      err, val := CompileExpr(rhs, None);
      if !err.NoFailure? {
        return;
      }
      ghost var b := Now();
      if slot.Some? {
        if aop.Plain? {
          var _ := Emit(Move(slot.value, val));
        } else if aop.op == Concat {
          var _ := Emit(Bin2(Concat, slot.value, slot.value, val));
        } else {
          err := CompoundLocal(aop.op, slot.value, val);
          if err.NoFailure? {
            AssignDone(a, x, aop, rhs, val, b, Now());
          }
          return;
        }
        Release(val);
        AssignDone(a, x, aop, rhs, val, b, Now());
        return;
      }
      var s;
      if aop.Plain? {
        err, s := Declare(x);
        if !err.NoFailure? {
          return;
        }
        var _ := Emit(Move(s, val));
        Release(val);
      } else {
        err := CompoundNew(x, aop.op, val);
      }
      if err.NoFailure? {
        AssignDone(a, x, aop, rhs, val, b, Now());
      }
    }

    method CompoundLocal(op: BinOp, slot: nat, val: nat) returns (err: Failure)
      modifies `code, regs
      ensures (err.NoFailure? || Blamed(err)) && !err.Misplaced?
      ensures err.NoFailure? ==> Now() == CompoundedLocal(old(Now()), op, slot, val)
    {
      hide Blamed, AllocTemp, FreeTemp;
      var cur, tmp;
      err, cur := AllocateTemp();
      if !err.NoFailure? {
        return;
      }
      var _ := Emit(Move(cur, slot));
      err, tmp := AllocateTemp();
      if !err.NoFailure? {
        return;
      }
      var _ := Emit(Bin2(op, tmp, cur, val));
      Release(cur);
      Release(val);
      var _ := Emit(Move(slot, tmp));
      Release(tmp);
    }

    method CompoundNew(x: string, op: BinOp, val: nat) returns (err: Failure)
      modifies `code, `pool, `locals, regs
      ensures (err.NoFailure? || Blamed(err)) && !err.Misplaced?
      ensures err.NoFailure? ==> Now() == CompoundedNew(old(Now()), x, op, val)
    {
      hide Blamed, AllocTemp, FreeTemp, DeclareLocal, AddConst;
      var k, cur, tmp, s;
      err, k := AddConstant(Str(x));
      if !err.NoFailure? {
        return;
      }
      err, cur := AllocateTemp();
      if !err.NoFailure? {
        return;
      }
      var _ := Emit(LoadGlobal(cur, k));
      err, tmp := AllocateTemp();
      if !err.NoFailure? {
        return;
      }
      var _ := Emit(Bin2(op, tmp, cur, val));
      Release(cur);
      Release(val);
      err, s := Declare(x);
      if !err.NoFailure? {
        return;
      }
      var _ := Emit(Move(s, tmp));
      Release(tmp);
    }

    method CompileIncDec(x: string, inc: bool, prefix: bool) returns (err: Failure, r: nat)
      modifies `code, `pool, regs
      ensures (err.NoFailure? || Blamed(err)) && !err.Misplaced?
      ensures err.NoFailure? ==> DidEffect(old(Now()), IncDec(x, inc, prefix), r, Now())
    {
      hide Blamed, DidEffect, AllocTemp, FreeTemp, AddConst, Stepped;
      ghost var a := Now();
      r := 0;
      var one, k, nv;
      err, one := AllocateTemp();
      if !err.NoFailure? {
        return;
      }
      var _ := Emit(LoadInt(one, 1));
      var slot := Resolve(x);
      err, r := AllocateTemp();
      if !err.NoFailure? {
        return;
      }
      k := 0;
      ghost var b := Now();
      if slot.Some? {
        var _ := Emit(Move(r, slot.value));
      } else {
        err, k := AddConstant(Str(x));
        if !err.NoFailure? {
          return;
        }
        var _ := Emit(LoadGlobal(r, k));
      }
      ghost var c := Now();
      err, nv := AllocateTemp();
      if !err.NoFailure? {
        return;
      }
      ghost var d := Now();
      StepVariable(if inc then Add else Sub, slot, k, nv, r, one, prefix);
      Release(nv);
      Release(one);
      IncDecDone(a, x, inc, prefix, one, r, b, k, c, nv, d, Now());
    }

    method StepVariable(op: BinOp, slot: Option<nat>, k: nat, nv: nat, r: nat, one: nat, prefix: bool)
      modifies `code
      ensures Now() == old(Now()).(code := old(code) + Stepped(op, slot, k, nv, r, one, prefix))
    {
      ghost var before := code;
      var _ := Emit(Bin2(op, nv, r, one));
      var _ := Emit(if slot.Some? then Move(slot.value, nv) else StoreGlobal(nv, k));
      if prefix {
        var _ := Emit(Move(r, nv));
      }
      assert code == before + Stepped(op, slot, k, nv, r, one, prefix);
    }

    method CompileEffectValue(f: Effect) returns (err: Failure, r: nat)
      modifies `code, `pool, `locals, regs
      ensures (err.NoFailure? || Blamed(err)) && !err.Misplaced?
      ensures err.NoFailure? ==> DidEffect(old(Now()), f, r, Now())
    {
      hide Blamed, After, AllocTemp, GenAssign, GenExpr, GenIncDec;
      r := 0;
      match f
      case Eval(e) => err, r := CompileExpr(e, None);
      case IncDec(x, inc, prefix) => err, r := CompileIncDec(x, inc, prefix);
      case Assign(x, aop, rhs) =>
        ghost var a := Now();
        err := CompileAssign(x, aop, rhs);
        if !err.NoFailure? {
          return;
        }
        ghost var b := Now();
        ghost var g := GenAssign(x, aop, rhs, |a.code|, a.cs);
        AfterFacts(a, g.code, g.cs, b);
        AssignDeclares(x, aop, rhs, |a.code|, a.cs);
        var slot := Resolve(x);
        err, r := AllocateTemp();
        if !err.NoFailure? {
          return;
        }
        ghost var c := Now();
        TempLocals(b.cs);
        var _ := Emit(Move(r, slot.value));
        AfterNext(a, g.code, g.cs, b, c, Move(r, slot.value), Now(), Now());
    }

    method CompileEffect(f: Effect) returns (err: Failure)
      modifies `code, `pool, `locals, regs
      ensures (err.NoFailure? || Blamed(err)) && !err.Misplaced?
      ensures err.NoFailure? ==> var g := GenEffect(f, |old(code)|, old(Now()).cs);
              After(old(Now()), g.code, g.cs, Now())
    {
      hide Blamed, After, FreeTemp, GenAssign, GenEffectValue;
      ghost var a := Now();
      if f.Assign? {
        err := CompileAssign(f.x, f.aop, f.rhs);
        return;
      }
      var r;
      err, r := CompileEffectValue(f);
      if !err.NoFailure? {
        return;
      }
      ghost var b := Now();
      Release(r);
      ghost var g := GenEffectValue(f, |a.code|, a.cs);
      AfterFacts(a, g.code, g.cs, b);
      AfterState(a, g.code, g.cs, b, Now().cs, Now());
    }

    // ---------- output ----------

    method EmitLiteral(text: string) returns (err: Failure)
      modifies `code, `pool, regs
      ensures (err.NoFailure? || Blamed(err)) && !err.Misplaced?
      ensures err.NoFailure? ==> var g := GenLiteralOut(text, old(Now()).cs); After(old(Now()), g.code, g.cs, Now())
    {
      hide Blamed, After, AllocTemp, FreeTemp, LoadValue;
      ghost var a := Now();
      var r;
      err, r := AllocateTemp();
      if !err.NoFailure? {
        return;
      }
      ghost var b := Now();
      err := LoadConstant(r, Str(text));
      if !err.NoFailure? {
        return;
      }
      ghost var g := LoadValue(r, Str(text), b.cs);
      ghost var c := Now();
      FromState(a, b, g.code, g.cs, c);
      AfterFacts(a, g.code, g.cs, c);
      var _ := Emit(CallWrite(r, r));
      ghost var d := Now();
      Release(r);
      AfterNext(a, g.code, g.cs, c, c, CallWrite(r, r), d, Now());
    }

    method CompileWrites(args: Exprs) returns (err: Failure)
      modifies `code, `pool, regs
      ensures (err.NoFailure? || Blamed(err)) && !err.Misplaced?
      ensures err.NoFailure? ==> var g := GenWrites(args, true, |old(code)|, old(Now()).cs);
              After(old(Now()), g.code, g.cs, Now())
    {
      hide Blamed, After, GenWrites, GenExpr, GenLiteralOut, FreeTemp, DidExpr;
      ghost var a := Now();
      ghost var g := GenWrites(args, true, |a.code|, a.cs);
      ghost var done: Code := [];
      AfterNothing(a);
      assert [] + g.code == g.code;
      var rest, first := args, true;
      while rest.ECons?
        invariant After(a, done, Now().cs, Now())
        invariant var gr := GenWrites(rest, first, |code|, Now().cs); done + gr.code == g.code && gr.cs == g.cs
        decreases rest
      {
        ghost var b := Now();
        if !first {
          err := EmitLiteral(" ");
          if !err.NoFailure? {
            return;
          }
        } else {
          AfterNothing(b);
        }
        ghost var c := Now();
        var r;
        err, r := CompileExpr(rest.head, None);
        if !err.NoFailure? {
          return;
        }
        ghost var d := Now();
        var _ := Emit(CallWrite(r, r));
        ghost var e := Now();
        Release(r);
        done := WriteDone(a, done, b, rest, first, c, r, d, e, Now());
        rest, first := rest.tail, false;
      }
      WritesEnd(first, |code|, Now().cs);
      assert done + [] == done;
      err := NoFailure;
    }

    // ---------- statements ----------

    // `continue` never belongs to a switch.
    ghost predicate Valid()
      reads `loopStack
    {
      forall l :: 0 <= l < |loopStack| && loopStack[l].isSwitch ==> loopStack[l].continues == []
    }

    method CompileBlock(ss: Stmts) returns (err: Failure)
      requires Valid()
      modifies this, regs
      ensures (err.NoFailure? || Blamed(err)) && (err.Misplaced? ==> !BlockPlaced(old(Now()), ss))
      ensures err.NoFailure? ==> Valid() && DidBlock(old(Now()), ss, Now())
      decreases SizeStmts(ss) + SizePending(pending), 1
    {
      hide Blamed, After, GenStmts, GenStmt, PushScope, PopScope, PlacedIn, Placed, DidStmt;
      ghost var a := Now();
      EnterScope();
      ghost var b := Now();
      ghost var g := GenStmts(ss, |b.code|, b.cs, Loops(b.stack), b.pending);
      ghost var done: Code := [];
      AfterNothing(b);
      assert [] + g.code == g.code;
      var rest := ss;
      while rest.Cons?
        invariant Valid() && After(b, done, Now().cs, Now()) && pending == b.pending && |b.stack| == |loopStack|
        invariant Loops(loopStack) == Loops(b.stack)
        invariant BlockPlaced(a, ss) ==> BlockPlaced(Now(), rest)
        invariant SizeStmts(rest) <= SizeStmts(ss)
        invariant var gr := GenStmts(rest, |code|, Now().cs, Loops(b.stack), b.pending);
                  done + gr.code == g.code && gr.cs == g.cs
        decreases rest
      {
        ghost var c := Now();
        err := CompileStmt(rest.head);
        if !err.NoFailure? {
          HeadPlaced(c, rest);
          return;
        }
        done := StmtStep(b, done, rest, c, Now());
        TailPlaced(c, rest, Now());
        rest := rest.tail;
      }
      NoStmts(|code|, Now().cs, Loops(b.stack), b.pending);
      assert done + [] == done;
      ghost var d := Now();
      LeaveScope();
      BlockDone(a, ss, b, d, Now());
      err := NoFailure;
    }

    // The pending `finally` blocks down to `floor`, innermost first, each compiled with only
    // the blocks below `floor` pending.
    method EmitPendingFinallys(floor: nat) returns (err: Failure)
      requires Valid()
      modifies this, regs
      ensures (err.NoFailure? || Blamed(err)) && (err.Misplaced? ==> !PendPlaced(old(pending)))
      ensures err.NoFailure? ==> Valid() && DidPending(old(Now()), floor, Now())
      decreases SizePending(pending), 3
    {
      hide Blamed, After, GenPending, GenBlock, GenStmts, DidBlock, PlacedIn, SizePending;
      ghost var a := Now();
      if |pending| <= floor {
        AfterNothing(a);
        PendingNone(a.pending, floor, |a.code|, a.cs, Loops(a.stack));
        return NoFailure;
      }
      var suffix := pending[floor..];
      pending := pending[..floor];
      ghost var b := Now();
      ghost var g := GenPending(a.pending, floor, |a.code|, a.cs, Loops(a.stack));
      ghost var done: Code := [];
      AfterNothing(b);
      assert [] + g.code == g.code;
      var k := |suffix|;
      assert a.pending[..floor + k] == a.pending;
      while k > 0
        invariant 0 <= k <= |suffix| && Valid() && After(b, done, Now().cs, Now()) && pending == b.pending
        invariant Loops(loopStack) == Loops(b.stack)
        invariant var gr := GenPending(a.pending[..floor + k], floor, |code|, Now().cs, Loops(b.stack));
                  done + gr.code == g.code && gr.cs == g.cs
      {
        k := k - 1;
        ghost var c := Now();
        PendingSize(a.pending, floor, k);
        assert suffix[k] == a.pending[floor + k];
        err := CompileBlock(suffix[k]);
        if !err.NoFailure? {
          FinPlaced(a.pending, floor + k, c);
          return;
        }
        done := PendingStep(b, done, a.pending, floor, k, c, Now());
      }
      PendingNone(a.pending[..floor + k], floor, |code|, Now().cs, Loops(b.stack));
      assert done + [] == done;
      ghost var d := Now();
      pending := pending + suffix;
      assert pending == a.pending;
      AfterPending(b, done, d.cs, d, a.pending);
      err := NoFailure;
    }

    method CompileStmt(s: Stmt) returns (err: Failure)
      requires Valid()
      modifies this, regs
      ensures (err.NoFailure? || Blamed(err)) && (err.Misplaced? ==> !StmtPlaced(old(Now()), s))
      ensures err.NoFailure? ==> Valid() && DidStmt(old(Now()), s, Now())
      decreases SizeStmt(s) + SizePending(pending), 2
    {
      hide Blamed, DidStmt, After, GenStmt, GenEffect, GenBlock, Placed, PlacedIn, DidBlock;
      ghost var a := Now();
      match s
      case Do(f) =>
        err := CompileEffect(f);
        if err.NoFailure? {
          DoDone(a, f, Now());
        }
      case Write(args, newline) => err := CompileWrite(args, newline);
      case Return(value) => err := CompileReturn(value);
      case Break => err := CompileBreak();
      case Continue => err := CompileContinue();
      case Block(body) =>
        err := CompileBlock(body);
        BlockStmt(a, body, Now());
      case If(c, thn, els) => err := CompileIf(c, thn, els);
      case While(c, body) => err := CompileWhile(c, body);
      case For(init, test, post, body) => err := CompileFor(init, test, post, body);
      case Switch(subject, cases) => err := CompileSwitch(subject, cases);
      case Try(body, handler, fin) => err := CompileTry(body, handler, fin);
    }

    method CompileWrite(args: Exprs, newline: bool) returns (err: Failure)
      modifies `code, `pool, regs
      ensures (err.NoFailure? || Blamed(err)) && !err.Misplaced?
      ensures err.NoFailure? ==> DidStmt(old(Now()), Write(args, newline), Now())
    {
      hide Blamed, After, GenWrites, GenLiteralOut;
      ghost var a := Now();
      err := CompileWrites(args);
      if !err.NoFailure? {
        return;
      }
      ghost var g := GenWrites(args, true, |a.code|, a.cs);
      ghost var b := Now();
      AfterFacts(a, g.code, g.cs, b);
      if newline {
        err := EmitLiteral("\n");
        if err.NoFailure? {
          AfterCat(a, g.code, g.cs, b, GenLiteralOut("\n", b.cs).code, GenLiteralOut("\n", b.cs).cs, Now());
        }
      }
    }

    method CompileReturn(value: Option<Expr>) returns (err: Failure)
      requires Valid()
      modifies this, regs
      ensures (err.NoFailure? || Blamed(err)) && (err.Misplaced? ==> !PendPlaced(old(pending)))
      ensures err.NoFailure? ==> Valid() && DidStmt(old(Now()), Return(value), Now())
      decreases 1 + SizePending(pending), 1
    {
      hide Blamed, DidStmt, DidPending, DidExpr, PendPlaced, FreeTemp;
      ghost var a := Now();
      if value.None? {
        err := EmitPendingFinallys(0);
        if !err.NoFailure? {
          return;
        }
        ghost var b := Now();
        var _ := Emit(RetNull);
        ReturnNullDone(a, b, Now());
        return;
      }
      var r;
      err, r := CompileExpr(value.value, None);
      if !err.NoFailure? {
        return;
      }
      ghost var b := Now();
      err := EmitPendingFinallys(0);
      if !err.NoFailure? {
        return;
      }
      ghost var c := Now();
      var _ := Emit(Ret(r));
      Release(r);
      ReturnDone(a, value.value, r, b, c, Now());
    }

    method CompileBreak() returns (err: Failure)
      requires Valid()
      modifies this, regs
      ensures (err.NoFailure? || Blamed(err)) && (err.Misplaced? ==> !StmtPlaced(old(Now()), Break))
      ensures err.NoFailure? ==> Valid() && DidStmt(old(Now()), Break, Now())
      decreases 1 + SizePending(pending), 1
    {
      hide DidStmt, DidPending, PendPlaced;
      ghost var a := Now();
      if loopStack == [] {
        return Misplaced;
      }
      err := EmitPendingFinallys(loopStack[|loopStack| - 1].floor);
      if !err.NoFailure? {
        return;
      }
      ghost var b := Now();
      PendingFacts(a, a.stack[|a.stack| - 1].floor, b);
      var p := Emit(Jump(At(0)));
      var top := loopStack[|loopStack| - 1];
      loopStack := loopStack[|loopStack| - 1 := top.(breaks := top.breaks + [p])];
      BreakDone(a, b, Now());
    }

    // Past the switches, to the innermost loop.
    method CompileContinue() returns (err: Failure)
      requires Valid()
      modifies this, regs
      ensures (err.NoFailure? || Blamed(err)) && (err.Misplaced? ==> !StmtPlaced(old(Now()), Continue))
      ensures err.NoFailure? ==> Valid() && DidStmt(old(Now()), Continue, Now())
      decreases 1 + SizePending(pending), 1
    {
      hide DidStmt, DidPending, PendPlaced;
      ghost var a := Now();
      var idx := |loopStack|;
      assert Loops(a.stack)[..idx] == Loops(a.stack);
      while idx > 0 && loopStack[idx - 1].isSwitch
        invariant 0 <= idx <= |loopStack| && ContinueLevel(Loops(a.stack)[..idx]) == ContinueLevel(Loops(a.stack))
      {
        assert Loops(a.stack)[..idx][..idx - 1] == Loops(a.stack)[..idx - 1];
        idx := idx - 1;
      }
      if idx == 0 {
        assert Loops(a.stack)[..0] == [];
        return Misplaced;
      }
      var level: nat := idx - 1;
      assert ContinueLevel(Loops(a.stack)) == Some(level);
      err := EmitPendingFinallys(loopStack[level].floor);
      if !err.NoFailure? {
        return;
      }
      ghost var b := Now();
      PendingFacts(a, a.stack[level].floor, b);
      var e := loopStack[level];
      if e.target.Some? {
        if e.target.value > WIDE {
          assert StartsFar(loopStack[level]);
          return TooFar;
        }
        var _ := Emit(Jump(At(e.target.value)));
      } else {
        var p := Emit(Jump(At(0)));
        loopStack := loopStack[level := e.(continues := e.continues + [p])];
      }
      ContinueDone(a, level, b, Now());
    }

    method CompileIf(c0: Expr, thn: Stmts, els: Option<Stmts>) returns (err: Failure)
      requires Valid()
      modifies this, regs
      ensures (err.NoFailure? || Blamed(err)) && (err.Misplaced? ==> !StmtPlaced(old(Now()), If(c0, thn, els)))
      ensures err.NoFailure? ==> Valid() && DidStmt(old(Now()), If(c0, thn, els), Now())
      decreases SizeStmt(If(c0, thn, els)) + SizePending(pending), 1
    {
      hide Blamed, DidStmt, DidBlock, DidExpr, Retargeted, FreeTemp, PendPlaced, PlacedIn, Crossed;
      ghost var a := Now();
      var onFalse;
      ghost var cond, b;
      err, onFalse, cond, b := CompileCond(c0);
      if !err.NoFailure? {
        return;
      }
      ExprFrame(a, c0, None, cond, b);
      ghost var d := Now();
      err := CompileBlock(thn);
      if !err.NoFailure? {
        return;
      }
      ghost var e := Now();
      BlockFrame(d, thn, e);
      if els.None? {
        err := PatchJump(onFalse, |code|);
        if err.NoFailure? {
          IfDone(a, c0, thn, cond, b, d, e, Now());
        }
        return;
      }
      var toEnd;
      err, toEnd := JumpPast(onFalse);
      if !err.NoFailure? {
        return;
      }
      ghost var h := Now();
      CrossedSize(e, |b.code|);
      err := CompileBlock(els.value);
      if !err.NoFailure? {
        return;
      }
      ghost var i := Now();
      BlockFrame(h, els.value, i);
      err := PatchJump(toEnd, |code|);
      if err.NoFailure? {
        IfElseDone(a, c0, thn, els.value, cond, b, d, e, h, i, Now());
      }
    }

    method CompileWhile(c0: Expr, body: Stmts) returns (err: Failure)
      requires Valid()
      modifies this, regs
      ensures (err.NoFailure? || Blamed(err)) && (err.Misplaced? ==> !StmtPlaced(old(Now()), While(c0, body)))
      ensures err.NoFailure? ==> Valid() && DidStmt(old(Now()), While(c0, body), Now())
      decreases SizeStmt(While(c0, body)) + SizePending(pending), 1
    {
      hide Blamed, DidStmt, DidLoop, DidBlock, DidTest, Retargeted, FreeTemp, PendPlaced, PlacedIn, LoopRun;
      ghost var a := Now();
      var start := |code|;
      err := CompileTest(Some(c0));
      if !err.NoFailure? {
        return;
      }
      ghost var d := Now();
      TestFrame(a, Some(c0), d);
      var exit := |code| - 1;
      loopStack := loopStack + [Entry(false, |pending|, Some(start), [], [])];
      InLoopPlaced(a, body, Now());
      err := CompileBlock(body);
      if !err.NoFailure? {
        return;
      }
      ghost var e := Now();
      InnerFrame(d, Entry(false, |d.pending|, Some(start), [], []), body, e);
      var ctx := loopStack[|loopStack| - 1];
      loopStack := loopStack[..|loopStack| - 1];
      ghost var f := Now();
      err := PatchAll(ctx.continues, start);
      if !err.NoFailure? {
        return;
      }
      ghost var q := Now();
      err := CloseLoop(start, Some(exit), ctx.breaks);
      if err.NoFailure? {
        NoPost(f);
        LoopDone(a, Some(c0), None, body, true, d, e, f, f, q, Now());
        WhileStmt(a, c0, body, Now());
      }
    }

    method CompileFor(init: Option<Stmt>, test: Option<Expr>, post: Option<Effect>, body: Stmts) returns (err: Failure)
      requires Valid()
      modifies this, regs
      ensures (err.NoFailure? || Blamed(err))
              && (err.Misplaced? ==> !StmtPlaced(old(Now()), For(init, test, post, body)))
      ensures err.NoFailure? ==> Valid() && DidStmt(old(Now()), For(init, test, post, body), Now())
      decreases SizeStmt(For(init, test, post, body)) + SizePending(pending), 1
    {
      hide Blamed, DidStmt, DidLoop, PendPlaced, PlacedIn, Placed, PushScope, PopScope;
      ghost var z := Now();
      EnterScope();
      ghost var y := Now();
      ForPlaced(z, init, test, post, body, y);
      if init.Some? {
        err := CompileStmt(init.value);
        if !err.NoFailure? {
          return;
        }
        StmtFrame(y, init.value, Now());
      }
      ghost var a := Now();
      ForBodyPlaced(z, init, test, post, body, a);
      err := CompileForLoop(test, post, body);
      if !err.NoFailure? {
        return;
      }
      ghost var t := Now();
      LeaveScope();
      ForStmt(z, init, test, post, body, y, a, t, Now());
    }

    method CompileForLoop(test: Option<Expr>, post: Option<Effect>, body: Stmts) returns (err: Failure)
      requires Valid()
      modifies this, regs
      ensures (err.NoFailure? || Blamed(err))
              && (err.Misplaced? ==> !(PlacedIn(body, true, true, true) && PendPlaced(old(pending))))
      ensures err.NoFailure? ==> Valid() && DidLoop(old(Now()), test, post, body, false, Now())
      decreases SizeStmts(body) + SizePending(pending), 2
    {
      hide Blamed, DidLoop, DidBlock, DidTest, DidPost, Retargeted, PendPlaced, PlacedIn, LoopRun;
      ghost var a := Now();
      var start := |code|;
      err := CompileTest(test);
      if !err.NoFailure? {
        return;
      }
      ghost var d := Now();
      TestFrame(a, test, d);
      var exit := if test.Some? then Some(|code| - 1) else None;
      loopStack := loopStack + [Entry(false, |pending|, None, [], [])];
      InLoopPlaced(a, body, Now());
      err := CompileBlock(body);
      if !err.NoFailure? {
        return;
      }
      ghost var e := Now();
      InnerFrame(d, Entry(false, |d.pending|, None, [], []), body, e);
      var ctx := loopStack[|loopStack| - 1];
      loopStack := loopStack[..|loopStack| - 1];
      ghost var f := Now();
      var postIp := |code|;
      err := CompilePost(post);
      if !err.NoFailure? {
        return;
      }
      ghost var p := Now();
      PostFrame(f, post, p);
      err := PatchAll(ctx.continues, postIp);
      if !err.NoFailure? {
        return;
      }
      ghost var q := Now();
      err := CloseLoop(start, exit, ctx.breaks);
      if err.NoFailure? {
        LoopDone(a, test, post, body, false, d, e, f, p, q, Now());
      }
    }

    // The jump back, and the jumps out patched.
    method CloseLoop(start: nat, exit: Option<nat>, breaks: seq<nat>) returns (err: Failure)
      requires start <= |code| && (exit.Some? ==> exit.value < |code|) && forall p :: p in breaks ==> p < |code|
      modifies `code
      ensures (err.NoFailure? || Blamed(err)) && !err.Misplaced?
      ensures err.NoFailure? ==> Now() == LoopRun(old(Now()), start, exit, breaks)
    {
      hide Retargeted;
      if start > WIDE {
        return TooFar;
      }
      var _ := Emit(Jump(At(start)));
      var after := |code|;
      if exit.Some? {
        err := PatchJump(exit.value, after);
        if !err.NoFailure? {
          return;
        }
      }
      err := PatchAll(breaks, after);
    }

    // The loop test, and the jump that leaves the loop.
    method CompileTest(test: Option<Expr>) returns (err: Failure)
      modifies `code, `pool, regs
      ensures (err.NoFailure? || Blamed(err)) && !err.Misplaced?
      ensures err.NoFailure? ==> DidTest(old(Now()), test, Now())
    {
      hide Blamed, After, GenExpr, FreeTemp;
      ghost var a := Now();
      err := NoFailure;
      if test.None? {
        AfterNothing(a);
        return;
      }
      var exit;
      ghost var r, b;
      err, exit, r, b := CompileCond(test.value);
      if err.NoFailure? {
        ghost var g := GenExpr(test.value, None, |a.code|, a.cs);
        AfterFacts(a, g.code, g.cs, b);
        AfterNext(a, g.code, g.cs, b, b, JumpIfFalse(r, At(0)), b.(code := b.code + [JumpIfFalse(r, At(0))]), Now());
      }
    }

    method CompilePost(post: Option<Effect>) returns (err: Failure)
      modifies `code, `pool, `locals, regs
      ensures (err.NoFailure? || Blamed(err)) && !err.Misplaced?
      ensures err.NoFailure? ==> DidPost(old(Now()), post, Now())
    {
      hide Blamed, After, GenEffectValue, FreeTemp;
      ghost var a := Now();
      err := NoFailure;
      if post.None? {
        AfterNothing(a);
        return;
      }
      var r;
      err, r := CompileEffectValue(post.value);
      if !err.NoFailure? {
        return;
      }
      ghost var b := Now();
      Release(r);
      ghost var g := GenEffectValue(post.value, |a.code|, a.cs);
      AfterFacts(a, g.code, g.cs, b);
      AfterState(a, g.code, g.cs, b, Now().cs, Now());
    }

    // ---------- try ----------

    method CompileTry(body: Stmts, handler: Option<Handler>, fin: Option<Stmts>) returns (err: Failure)
      requires Valid()
      modifies this, regs
      ensures (err.NoFailure? || Blamed(err)) && (err.Misplaced? ==> !StmtPlaced(old(Now()), Try(body, handler, fin)))
      ensures err.NoFailure? ==> Valid() && DidStmt(old(Now()), Try(body, handler, fin), Now())
      decreases SizeStmt(Try(body, handler, fin)) + SizePending(pending), 1
    {
      hide Blamed, DidStmt, DidHandling, DidFin, Retargeted, StmtPlaced, BlockPlaced, CatchPlaced, Started, WithFin;
      ghost var a := Now();
      TryPlaced(a, body, handler, fin, a.(pending := WithFin(a.pending, fin)));
      var jumpEnd;
      ghost var c;
      err, jumpEnd, c := CompileProtected(body, fin);
      if !err.NoFailure? {
        return;
      }
      ghost var d := Now();
      StartedFrame(a, body, fin, c, d);
      HandlingPlaced(a, body, handler, fin, d);
      err := CompileHandling(handler, fin, a.pending);
      if !err.NoFailure? {
        return;
      }
      ghost var e := Now();
      HandlingFrame(d.(pending := a.pending), handler, fin, a.pending, e);
      err := PatchJump(jumpEnd, |code|);
      if !err.NoFailure? {
        return;
      }
      ghost var f := Now();
      FinallyPlaced(a, body, handler, fin, f);
      err := CompileFin(fin);
      if err.NoFailure? {
        TryDone(a, body, handler, fin, c, d, e, f, Now());
      }
    }

    // The protected block, with its `finally` block pending; the jump past the code for
    // exceptions is patched later.
    method CompileProtected(body: Stmts, fin: Option<Stmts>) returns (err: Failure, jumpEnd: nat, ghost c: Snap)
      requires Valid()
      modifies this, regs
      ensures err.NoFailure? || Blamed(err)
      ensures err.Misplaced? ==> !BlockPlaced(old(Now()).(pending := WithFin(old(pending), fin)), body)
      ensures err.NoFailure? ==> Valid() && Started(old(Now()), body, fin, c, Now()) && jumpEnd == |c.code| + 1
      decreases SizeStmts(body) + SizePending(WithFin(pending, fin)), 2
    {
      hide Blamed, DidBlock, Retargeted, PlacedIn, PendPlaced;
      jumpEnd, c := 0, Now();
      ghost var a := Now();
      if fin.Some? {
        pending := pending + [fin.value];
      }
      assert pending == WithFin(a.pending, fin);
      var tryAt := Emit(TryPush(At(0)));
      ghost var b := Now();
      err := CompileBlock(body);
      if !err.NoFailure? {
        return;
      }
      c := Now();
      BlockFrame(b, body, c);
      var _ := Emit(TryPop);
      jumpEnd := Emit(Jump(At(0)));
      err := PatchJump(tryAt, |code|);
    }

    // The code for exceptions; with it the `finally` block is no longer pending.
    method CompileHandling(handler: Option<Handler>, fin: Option<Stmts>, ghost outer: seq<Stmts>) returns (err: Failure)
      requires Valid() && pending == WithFin(outer, fin)
      modifies this, regs
      ensures (err.NoFailure? || Blamed(err)) && (err.Misplaced? ==> !CatchPlaced(old(Now()), handler, fin, outer))
      ensures err.NoFailure? ==> Valid() && DidHandling(old(Now()).(pending := outer), handler, fin, outer, Now())
      decreases (match handler case Some(h) => SizeStmts(h.body) case None => 0) + SizePending(pending), 4
    {
      hide Blamed, DidHandling, BlockPlaced, CatchPlaced;
      ghost var d := Now();
      SizePendingFin(outer, fin);
      if handler.Some? {
        CatchSplit(d, handler, fin, outer);
        err := CompileCatch(handler.value, fin, outer);
        if !err.NoFailure? {
          return;
        }
        CatchPending(d, handler.value, fin, outer, Now());
      }
      if fin.Some? {
        pending := pending[..|pending| - 1];
      }
      assert pending == outer;
      if handler.None? {
        CatchSplit(d, handler, fin, outer);
        err := CompileRethrow(fin);
        return;
      }
      err := NoFailure;
    }

    // The catch block, in a scope with its variable; the `finally` block is still pending.
    method CompileCatch(h: Handler, ghost fin: Option<Stmts>, ghost outer: seq<Stmts>) returns (err: Failure)
      requires Valid() && pending == WithFin(outer, fin)
      modifies this, regs
      ensures (err.NoFailure? || Blamed(err)) && (err.Misplaced? ==> !BlockPlaced(old(Now()), h.body))
      ensures err.NoFailure? ==>
                Valid() && pending == old(pending) && DidHandling(old(Now()), Some(h), fin, outer, Now())
      decreases SizeStmts(h.body) + SizePending(pending), 2
    {
      hide Blamed, DidBlock, DidHandling, PushScope, PopScope, PendPlaced, PlacedIn, DeclareLocal;
      ghost var a := Now();
      EnterScope();
      ghost var b := Now();
      var e := 0;
      if h.name != "" {
        err, e := Declare(h.name);
        if !err.NoFailure? {
          return;
        }
        var _ := Emit(LoadExc(e));
      }
      ghost var c := Now();
      err := CompileBlock(h.body);
      if !err.NoFailure? {
        return;
      }
      ghost var d := Now();
      BlockFrame(c, h.body, d);
      LeaveScope();
      CatchDone(a, h, fin, outer, b, e, c, d, Now());
    }

    // Without a catch block: a copy of the `finally` block, and the exception again.
    method CompileRethrow(fin: Option<Stmts>) returns (err: Failure)
      requires Valid()
      modifies this, regs
      ensures (err.NoFailure? || Blamed(err)) && (err.Misplaced? ==> fin.Some? && !BlockPlaced(old(Now()), fin.value))
      ensures err.NoFailure? ==> Valid() && DidHandling(old(Now()), None, fin, old(pending), Now())
      decreases SizeFin(fin) + SizePending(pending), 3
    {
      hide Blamed, DidFin, DidHandling, PendPlaced, PlacedIn, AllocTemp, FreeTemp;
      ghost var a := Now();
      var exc;
      err, exc := AllocateTemp();
      if !err.NoFailure? {
        return;
      }
      ghost var b := Now();
      var _ := Emit(LoadExc(exc));
      ghost var c := Now();
      err := CompileFin(fin);
      if !err.NoFailure? {
        return;
      }
      ghost var d := Now();
      var _ := Emit(Throw(exc));
      Release(exc);
      RethrowDone(a, fin, exc, b, c, d, Now());
    }

    method CompileFin(fin: Option<Stmts>) returns (err: Failure)
      requires Valid()
      modifies this, regs
      ensures (err.NoFailure? || Blamed(err)) && (err.Misplaced? ==> fin.Some? && !BlockPlaced(old(Now()), fin.value))
      ensures err.NoFailure? ==> Valid() && DidFin(old(Now()), fin, Now())
      decreases SizeFin(fin) + SizePending(pending), 2
    {
      hide Blamed, After, GenBlock;
      ghost var a := Now();
      if fin.None? {
        AfterNothing(a);
        return NoFailure;
      }
      err := CompileBlock(fin.value);
    }

    // ---------- switch ----------

    method CompileSwitch(subject: Expr, cases: Cases) returns (err: Failure)
      requires Valid()
      modifies this, regs
      ensures (err.NoFailure? || Blamed(err)) && (err.Misplaced? ==> !StmtPlaced(old(Now()), Switch(subject, cases)))
      ensures err.NoFailure? ==> Valid() && DidStmt(old(Now()), Switch(subject, cases), Now())
      decreases SizeStmt(Switch(subject, cases)) + SizePending(pending), 1
    {
      hide Blamed, DidStmt, DidExpr, DidChecks, ChecksDone, DidBodies, FreeTemp, StmtPlaced, CasesPlaced, SwitchRun,
           Loops;
      ghost var a := Now();
      var subj, jumps, noMatch;
      ghost var b;
      err, subj, jumps, noMatch, b := CompileComparisons(subject, cases);
      if !err.NoFailure? {
        return;
      }
      ghost var d := Now();
      loopStack := loopStack + [Entry(true, |pending|, None, [], [])];
      SwitchPlaced(a, subject, cases, d);
      var ends, hasDefault;
      ghost var nm, hd, bodies;
      err, ends, hasDefault, nm, hd, bodies := CompileBodies(cases, jumps, noMatch, subj, b, d);
      if !err.NoFailure? {
        return;
      }
      ghost var e := Now();
      BodiesFrame(b, cases, subj, jumps, noMatch, d, ends, hasDefault, nm, hd, bodies, e);
      var ctx := loopStack[|loopStack| - 1];
      loopStack := loopStack[..|loopStack| - 1];
      ghost var f := Now();
      err := CloseSwitch(if hasDefault then None else Some(noMatch), ends, ctx.breaks);
      if !err.NoFailure? {
        return;
      }
      ghost var g := Now();
      Release(subj);
      SwitchDone(a, subject, cases, subj, b, jumps, noMatch, d, ends, hasDefault, nm, hd, bodies, e, f, g, Now());
    }

    // The subject, the comparisons, and the jump taken when none holds.
    method CompileComparisons(subject: Expr, cases: Cases)
      returns (err: Failure, subj: nat, jumps: seq<seq<nat>>, noMatch: nat, ghost b: Snap)
      modifies `code, `pool, regs
      ensures (err.NoFailure? || Blamed(err)) && !err.Misplaced?
      ensures err.NoFailure? ==>
                && DidExpr(old(Now()), subject, None, subj, b) && ChecksDone(b, cases, subj, jumps, noMatch, Now())
                && Framed(old(Now()), Now()) && noMatch < |code|
    {
      hide Blamed, DidExpr, DidChecks, ChecksDone;
      ghost var a := Now();
      jumps, noMatch := [], 0;
      err, subj := CompileExpr(subject, None);
      b := Now();
      if !err.NoFailure? {
        return;
      }
      ExprFrame(a, subject, None, subj, b);
      err, jumps := CompileChecks(cases, subj);
      if !err.NoFailure? {
        return;
      }
      ghost var c := Now();
      ChecksFrame(b, cases, subj, jumps, c);
      noMatch := Emit(Jump(At(0)));
      ChecksHead(b, cases, subj, jumps, c, Now());
    }

    method CloseSwitch(noMatch: Option<nat>, ends: seq<nat>, breaks: seq<nat>) returns (err: Failure)
      requires (noMatch.Some? ==> noMatch.value < |code|) && (forall p :: p in ends || p in breaks ==> p < |code|)
      modifies `code
      ensures (err.NoFailure? || Blamed(err)) && !err.Misplaced?
      ensures err.NoFailure? ==> Now() == SwitchRun(old(Now()), noMatch, ends, breaks)
    {
      hide Blamed, Retargeted;
      var after := |code|;
      if noMatch.Some? {
        err := PatchJump(noMatch.value, after);
        if !err.NoFailure? {
          return;
        }
      }
      err := PatchAll(ends, after);
      if !err.NoFailure? {
        return;
      }
      err := PatchAll(breaks, after);
    }

    // The comparisons with one case's values; the positions of its jumps.
    method CompileValues(values: Exprs, subj: nat, ghost level: nat, ghost index: nat)
      returns (err: Failure, list: seq<nat>)
      modifies `code, `pool, regs
      ensures (err.NoFailure? || Blamed(err)) && !err.Misplaced?
      ensures err.NoFailure? ==> DidValues(old(Now()), values, subj, level, index, list, Now())
    {
      hide Blamed, After, DidExpr, GenValues, GenExpr, AllocTemp, FreeTemp, Places, CasedBelow;
      ghost var a := Now();
      ghost var g := GenValues(values, subj, ToCase(level, index), |a.code|, a.cs);
      ghost var done: Code := [];
      list := [];
      AfterNothing(a);
      NoPlaces(|a.code|, level, index);
      assert [] + g.code == g.code;
      var rest := values;
      while rest.ECons?
        invariant After(a, done, Now().cs, Now()) && list == Places(done, |a.code|, CaseOf(level, index))
                  && CasedBelow(done, level, index, index + 1)
        invariant var gr := GenValues(rest, subj, ToCase(level, index), |code|, Now().cs);
                  done + gr.code == g.code && gr.cs == g.cs
        decreases rest
      {
        ghost var b := Now();
        var r, eq;
        err, r := CompileExpr(rest.head, None);
        if !err.NoFailure? {
          return;
        }
        ghost var c := Now();
        err, eq := AllocateTemp();
        if !err.NoFailure? {
          return;
        }
        ghost var d := Now();
        var _ := Emit(Bin2(Eq, eq, subj, r));
        Release(r);
        var p := Emit(JumpIfTrue(eq, At(0)));
        Release(eq);
        list := list + [p];
        done := ValueStep(a, done, b, rest, subj, level, index, r, c, eq, d, Now());
        rest := rest.tail;
      }
      NoValues(subj, level, index, |code|, Now().cs);
      assert done + [] == done;
      err := NoFailure;
    }

    method CompileChecks(cases: Cases, subj: nat) returns (err: Failure, jumps: seq<seq<nat>>)
      modifies `code, `pool, regs
      ensures (err.NoFailure? || Blamed(err)) && !err.Misplaced?
      ensures err.NoFailure? ==> DidChecks(old(Now()), cases, subj, jumps, Now())
    {
      hide Blamed, After, GenChecks, DidValues, Places, CasedBelow;
      ghost var a := Now();
      ghost var level := |a.stack|;
      ghost var g := GenChecks(cases, subj, level, 0, |a.code|, a.cs);
      ghost var done: Code := [];
      jumps := [];
      AfterNothing(a);
      NoPlaces(|a.code|, level, 0);
      assert [] + g.code == g.code;
      var rest := cases;
      while rest.Case?
        invariant After(a, done, Now().cs, Now()) && CasedBelow(done, level, 0, |jumps|)
        invariant |jumps| + Count(rest) == Count(cases)
        invariant forall i :: 0 <= i < |jumps| ==> jumps[i] == Places(done, |a.code|, CaseOf(level, i))
        invariant var gr := GenChecks(rest, subj, level, |jumps|, |code|, Now().cs);
                  done + gr.code == g.code && gr.cs == g.cs
        decreases rest
      {
        ghost var b := Now();
        var list;
        err, list := CompileValues(rest.values, subj, level, |jumps|);
        if !err.NoFailure? {
          return;
        }
        done := CheckStep(a, done, b, rest, subj, level, jumps, list, Now());
        jumps := jumps + [list];
        rest := rest.rest;
      }
      NoChecks(subj, level, |jumps|, |code|, Now().cs);
      assert done + [] == done;
      err := NoFailure;
    }

    // The bodies: each patches the jumps to it, and ends with a jump to be patched later.
    method CompileBodies(cases: Cases, jumps: seq<seq<nat>>, noMatch: nat, ghost subj: nat, ghost b: Snap,
        ghost d: Snap)
      returns (err: Failure, ends: seq<nat>, hasDefault: bool, ghost nm: nat, ghost hd: Snap, ghost bodies: Code)
      requires Valid() && Now() == d.(stack := d.stack + [SwitchEntry(d)])
               && ChecksDone(b, cases, subj, jumps, noMatch, d)
      modifies this, regs
      ensures (err.NoFailure? || Blamed(err)) && (err.Misplaced? ==> !CasesPlaced(d, cases))
      ensures err.NoFailure? ==> Valid() && DidBodies(b, cases, subj, d, ends, hasDefault, nm, hd, bodies, Now())
      decreases SizeCases(cases) + SizePending(pending), 2
    {
      hide Blamed, GenCases, DidBlock, Retargeted, CasesPlaced, BlockPlaced, HeadIs, InBodies, BodiesLeft, DidBodies,
           ChecksDone, InnerLoops, Loops;
      ghost var full := GenCases(cases, |d.code|, d.cs, InnerLoops(d), d.pending);
      ghost var after := |d.code| + |full.code|;
      ghost var starts: seq<nat> := [];
      ghost var sym: Code := [];
      err, ends, hasDefault, nm, hd, bodies := NoFailure, [], false, 0, d, [];
      BodiesStart(b, cases, subj, jumps, noMatch, d);
      var rest := cases;
      var i := 0;
      while rest.Case?
        invariant Valid() && pending == d.pending && i + Count(rest) == |jumps| && |starts| == i
        invariant HeadIs(b, cases, subj, starts, nm, hd) && |hd.code| == |d.code|
        invariant InBodies(hd, bodies, Now())
        invariant CasesPlaced(d, cases) ==> CasesPlaced(d, rest)
        invariant SizeCases(rest) <= SizeCases(cases)
        invariant BodiesLeft(d, cases, rest, full, starts, sym, bodies, ends, hasDefault, nm, |code|, Now().cs)
        decreases rest
      {
        ghost var e := Now();
        InBodiesFrame(hd, bodies, e);
        HeadFacts(b, cases, subj, jumps, noMatch, d, starts, nm, hd);
        JumpsBelow(b, cases, subj, jumps, noMatch, d, i);
        var bodyIp := |code|;
        // A default has no jumps of its own.
        if rest.values.ENil? {
          err := PatchJump(noMatch, bodyIp);
          if !err.NoFailure? {
            return;
          }
        }
        err := PatchAll(jumps[i], bodyIp);
        if !err.NoFailure? {
          return;
        }
        ghost var f := Now();
        ghost var nm1 := if rest.values.ENil? then bodyIp else nm;
        hd := HeadStep(b, cases, subj, jumps, noMatch, d, starts, nm, hd, bodies, rest.values.ENil?, e, f);
        InSwitchPlaced(d, rest, f);
        err := CompileBlock(rest.body);
        if !err.NoFailure? {
          return;
        }
        ghost var g := Now();
        BlockFrame(f, rest.body, g);
        var p := Emit(Jump(At(0)));
        sym, bodies := BodyStep(d, cases, rest, full, starts, sym, bodies, ends, hasDefault, nm, nm1, hd, f, g, Now());
        hasDefault := hasDefault || rest.values.ENil?;
        nm := nm1;
        ends := ends + [p];
        starts := starts + [bodyIp];
        rest := rest.rest;
        i := i + 1;
      }
      BodiesEnd(b, cases, subj, d, full, starts, sym, bodies, ends, hasDefault, nm, hd, Now());
      err := NoFailure;
    }

    // ---------- the whole function ----------

    // The prototype of a function: its body, and a final `RETURN_NULL`.
    method Compile(params: seq<string>, body: Stmts) returns (err: Failure, proto: Proto)
      requires Now() == Snap([], [], InitState(params), [])
      modifies this, regs
      ensures (err.NoFailure? || Blamed(err)) && (err.Misplaced? ==> !PlacedIn(body, false, false, true))
      ensures err.NoFailure? ==> proto == CompileFunction(params, body)
    {
      hide Blamed, After, GenBlock, PlacedIn;
      ghost var a := Now();
      proto := Proto([], []);
      err := CompileBlock(body);
      if !err.NoFailure? {
        return;
      }
      ghost var b := Now();
      ghost var g := GenBlock(body, 0, InitState(params), [], []);
      assert Loops(a.stack) == [];
      AfterFacts(a, g.code, g.cs, b);
      WholeCode(params, body, b);
      var _ := Emit(RetNull);
      proto := Proto(code, pool);
    }
  }

  lemma RetargetMore(c: Code, list: seq<nat>, p: nat, t: nat)
    requires p < |c|
    ensures Retargeted(Retargeted(c, 0, list, t), 0, [p], t) == Retargeted(c, 0, list + [p], t)
  {
    var d := Retargeted(c, 0, list, t);
    forall k | 0 <= k < |c|
      ensures Retargeted(d, 0, [p], t)[k] == Retargeted(c, 0, list + [p], t)[k]
    {
      assert 0 + k in list + [p] <==> k in list || k == p;
    }
  }
}
