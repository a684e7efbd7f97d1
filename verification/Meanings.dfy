/** What small functions do on both engines, said in full: which values count as false, which
    are equal, and what is written. */
module Meanings {
  import opened Options
  import opened Values
  import opened Syntax
  import opened Interpreter
  import opened Bytecode
  import opened Discipline
  import opened Theorems

  const X := ["x"]
  const XY := ["x", "y"]

  function One(s: Stmt): Stmts {
    Cons(s, Nil)
  }

  function Give(n: int): Stmt {
    Return(Some(Lit(Int(n))))
  }

  // The compiled function, called with `args`, ends with this value and output and no other.
  ghost predicate Answers(ops: Ops, params: seq<string>, body: Stmts, args: seq<Value>, v: Value, out: string)
    requires |args| == |params|
  {
    forall r, o :: Halts(ops, CompileFunction(params, body), args, r, o) <==> r == v && o == out
  }

  lemma BothAnswer(ops: Ops, params: seq<string>, body: Stmts, args: seq<Value>, fuel: nat, v: Value, out: string)
    requires |args| == |params| && WellFormed(params, body)
    requires Call(ops, fuel, params, body, args) == Returned(v, out)
    ensures Answers(ops, params, body, args, v, out)
  {
    hide CompileFunction, Call, WellFormed, Halts;
    assert Returns(ops, params, body, args, v, out);
    forall r, o
      ensures Halts(ops, CompileFunction(params, body), args, r, o) <==> r == v && o == out
    {
      CompilerCorrect(ops, params, body, args, r, o);
      if Halts(ops, CompileFunction(params, body), args, r, o) {
        ReturnsOnce(ops, params, body, args, v, out, r, o);
      }
    }
  }

  lemma BindX(ops: Ops, v: Value)
    ensures Bind(X, [v]) == map["x" := v]
  {
    assert X[..0] == [] && [v][..0] == [];
    assert Bind([], []) == map[];
  }

  lemma BindXY(ops: Ops, v: Value, w: Value)
    ensures Bind(XY, [v, w]) == map["x" := v, "y" := w]
  {
    BindX(ops, v);
    assert XY[..1] == X && [v, w][..1] == [v];
  }

  lemma OnlyInts(lits: set<Value>)
    requires forall a :: a in lits ==> a.Int? || a.Bool?
    ensures NoClash(lits)
  {
  }

  // ---------- what counts as false ----------

  predicate Falsy(v: Value) {
    v in {Null, Bool(false), Int(0), Float(0.0), Str(""), Str("0")}
  }

  // Functions of `$x` that return 1 if it is tested true and 0 if not.
  datatype Test = InIf | InElse | InWhile | InFor | InTernary | InNot | InAnd | InOr

  function Tested(t: Test): Stmts {
    var x := Var("x");
    match t
    case InIf => Cons(If(x, One(Give(1)), None), One(Give(0)))
    case InElse => One(If(x, One(Give(1)), Some(One(Give(0)))))
    case InWhile => Cons(While(x, One(Give(1))), One(Give(0)))
    case InFor => Cons(For(None, Some(x), None, One(Give(1))), One(Give(0)))
    case InTernary => One(Return(Some(Ternary(x, Lit(Int(1)), Lit(Int(0))))))
    case InNot => Cons(If(Un(Not, x), One(Give(0)), None), One(Give(1)))
    case InAnd => Cons(If(Logical(true, Lit(Bool(true)), x), One(Give(1)), None), One(Give(0)))
    case InOr => Cons(If(Logical(false, x, Lit(Bool(false))), One(Give(1)), None), One(Give(0)))
  }

  lemma GiveWell(n: int)
    ensures forall vis :: StmtsOk(One(Give(n)), vis, [])
    ensures PlacedIn(One(Give(n)), false, false, true)
    ensures PlacedIn(One(Give(n)), true, true, true) && StmtsLits(One(Give(n))) == {Int(n)}
  {
  }

  lemma ThenGive(s: Stmt, n: int, vis: set<string>)
    ensures StmtOk(s, vis, []) ==> StmtsOk(Cons(s, One(Give(n))), vis, [])
    ensures Placed(s, false, false, true) ==> PlacedIn(Cons(s, One(Give(n))), false, false, true)
  {
    GiveWell(n);
  }

  lemma TestedHead(t: Test, vis: set<string>)
    ensures StmtOk(Tested(t).head, vis, []) && Placed(Tested(t).head, false, false, true)
  {
    hide StmtsOk, PlacedIn;
    GiveWell(0);
    GiveWell(1);
    PlacedLoop(1);
  }

  lemma TestedOk(t: Test, vis: set<string>)
    ensures StmtsOk(Tested(t), vis, []) && PlacedIn(Tested(t), false, false, true)
  {
    hide StmtsOk, PlacedIn, StmtOk, Placed;
    var s := Tested(t).head;
    TestedHead(t, vis);
    Alone(s, vis);
    ThenGive(s, 0, vis);
    ThenGive(s, 1, vis);
  }

  lemma Alone(s: Stmt, vis: set<string>)
    ensures StmtOk(s, vis, []) ==> StmtsOk(One(s), vis, [])
    ensures Placed(s, false, false, true) ==> PlacedIn(One(s), false, false, true)
  {
  }

  lemma PlacedLoop(n: int)
    ensures PlacedIn(One(Give(n)), true, true, true)
  {
  }

  lemma TestedLits(t: Test)
    ensures NoClash(StmtsLits(Tested(t)))
  {
    GiveWell(0);
    GiveWell(1);
    OnlyInts(StmtsLits(Tested(t)));
  }

  lemma TestedWell(t: Test)
    ensures WellFormed(X, Tested(t))
  {
    hide Tested, StmtsOk, PlacedIn, StmtsLits, NoClash;
    TestedOk(t, set i | 0 <= i < |X| :: X[i]);
    TestedLits(t);
  }

  // The interpreter on a block that returns at once.
  lemma GiveBlock(ops: Ops, fuel: nat, n: int, st: St)
    ensures ExecBlock(ops, fuel, One(Give(n)), st) == Outcome.Ret(Int(n), st)
  {
    var inner := st.(env := st.env + [map[]]);
    assert inner.env[..|st.env|] == st.env;
    assert ExecStmts(ops, fuel, One(Give(n)), inner) == Outcome.Ret(Int(n), inner);
  }

  lemma Inside(ops: Ops, v: Value)
    ensures var env := [map["x" := v]] + [map[]]; Lookup(ops, env, "x") == v && env[..1] == [map["x" := v]]
  {
    var env := [map["x" := v]] + [map[]];
    assert env[..1] == [map["x" := v]];
  }

  lemma ForCall(ops: Ops, v: Value)
    ensures Call(ops, 1, X, Tested(InFor), [v]) == Returned(Int(if Falsy(v) then 0 else 1), "")
  {
    hide ExecBlock;
    BindX(ops, v);
    var st := St([map["x" := v]], "");
    var scoped := st.(env := st.env + [map[]]);
    Inside(ops, v);
    GiveBlock(ops, 0, 1, scoped);
    var o := ExecLoop(ops, 1, Some(Var("x")), None, One(Give(1)), scoped);
    assert o == if Falsy(v) then Normal(scoped) else Outcome.Ret(Int(1), scoped);
    assert Cut(scoped, 1) == st;
    var f := For(None, Some(Var("x")), None, One(Give(1)));
    assert Exec(ops, 1, f, st) == Trim(o, 1);
    assert ExecStmts(ops, 1, One(Give(0)), st) == Outcome.Ret(Int(0), st);
  }

  lemma TestedCall(ops: Ops, t: Test, v: Value)
    ensures Call(ops, 1, X, Tested(t), [v]) == Returned(Int(if Falsy(v) then 0 else 1), "")
  {
    hide ExecBlock;
    BindX(ops, v);
    var st := St([map["x" := v]], "");
    assert Lookup(ops, st.env, "x") == v;
    Inside(ops, v);
    GiveBlock(ops, 1, 0, st);
    GiveBlock(ops, 1, 1, st);
    GiveBlock(ops, 0, 1, st);
    var scoped := St(st.env + [map[]], "");
    GiveBlock(ops, 0, 1, scoped);
    match t {
      case InIf =>
      case InElse =>
      case InWhile =>
      case InFor => ForCall(ops, v);
      case InTernary =>
        var e := Ternary(Var("x"), Lit(Int(1)), Lit(Int(0)));
        assert EvalExpr(ops, st.env, e) == Int(if Falsy(v) then 0 else 1);
      case InNot =>
        assert Truthy(EvalExpr(ops, st.env, Un(Not, Var("x")))) == Falsy(v);
      case InAnd =>
        assert Truthy(EvalExpr(ops, st.env, Logical(true, Lit(Bool(true)), Var("x")))) == !Falsy(v);
      case InOr =>
        assert Truthy(EvalExpr(ops, st.env, Logical(false, Var("x"), Lit(Bool(false))))) == !Falsy(v);
    }
  }

  // In every kind of test the six false values, and no others, are taken for false.
  lemma TruthExact(ops: Ops, t: Test, v: Value)
    ensures Answers(ops, X, Tested(t), [v], Int(if Falsy(v) then 0 else 1), "")
  {
    hide Tested, WellFormed, Call;
    TestedWell(t);
    TestedCall(ops, t, v);
    BothAnswer(ops, X, Tested(t), [v], 1, Int(if Falsy(v) then 0 else 1), "");
  }

  // ---------- what is equal ----------

  predicate PowerOfTwo(u: nat) {
    u == 1 || (u > 1 && u % 2 == 0 && PowerOfTwo(u / 2))
  }

  // The spacing of the numbers of 53 significant bits around `m`.
  ghost predicate Spacing(m: nat, u: nat) {
    PowerOfTwo(u) && m < 0x20_0000_0000_0000 * u && (u == 1 || 0x10_0000_0000_0000 * u <= m)
  }

  // `k * u` is the number of 53 significant bits nearest to `m`; of two, the one with `k` even.
  predicate Near(m: int, k: int, u: int) {
    && 2 * (k * u - m) <= u && 2 * (m - k * u) <= u
    && (2 * (k * u - m) == u || 2 * (m - k * u) == u ==> k % 2 == 0)
  }

  ghost predicate RoundsTo(m: nat, r: int) {
    exists u: nat, k: nat :: Spacing(m, u) && Near(m, k, u) && r == k * u
  }

  lemma {:induction false} UlpSpacing(m: nat)
    ensures Spacing(m, Ulp(m))
    decreases m
  {
    if m >= 0x20_0000_0000_0000 {
      UlpSpacing(m / 2);
      assert 2 * Ulp(m / 2) / 2 == Ulp(m / 2);
    }
  }

  // Two powers of two of which neither is at least twice the other are one.
  lemma {:induction false} SamePower(u: nat, w: nat)
    requires PowerOfTwo(u) && PowerOfTwo(w) && u < 2 * w && w < 2 * u
    ensures u == w
    decreases u
  {
    if u > 1 && w > 1 {
      SamePower(u / 2, w / 2);
    }
  }

  lemma OneSpacing(m: nat, u: nat, w: nat)
    requires Spacing(m, u) && Spacing(m, w)
    ensures u == w
  {
    SamePower(u, w);
  }

  lemma AtLeastOnce(d: int, u: int)
    requires u > 0
    ensures d >= 1 ==> d * u >= u
  {
    if d >= 1 {
      assert d * u == (d - 1) * u + u;
      assert (d - 1) * u >= 0;
    }
  }

  // At most one multiple is near.
  lemma OnlyOne(m: int, k: int, l: int, u: int)
    requires u > 0 && Near(m, k, u) && Near(m, l, u)
    ensures k == l
  {
    assert (k - l) * u == k * u - l * u && (l - k) * u == l * u - k * u;
    AtLeastOnce(k - l, u);
    AtLeastOnce(l - k, u);
    AtLeastOnce(k - l - 1, u);
    AtLeastOnce(l - k - 1, u);
    assert (k - l - 1) * u == k * u - l * u - u && (l - k - 1) * u == l * u - k * u - u;
  }

  lemma NearestNear(m: nat, u: nat) returns (k: nat)
    requires u == Ulp(m)
    ensures Near(m, k, u) && Nearest(m) == k * u
  {
    hide Ulp;
    Remainder(m, u);
    var q, r := m / u, m % u;
    assert m == q * u + r;
    k := if 2 * r < u || (2 * r == u && q % 2 == 0) then q else q + 1;
    assert (q + 1) * u == q * u + u;
  }

  lemma NearestRounds(m: nat, r: int)
    ensures RoundsTo(m, r) <==> r == Nearest(m)
  {
    hide Ulp, Spacing, Near, Nearest;
    var u := Ulp(m);
    UlpSpacing(m);
    var k := NearestNear(m, u);
    if RoundsTo(m, r) {
      var w: nat, l: nat :| Spacing(m, w) && Near(m, l, w) && r == l * w;
      OneSpacing(m, u, w);
      OnlyOne(m, k, l, u);
    }
  }

  // An Int equals a Float that is its nearest double; otherwise equal values are the same.
  ghost predicate Same(v: Value, w: Value) {
    match (v, w)
    case (Int(n), Float(x)) => IsRounded(n, x)
    case (Float(x), Int(n)) => IsRounded(n, x)
    case _ => v == w
  }

  ghost predicate IsRounded(n: int, x: real) {
    var m: nat := if n < 0 then 0 - n else n;
    exists r: int :: RoundsTo(m, r) && x == (if n < 0 then 0 - r else r) as real
  }

  lemma SameExact(v: Value, w: Value)
    ensures Same(v, w) <==> LooseEq(v, w)
  {
    hide RoundsTo, Nearest;
    if v.Int? && w.Float? {
      RoundedExact(v.n, w.x);
    } else if v.Float? && w.Int? {
      RoundedExact(w.n, v.x);
    }
  }

  lemma RoundedExact(n: int, x: real)
    ensures IsRounded(n, x) <==> x == AsDouble(n) as real
  {
    hide RoundsTo, Nearest;
    var m: nat := if n < 0 then 0 - n else n;
    NearestRounds(m, Nearest(m));
    if IsRounded(n, x) {
      var r: int :| RoundsTo(m, r) && x == (if n < 0 then 0 - r else r) as real;
      NearestRounds(m, r);
    }
  }

  // Functions of `$x` and `$y` that compare them.
  datatype Comparison = ByEq | ByNeq | BySwitch

  function Compared(c: Comparison): Stmts {
    match c
    case ByEq => Cons(If(Bin(Eq, Var("x"), Var("y")), One(Give(1)), None), One(Give(0)))
    case ByNeq => Cons(If(Bin(Neq, Var("x"), Var("y")), One(Give(0)), None), One(Give(1)))
    case BySwitch =>
      One(Switch(Var("x"), Case(ENil, One(Give(0)), Case(ECons(Var("y"), ENil), One(Give(1)), NoCase))))
  }

  lemma CaseWell(values: Exprs, n: int, rest: Cases, vis: set<string>)
    requires ValuesOk(values) && ExprsLits(values) == {} && CasesOk(rest, vis, []) && PlacedCases(rest, false, true)
    ensures var cs := Case(values, One(Give(n)), rest);
            && CasesOk(cs, vis, []) && PlacedCases(cs, false, true) && CasesLits(cs) == {Int(n)} + CasesLits(rest)
  {
    hide StmtsOk, PlacedIn, StmtsLits;
    GiveWell(n);
    GiveLits(n);
    PlacedCase(n);
  }

  lemma PlacedCase(n: int)
    ensures PlacedIn(One(Give(n)), true, false, true)
  {
  }

  lemma CasesWell(vis: set<string>)
    ensures StmtOk(Compared(BySwitch).head, vis, []) && Placed(Compared(BySwitch).head, false, false, true)
    ensures StmtsLits(Compared(BySwitch)) == {Int(0), Int(1)}
  {
    hide CasesOk, PlacedCases, CasesLits;
    var y := ECons(Var("y"), ENil);
    NoCases(vis);
    CaseWell(y, 1, NoCase, vis);
    CaseWell(ENil, 0, Case(y, One(Give(1)), NoCase), vis);
  }

  lemma NoCases(vis: set<string>)
    ensures CasesOk(NoCase, vis, []) && PlacedCases(NoCase, false, true) && CasesLits(NoCase) == {}
  {
  }

  lemma ComparedWell(c: Comparison)
    ensures WellFormed(XY, Compared(c))
  {
    hide StmtsOk, PlacedIn, NoClash;
    var vis := set i | 0 <= i < |XY| :: XY[i];
    CasesWell(vis);
    GiveWell(0);
    GiveWell(1);
    var s := Compared(c).head;
    Alone(s, vis);
    ThenGive(s, 0, vis);
    ThenGive(s, 1, vis);
    OnlyInts(StmtsLits(Compared(c)));
    assert StmtOk(s, vis, []);
  }

  lemma ComparedCall(ops: Ops, c: Comparison, v: Value, w: Value)
    ensures Call(ops, 0, XY, Compared(c), [v, w]) == Returned(Int(if Same(v, w) then 1 else 0), "")
  {
    hide ExecBlock, Same, LooseEq;
    BindXY(ops, v, w);
    SameExact(v, w);
    var st := St([map["x" := v, "y" := w]], "");
    GiveBlock(ops, 0, 0, st);
    GiveBlock(ops, 0, 1, st);
    assert Lookup(ops, st.env, "x") == v && Lookup(ops, st.env, "y") == w;
    match c {
      case ByEq => assert EvalExpr(ops, st.env, Bin(Eq, Var("x"), Var("y"))) == Bool(Same(v, w));
      case ByNeq => assert EvalExpr(ops, st.env, Bin(Neq, Var("x"), Var("y"))) == Bool(!Same(v, w));
      case BySwitch =>
        SelectWhich(ops, st.env, v, w);
    }
  }

  lemma SelectWhich(ops: Ops, env: Env, v: Value, w: Value)
    requires Lookup(ops, env, "y") == w
    ensures Select(ops, env, v, Compared(BySwitch).head.cases, None) == Some(One(Give(if Same(v, w) then 1 else 0)))
  {
    hide Same, LooseEq, Lookup;
    SameExact(v, w);
    var y := ECons(Var("y"), ENil);
    assert AnyMatch(ops, env, v, y) == Same(v, w);
    var one := Case(y, One(Give(1)), NoCase);
    assert Select(ops, env, v, one, Some(One(Give(0)))) == Some(One(Give(if Same(v, w) then 1 else 0)));
  }

  // `==`, `!=` and the cases of a switch tell the same values as equal.
  lemma EqualExact(ops: Ops, c: Comparison, v: Value, w: Value)
    ensures Answers(ops, XY, Compared(c), [v, w], Int(if Same(v, w) then 1 else 0), "")
  {
    hide Compared, WellFormed, Call, Same;
    ComparedWell(c);
    ComparedCall(ops, c, v, w);
    BothAnswer(ops, XY, Compared(c), [v, w], 0, Int(if Same(v, w) then 1 else 0), "");
  }

  // ---------- what is computed ----------

  // Functions of `$x` and `$y` that return what one operator, or one change of `$x`, makes.
  datatype Computation =
    | ByBin(op: BinOp)
    | ByUn(uop: UnOp)
    | ByAssign(aop: BinOp)
    | ByStep(inc: bool, prefix: bool)
    | ByCoalesce

  function Computed(c: Computation): Stmts {
    var x, y := Var("x"), Var("y");
    match c
    case ByBin(op) => One(Return(Some(Bin(op, x, y))))
    case ByUn(uop) => One(Return(Some(Un(uop, x))))
    case ByAssign(aop) => Cons(Do(Assign("x", Compound(aop), y)), One(Return(Some(x))))
    case ByStep(inc, prefix) => Cons(Do(IncDec("x", inc, prefix)), One(Return(Some(x))))
    case ByCoalesce => One(Return(Some(Coalesce(x, y))))
  }

  // Each operator's own result, of its operands in their order; a step adds or takes away one.
  ghost function OfBoth(ops: Ops, op: BinOp, v: Value, w: Value): Value {
    match op
    case Eq => Bool(Same(v, w))
    case Neq => Bool(!Same(v, w))
    case Lt => Bool(ops.cmp(Lt, v, w))
    case Gt => Bool(ops.cmp(Gt, v, w))
    case Lte => Bool(ops.cmp(Lte, v, w))
    case Gte => Bool(ops.cmp(Gte, v, w))
    case _ => ops.bin(op, v, w)
  }

  ghost function ResultOf(ops: Ops, c: Computation, v: Value, w: Value): Value {
    match c
    case ByBin(op) => OfBoth(ops, op, v, w)
    case ByUn(uop) => (match uop
                       case Neg => ops.neg(v)
                       case Not => Bool(Falsy(v))
                       case BitNot => ops.bitNot(v))
    case ByAssign(aop) => OfBoth(ops, aop, v, w)
    case ByStep(inc, _) => if inc then ops.bin(Add, v, Int(1)) else ops.bin(Sub, v, Int(1))
    case ByCoalesce => if v == Null then w else v
  }

  lemma ReturnWell(e: Expr, vis: set<string>)
    requires ValueOk(e) && ExprLits(e) == {}
    ensures var ss := One(Return(Some(e)));
            StmtsOk(ss, vis, []) && PlacedIn(ss, false, false, true) && StmtsLits(ss) == {}
  {
  }

  lemma ValuesFit(op: BinOp, uop: UnOp)
    ensures var x, y := Var("x"), Var("y");
            && ValueOk(x) && ValueOk(Bin(op, x, y)) && ValueOk(Un(uop, x)) && ValueOk(Coalesce(x, y))
            && ExprLits(x) == ExprLits(Bin(op, x, y)) == ExprLits(Un(uop, x)) == ExprLits(Coalesce(x, y)) == {}
  {
  }

  lemma ComputedWell(c: Computation)
    ensures WellFormed(XY, Computed(c))
  {
    hide StmtsOk, PlacedIn, StmtsLits, NoClash, ValueOk, ExprLits;
    var vis := set i | 0 <= i < |XY| :: XY[i];
    ValuesFit(if c.ByBin? then c.op else Add, if c.ByUn? then c.uop else Neg);
    assert XY[0] == "x";
    match c {
      case ByBin(op) => ReturnWell(Bin(op, Var("x"), Var("y")), vis);
      case ByUn(uop) => ReturnWell(Un(uop, Var("x")), vis);
      case ByCoalesce => ReturnWell(Coalesce(Var("x"), Var("y")), vis);
      case _ =>
        ReturnWell(Var("x"), vis);
        ChangeWell(Computed(c).head.effect, vis);
    }
    OnlyInts(StmtsLits(Computed(c)));
  }

  lemma ChangeWell(f: Effect, vis: set<string>)
    requires "x" in vis && ((f.Assign? && f.x == "x" && f.rhs == Var("y")) || (f.IncDec? && f.x == "x"))
    ensures var ss := Cons(Do(f), One(Return(Some(Var("x")))));
            StmtsOk(ss, vis, []) && PlacedIn(ss, false, false, true) && StmtsLits(ss) == {}
  {
    hide StmtsOk, PlacedIn, StmtsLits;
    ReturnWell(Var("x"), vis);
    assert Declares(Do(f)) <= {"x"};
    assert vis + Declares(Do(f)) == vis;
    ConsWell(Do(f), One(Return(Some(Var("x")))), vis, [], false, false, true);
  }

  lemma ComputedCall(ops: Ops, c: Computation, v: Value, w: Value)
    ensures Call(ops, 0, XY, Computed(c), [v, w]) == Returned(ResultOf(ops, c, v, w), "")
  {
    hide ResultOf, Apply2, Apply1, Lookup, SetVar, ExecStmts;
    BindXY(ops, v, w);
    OperatorIs(ops, c, v, w);
    var st := St([map["x" := v, "y" := w]], "");
    LooksUp(ops, v, w);
    if c.ByAssign? || c.ByStep? {
      var u := ResultOf(ops, c, v, w);
      Changed(ops, Computed(c).head.effect, v, w, u);
      LooksUp(ops, u, w);
      ThenReturns(ops, Computed(c).head.effect, st, St([map["x" := u, "y" := w]], ""));
    } else {
      var e := Computed(c).head.value.value;
      JustReturns(ops, e, st);
      assert EvalExpr(ops, st.env, Var("x")) == v && EvalExpr(ops, st.env, Var("y")) == w;
    }
  }

  lemma JustReturns(ops: Ops, e: Expr, st: St)
    ensures ExecStmts(ops, 0, One(Return(Some(e))), st) == Outcome.Ret(EvalExpr(ops, st.env, e), st)
  {
    hide EvalExpr;
  }

  lemma LooksUp(ops: Ops, v: Value, w: Value)
    ensures var env := [map["x" := v, "y" := w]]; Lookup(ops, env, "x") == v && Lookup(ops, env, "y") == w
  {
  }

  lemma OperatorIs(ops: Ops, c: Computation, v: Value, w: Value)
    ensures c.ByBin? ==> ResultOf(ops, c, v, w) == Apply2(ops, c.op, v, w)
    ensures c.ByUn? ==> ResultOf(ops, c, v, w) == Apply1(ops, c.uop, v)
    ensures c.ByAssign? ==> ResultOf(ops, c, v, w) == Apply2(ops, c.aop, v, w)
    ensures c.ByStep? ==> ResultOf(ops, c, v, w) == Apply2(ops, if c.inc then Add else Sub, v, Int(1))
    ensures c.ByCoalesce? ==> ResultOf(ops, c, v, w) == if v != Null then v else w
  {
    hide LooseEq, Same;
    SameExact(v, w);
  }

  lemma ThenReturns(ops: Ops, f: Effect, st: St, next: St)
    requires ExecEffect(ops, f, st) == next
    ensures var o := ExecStmts(ops, 0, Cons(Do(f), One(Return(Some(Var("x"))))), st);
            o == Outcome.Ret(Lookup(ops, next.env, "x"), next)
  {
    hide ExecEffect, Lookup;
    assert ExecStmts(ops, 0, One(Return(Some(Var("x")))), next) == Outcome.Ret(Lookup(ops, next.env, "x"), next);
  }

  lemma Changed(ops: Ops, f: Effect, v: Value, w: Value, u: Value)
    requires (f.Assign? && f.rhs == Var("y") && f.aop.Compound?) || f.IncDec?
    requires f.x == "x" && u == (if f.Assign? then Apply2(ops, f.aop.op, v, w)
                                 else Apply2(ops, if f.inc then Add else Sub, v, Int(1)))
    ensures ExecEffect(ops, f, St([map["x" := v, "y" := w]], "")) == St([map["x" := u, "y" := w]], "")
  {
    hide Lookup, Apply2;
    LooksUp(ops, v, w);
    var env := [map["x" := v, "y" := w]];
    assert "x" in env[0] && Visible(env, "x");
    assert env[0]["x" := u] == map["x" := u, "y" := w];
    assert env[0 := env[0]["x" := u]] == [map["x" := u, "y" := w]];
    assert SetVar(env, "x", u) == [map["x" := u, "y" := w]];
  }

  // Every operator, compound assignment and step of the compiled code gives its own result, of
  // its operands in their order.
  lemma OperatorExact(ops: Ops, c: Computation, v: Value, w: Value)
    ensures Answers(ops, XY, Computed(c), [v, w], ResultOf(ops, c, v, w), "")
  {
    hide Computed, WellFormed, Call, ResultOf;
    ComputedWell(c);
    ComputedCall(ops, c, v, w);
    BothAnswer(ops, XY, Computed(c), [v, w], 0, ResultOf(ops, c, v, w), "");
  }

  // ---------- what is written ----------

  // write(s, v): a text as it is, and another value as it is shown.
  function Written(s: string, v: Value, newline: bool): Stmts {
    One(Write(ECons(Lit(Str(s)), ECons(Lit(v), ENil)), newline))
  }

  lemma OutputExact(ops: Ops, u: Value, s: string, v: Value, newline: bool)
    ensures Answers(ops, X, Written(s, v, newline), [u], Null,
                    s + " " + (if v.Str? then v.s else ops.show(v)) + (if newline then "\n" else ""))
  {
    hide WellFormed, Halts;
    var body := Written(s, v, newline);
    var out := s + " " + (if v.Str? then v.s else ops.show(v)) + (if newline then "\n" else "");
    WrittenWell(s, v, newline);
    WrittenCall(ops, u, s, v, newline);
    BothAnswer(ops, X, body, [u], 0, Null, out);
  }

  lemma WrittenCall(ops: Ops, u: Value, s: string, v: Value, newline: bool)
    ensures Call(ops, 0, X, Written(s, v, newline), [u])
         == Returned(Null, s + " " + ToStr(ops, v) + (if newline then "\n" else ""))
  {
    hide ToStr;
    var st := St([Bind(X, [u])], "");
    var args := Written(s, v, newline).head.args;
    assert ToStr(ops, Str(s)) == s by {
      TextShown(ops, s);
    }
    assert BuildOutput(ops, st.env, args) == s + " " + ToStr(ops, v);
    var shown := s + " " + ToStr(ops, v);
    assert "" + shown == shown;
    var nl := if newline then "\n" else "";
    assert "" + shown + nl == shown + nl;
    assert Exec(ops, 0, Written(s, v, newline).head, st) == Normal(st.(out := shown + nl));
    assert ExecStmts(ops, 0, Nil, st.(out := shown + nl)) == Normal(st.(out := shown + nl));
  }

  lemma TextShown(ops: Ops, s: string)
    ensures ToStr(ops, Str(s)) == s
  {
  }

  lemma WrittenWell(s: string, v: Value, newline: bool)
    ensures WellFormed(X, Written(s, v, newline))
  {
    hide NoClash;
    var vis := set i | 0 <= i < |X| :: X[i];
    ArgsWell(s, v, vis);
    var w := Written(s, v, newline).head;
    ConsWell(w, Nil, vis, [], false, false, true);
    NilWell(vis + Declares(w), [], false, false, true);
    assert StmtsLits(Written(s, v, newline)) == {Str(s), v};
    TextClash(s, v);
  }

  lemma ArgsWell(s: string, v: Value, vis: set<string>)
    ensures var args := ECons(Lit(Str(s)), ECons(Lit(v), ENil));
            WritesOk(args, vis) && ExprsLits(args) == {Str(s), v}
  {
    assert ExprsLits(ECons(Lit(v), ENil)) == {v} && WritesOk(ECons(Lit(v), ENil), vis);
  }

  lemma TextClash(s: string, v: Value)
    ensures NoClash({Str(s), v})
  {
  }

  // ---------- what is well-formed ----------

  lemma ConsWell(s: Stmt, rest: Stmts, vis: set<string>, fins: seq<Stmts>, brk: bool, cont: bool, ret: bool)
    ensures StmtsOk(Cons(s, rest), vis, fins) <==> StmtOk(s, vis, fins) && StmtsOk(rest, vis + Declares(s), fins)
    ensures PlacedIn(Cons(s, rest), brk, cont, ret) <==> Placed(s, brk, cont, ret) && PlacedIn(rest, brk, cont, ret)
    ensures StmtsLits(Cons(s, rest)) == StmtLits(s) + StmtsLits(rest)
  {
  }

  lemma NilWell(vis: set<string>, fins: seq<Stmts>, brk: bool, cont: bool, ret: bool)
    ensures StmtsOk(Nil, vis, fins) && PlacedIn(Nil, brk, cont, ret) && StmtsLits(Nil) == {}
  {
  }

  function SkipIfX(): Stmt {
    If(Var("x"), One(Continue), None)
  }

  function AddI(): Stmt {
    Do(Assign("s", Compound(Add), Var("i")))
  }

  function StopIfNot(): Stmt {
    If(Un(Not, Var("s")), One(Break), None)
  }

  // { if ($x) { continue; } $s = $s + $i; if (!$s) { break; } }
  function Inner(): Stmts {
    Cons(SkipIfX(), Cons(AddI(), One(StopIfNot())))
  }

  // for ($i = 0; $i < 3; $i++) with that body
  function Rounds(): Stmt {
    For(Some(Do(Assign("i", Plain, Lit(Int(0))))), Some(Bin(Lt, Var("i"), Lit(Int(3)))),
        Some(IncDec("i", true, false)), Inner())
  }

  // try { return $s + 1; } catch { return 0; } finally { write("end"); }
  function Last(): Stmt {
    Try(One(Return(Some(Bin(Add, Var("s"), Lit(Int(1)))))), Some(Handler("", One(Give(0)))),
        Some(One(Write(ECons(Lit(Str("end")), ENil), false))))
  }

  // $s = 0; (the loop) (the try)
  function Tour(): Stmts {
    Cons(Do(Assign("s", Plain, Lit(Int(0)))), Cons(Rounds(), One(Last())))
  }

  lemma JumpWell(s: Stmt, vis: set<string>)
    requires s == Break || s == Continue
    ensures StmtsOk(One(s), vis, []) && PlacedIn(One(s), true, true, true) && StmtsLits(One(s)) == {}
  {
  }

  lemma TestWell(c: Expr, s: Stmt, vis: set<string>)
    requires (s == Break || s == Continue) && TruthOk(c) && ExprLits(c) == {}
    ensures var f := If(c, One(s), None);
            StmtOk(f, vis, []) && Placed(f, true, true, true) && StmtLits(f) == {} && Declares(f) == {}
  {
    hide StmtsOk, PlacedIn, StmtsLits;
    JumpWell(s, vis);
  }

  lemma InnerWell(vis: set<string>)
    requires "x" in vis && "s" in vis
    ensures StmtsOk(Inner(), vis, []) && PlacedIn(Inner(), true, true, true) && StmtsLits(Inner()) == {}
  {
    hide StmtsOk, PlacedIn, StmtsLits, StmtOk, Placed, StmtLits, Declares;
    TestWell(Var("x"), Continue, vis);
    AddIWell(vis + {});
    var vis1 := vis + {} + {"s"};
    TestWell(Un(Not, Var("s")), Break, vis1);
    ConsWell(SkipIfX(), Cons(AddI(), One(StopIfNot())), vis, [], true, true, true);
    ConsWell(AddI(), One(StopIfNot()), vis + {}, [], true, true, true);
    ConsWell(StopIfNot(), Nil, vis1, [], true, true, true);
    NilWell(vis1 + {}, [], true, true, true);
  }

  lemma AddIWell(vis: set<string>)
    requires "s" in vis
    ensures StmtOk(AddI(), vis, []) && Placed(AddI(), true, true, true) && StmtLits(AddI()) == {}
    ensures Declares(AddI()) == {"s"}
  {
  }

  lemma RoundsWell(vis: set<string>)
    requires "x" in vis && "s" in vis
    ensures StmtOk(Rounds(), vis, []) && Placed(Rounds(), false, false, true)
    ensures StmtLits(Rounds()) == {Int(0), Int(3)}
  {
    hide StmtsOk, PlacedIn, StmtsLits, Inner;
    InnerWell(vis + {"i"});
  }

  lemma LastWell(vis: set<string>)
    ensures StmtOk(Last(), vis, []) && Placed(Last(), false, false, true)
    ensures StmtLits(Last()) == {Int(0), Int(1), Str("end")}
  {
    hide StmtsOk, PlacedIn, StmtsLits;
    var fin := One(Write(ECons(Lit(Str("end")), ENil), false));
    EndWell(vis);
    SumWell(vis, fin);
    GiveLits(0);
    assert [] + [fin] == [fin];
  }

  lemma GiveLits(n: int)
    ensures PlacedIn(One(Give(n)), false, false, true) && StmtsLits(One(Give(n))) == {Int(n)}
  {
  }

  lemma EndWell(vis: set<string>)
    ensures var fin := One(Write(ECons(Lit(Str("end")), ENil), false));
            StmtsOk(fin, vis, []) && PlacedIn(fin, false, false, false) && StmtsLits(fin) == {Str("end")}
  {
    var args := ECons(Lit(Str("end")), ENil);
    assert WritesOk(args, vis) && ExprsLits(args) == {Str("end")};
    var w := Write(args, false);
    ConsWell(w, Nil, vis, [], false, false, false);
    NilWell(vis + Declares(w), [], false, false, false);
  }

  lemma RetWell(e: Expr, vis: set<string>, fins: seq<Stmts>)
    requires ValueOk(e) && !e.Var?
    ensures StmtOk(Return(Some(e)), vis, fins) && Placed(Return(Some(e)), false, false, true)
  {
  }

  lemma SumWell(vis: set<string>, fin: Stmts)
    ensures var body := One(Return(Some(Bin(Add, Var("s"), Lit(Int(1))))));
            StmtsOk(body, vis, [fin]) && PlacedIn(body, false, false, true) && StmtsLits(body) == {Int(1)}
  {
    var e := Bin(Add, Var("s"), Lit(Int(1)));
    assert ValueOk(e) && ExprLits(e) == {Int(1)};
    RetWell(e, vis, [fin]);
    ConsWell(Return(Some(e)), Nil, vis, [fin], false, false, true);
    NilWell(vis + Declares(Return(Some(e))), [fin], false, false, true);
  }

  // The conditions of the theorems admit loops, assignments, transfers and `finally`.
  lemma TourWell()
    ensures WellFormed(X, Tour())
  {
    hide StmtsOk, PlacedIn, StmtsLits, StmtOk, Placed, StmtLits, NoClash;
    var vis := set i | 0 <= i < |X| :: X[i];
    assert X[0] in vis;
    var first := Do(Assign("s", Plain, Lit(Int(0))));
    var vis1 := vis + {"s"};
    FirstWell(vis);
    RoundsWell(vis1);
    LastWell(vis1 + {});
    ConsWell(first, Cons(Rounds(), One(Last())), vis, [], false, false, true);
    ConsWell(Rounds(), One(Last()), vis1, [], false, false, true);
    ConsWell(Last(), Nil, vis1 + {}, [], false, false, true);
    NilWell(vis1 + {} + {}, [], false, false, true);
    assert StmtsLits(Tour()) == {Int(0), Int(3), Int(1), Str("end")};
    TourLits();
  }

  lemma FirstWell(vis: set<string>)
    ensures var s := Do(Assign("s", Plain, Lit(Int(0))));
            && StmtOk(s, vis, []) && Placed(s, false, false, true) && StmtLits(s) == {Int(0)} && Declares(s) == {"s"}
  {
  }

  lemma TourLits()
    ensures NoClash({Int(0), Int(3), Int(1), Str("end")})
  {
    hide AsDouble;
  }
}
