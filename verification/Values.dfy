/** Values of the language and the operations both engines share. */
module Values {

  import opened Options

  datatype Value =
    | Null
    | Bool(b: bool)
    | Int(n: int)
    | Float(x: real)
    | Str(s: string)

  datatype BinOp =
    | Add | Sub | Mul | Div | Mod | Pow | Concat
    | Eq | Neq | Lt | Gt | Lte | Gte | Cmp3
    | Band | Bor | Bxor | Shl | Shr

  datatype UnOp = Neg | Not | BitNot

  // The operators and the global table, left uninterpreted: every result below holds for
  // every choice of them. Operators that throw are outside the model.
  datatype Ops = Ops(
    bin: (BinOp, Value, Value) -> Value,
    cmp: (BinOp, Value, Value) -> bool,
    neg: Value -> Value,
    bitNot: Value -> Value,
    show: Value -> string,
    global: string -> Value)

  predicate Truthy(v: Value) {
    match v
    case Null => false
    case Bool(b) => b
    case Int(n) => n != 0
    case Float(x) => x != 0.0
    case Str(s) => s != "" && s != "0"
  }

  predicate IsNumber(v: Value) {
    v.Int? || v.Float?
  }

  // The distance between neighbouring doubles at `m`.
  function Ulp(m: nat): (u: nat)
    ensures u > 0
  {
    if m < 0x20_0000_0000_0000 then 1 else 2 * Ulp(m / 2)
  }

  lemma Remainder(m: nat, u: nat)
    requires u > 0
    ensures 0 <= m % u < u && m % u <= m
  {
    if m < u {
      assert m % u == m;
    }
  }

  // The double nearest to `m`; of two, the one with the even significand.
  function Nearest(m: nat): nat {
    var u := Ulp(m);
    Remainder(m, u);
    var r := m % u;
    if 2 * r < u || (2 * r == u && m / u % 2 == 0) then m - r else m - r + u
  }

  function AsDouble(n: int): int {
    if n < 0 then 0 - Nearest(-n) else Nearest(n)
  }

  lemma NearestIs(m: nat)
    ensures 2 * (Nearest(m) - m) <= Ulp(m) && 2 * (m - Nearest(m)) <= Ulp(m)
    ensures m < 0x20_0000_0000_0000 ==> Nearest(m) == m
  {
    hide Ulp;
    UlpOne(m);
    Remainder(m, Ulp(m));
    assert m % 1 == 0;
  }

  lemma UlpOne(m: nat)
    ensures m < 0x20_0000_0000_0000 ==> Ulp(m) == 1
  {
  }

  function AsReal(v: Value): real
    requires IsNumber(v)
  {
    match v
    case Int(n) => AsDouble(n) as real
    case Float(x) => x
  }

  // The language's `==`: an Int and a Float compare as doubles, two Ints exactly, other types
  // only with themselves.
  predicate LooseEq(a: Value, b: Value) {
    a == b || (IsNumber(a) && IsNumber(b) && !(a.Int? && b.Int?) && AsReal(a) == AsReal(b))
  }

  predicate IsComparison(op: BinOp) {
    op in {Eq, Neq, Lt, Gt, Lte, Gte}
  }

  function Apply2(ops: Ops, op: BinOp, a: Value, b: Value): Value {
    match op
    case Eq => Bool(LooseEq(a, b))
    case Neq => Bool(!LooseEq(a, b))
    case Lt => Bool(ops.cmp(Lt, a, b))
    case Gt => Bool(ops.cmp(Gt, a, b))
    case Lte => Bool(ops.cmp(Lte, a, b))
    case Gte => Bool(ops.cmp(Gte, a, b))
    case _ => ops.bin(op, a, b)
  }

  function Apply1(ops: Ops, op: UnOp, a: Value): Value {
    match op
    case Neg => ops.neg(a)
    case Not => Bool(!Truthy(a))
    case BitNot => ops.bitNot(a)
  }

  function ToStr(ops: Ops, v: Value): string {
    if v.Str? then v.s else ops.show(v)
  }
}
