/** The conditions on a program under which both engines are proved to agree. All of them
    can be checked on the syntax alone. */
module Discipline {
  import opened Options
  import opened Values
  import opened Syntax
  import opened Interpreter
  import opened CodeGen

  // ---------- names and literals ----------

  function ExprNames(e: Expr): set<string> {
    match e
    case Lit(_) => {}
    case Var(x) => {x}
    case Un(_, a) => ExprNames(a)
    case Bin(_, a, b) => ExprNames(a) + ExprNames(b)
    case Logical(_, a, b) => ExprNames(a) + ExprNames(b)
    case Coalesce(a, b) => ExprNames(a) + ExprNames(b)
    case Ternary(c, t, f) => ExprNames(c) + ExprNames(t) + ExprNames(f)
  }

  function ExprLits(e: Expr): set<Value> {
    match e
    case Lit(v) => {v}
    case Var(_) => {}
    case Un(_, a) => ExprLits(a)
    case Bin(_, a, b) => ExprLits(a) + ExprLits(b)
    case Logical(_, a, b) => ExprLits(a) + ExprLits(b)
    case Coalesce(a, b) => ExprLits(a) + ExprLits(b)
    case Ternary(c, t, f) => ExprLits(c) + ExprLits(t) + ExprLits(f)
  }

  function ExprsNames(es: Exprs): set<string> {
    match es
    case ENil => {}
    case ECons(e, rest) => ExprNames(e) + ExprsNames(rest)
  }

  function ExprsLits(es: Exprs): set<Value> {
    match es
    case ENil => {}
    case ECons(e, rest) => ExprLits(e) + ExprsLits(rest)
  }

  function EffectNames(f: Effect): set<string> {
    match f
    case Eval(e) => ExprNames(e)
    case Assign(x, _, rhs) => {x} + ExprNames(rhs)
    case IncDec(x, _, _) => {x}
  }

  function EffectLits(f: Effect): set<Value> {
    match f
    case Eval(e) => ExprLits(e)
    case Assign(_, _, rhs) => ExprLits(rhs)
    case IncDec(_, _, _) => {}
  }

  function EffectTarget(f: Effect): set<string> {
    match f
    case Eval(_) => {}
    case Assign(x, _, _) => {x}
    case IncDec(x, _, _) => {x}
  }

  // Every variable a statement mentions, outside `catch` blocks.
  function StmtNames(s: Stmt): set<string> {
    match s
    case Do(f) => EffectNames(f)
    case Write(args, _) => ExprsNames(args)
    case Return(value) => (match value case Some(e) => ExprNames(e) case None => {})
    case Break => {}
    case Continue => {}
    case Block(body) => StmtsNames(body)
    case If(c, thn, els) => ExprNames(c) + StmtsNames(thn) + (match els case Some(b) => StmtsNames(b) case None => {})
    case While(c, body) => ExprNames(c) + StmtsNames(body)
    case For(init, test, post, body) =>
      (match init case Some(i) => StmtNames(i) case None => {})
      + (match test case Some(c) => ExprNames(c) case None => {})
      + (match post case Some(f) => EffectNames(f) case None => {})
      + StmtsNames(body)
    case Switch(subject, cases) => ExprNames(subject) + CasesNames(cases)
    case Try(body, _, fin) => StmtsNames(body) + (match fin case Some(b) => StmtsNames(b) case None => {})
  }

  function StmtsNames(ss: Stmts): set<string> {
    match ss
    case Nil => {}
    case Cons(s, rest) => StmtNames(s) + StmtsNames(rest)
  }

  function CasesNames(cs: Cases): set<string> {
    match cs
    case NoCase => {}
    case Case(values, body, rest) => ExprsNames(values) + StmtsNames(body) + CasesNames(rest)
  }

  // Every variable a statement assigns, outside `catch` blocks.
  function Assigned(s: Stmt): set<string> {
    match s
    case Do(f) => EffectTarget(f)
    case Write(_, _) => {}
    case Return(_) => {}
    case Break => {}
    case Continue => {}
    case Block(body) => AssignedIn(body)
    case If(_, thn, els) => AssignedIn(thn) + (match els case Some(b) => AssignedIn(b) case None => {})
    case While(_, body) => AssignedIn(body)
    case For(init, _, post, body) =>
      (match init case Some(i) => Assigned(i) case None => {})
      + (match post case Some(f) => EffectTarget(f) case None => {})
      + AssignedIn(body)
    case Switch(_, cases) => AssignedCases(cases)
    case Try(body, _, fin) => AssignedIn(body) + (match fin case Some(b) => AssignedIn(b) case None => {})
  }

  function AssignedIn(ss: Stmts): set<string> {
    match ss
    case Nil => {}
    case Cons(s, rest) => Assigned(s) + AssignedIn(rest)
  }

  function AssignedCases(cs: Cases): set<string> {
    match cs
    case NoCase => {}
    case Case(_, body, rest) => AssignedIn(body) + AssignedCases(rest)
  }

  // Every literal that is compiled, `catch` blocks included: they share the constant pool.
  function StmtLits(s: Stmt): set<Value> {
    match s
    case Do(f) => EffectLits(f)
    case Write(args, _) => ExprsLits(args)
    case Return(value) => (match value case Some(e) => ExprLits(e) case None => {})
    case Break => {}
    case Continue => {}
    case Block(body) => StmtsLits(body)
    case If(c, thn, els) => ExprLits(c) + StmtsLits(thn) + (match els case Some(b) => StmtsLits(b) case None => {})
    case While(c, body) => ExprLits(c) + StmtsLits(body)
    case For(init, test, post, body) =>
      (match init case Some(i) => StmtLits(i) case None => {})
      + (match test case Some(c) => ExprLits(c) case None => {})
      + (match post case Some(f) => EffectLits(f) case None => {})
      + StmtsLits(body)
    case Switch(subject, cases) => ExprLits(subject) + CasesLits(cases)
    case Try(body, handler, fin) =>
      StmtsLits(body)
      + (match handler case Some(h) => StmtsLits(h.body) case None => {})
      + (match fin case Some(b) => StmtsLits(b) case None => {})
  }

  function StmtsLits(ss: Stmts): set<Value> {
    match ss
    case Nil => {}
    case Cons(s, rest) => StmtLits(s) + StmtsLits(rest)
  }

  function CasesLits(cs: Cases): set<Value> {
    match cs
    case NoCase => {}
    case Case(values, body, rest) => ExprsLits(values) + StmtsLits(body) + CasesLits(rest)
  }

  // No two different literals are `==`: no Int beside a Float of the same value.
  ghost predicate NoClash(lits: set<Value>) {
    forall a, b :: a in lits && b in lits && LooseEq(a, b) ==> a == b
  }

  // ---------- logical operators ----------

  // The value is a Bool whatever the variables hold.
  predicate IsBool(e: Expr) {
    match e
    case Lit(v) => v.Bool?
    case Var(_) => false
    case Un(op, _) => op == Not
    case Bin(op, _, _) => IsComparison(op)
    case Logical(_, l, r) => IsBool(l) && IsBool(r)
    case Coalesce(l, r) => IsBool(l) && IsBool(r)
    case Ternary(_, t, f) => IsBool(t) && IsBool(f)
  }

  // `&&` and `||` whose value is used, beyond its truth, have Bool operands.
  predicate ValueOk(e: Expr) {
    match e
    case Lit(_) => true
    case Var(_) => true
    case Un(op, a) => if op == Not then TruthOk(a) else ValueOk(a)
    case Bin(_, l, r) => ValueOk(l) && ValueOk(r)
    case Logical(_, l, r) => IsBool(l) && IsBool(r) && ValueOk(l) && ValueOk(r)
    case Coalesce(l, r) => ValueOk(l) && ValueOk(r)
    case Ternary(c, t, f) => TruthOk(c) && ValueOk(t) && ValueOk(f)
  }

  predicate TruthOk(e: Expr) {
    match e
    case Lit(_) => true
    case Var(_) => true
    case Un(op, a) => if op == Not then TruthOk(a) else ValueOk(a)
    case Bin(_, l, r) => ValueOk(l) && ValueOk(r)
    case Logical(_, l, r) => TruthOk(l) && TruthOk(r)
    case Coalesce(l, r) => ValueOk(l) && TruthOk(r)
    case Ternary(c, t, f) => TruthOk(c) && TruthOk(t) && TruthOk(f)
  }

  // ---------- statements ----------

  // `break`, `continue` and `return` only where they have a target.
  predicate Placed(s: Stmt, brk: bool, cont: bool, ret: bool) {
    match s
    case Do(_) => true
    case Write(_, _) => true
    case Return(_) => ret
    case Break => brk
    case Continue => cont
    case Block(body) => PlacedIn(body, brk, cont, ret)
    case If(_, thn, els) => PlacedIn(thn, brk, cont, ret) && (els.Some? ==> PlacedIn(els.value, brk, cont, ret))
    case While(_, body) => PlacedIn(body, true, true, ret)
    case For(init, _, _, body) => (init.Some? ==> Placed(init.value, brk, cont, ret)) && PlacedIn(body, true, true, ret)
    case Switch(_, cases) => PlacedCases(cases, cont, ret)
    case Try(body, handler, fin) =>
      && PlacedIn(body, brk, cont, ret)
      && (handler.Some? ==> PlacedIn(handler.value.body, brk, cont, ret))
      && (fin.Some? ==> PlacedIn(fin.value, false, false, false))
  }

  predicate PlacedIn(ss: Stmts, brk: bool, cont: bool, ret: bool) {
    match ss
    case Nil => true
    case Cons(s, rest) => Placed(s, brk, cont, ret) && PlacedIn(rest, brk, cont, ret)
  }

  predicate PlacedCases(cs: Cases, cont: bool, ret: bool) {
    match cs
    case NoCase => true
    case Case(_, body, rest) => PlacedIn(body, true, cont, ret) && PlacedCases(rest, cont, ret)
  }

  predicate OptTruthOk(test: Option<Expr>) {
    test.Some? ==> TruthOk(test.value)
  }

  function Declares(s: Stmt): set<string> {
    if s.Do? && s.effect.Assign? then {s.effect.x} else {}
  }

  // The step of a for loop assigns only names declared before it.
  predicate PostOk(post: Option<Effect>, vis: set<string>) {
    post.Some? ==> EffectTarget(post.value) <= vis && (post.value.Assign? ==> ValueOk(post.value.rhs))
  }

  // `write` overwrites the register of its argument, so a bare local may not be one.
  predicate WritesOk(args: Exprs, vis: set<string>) {
    match args
    case ENil => true
    case ECons(e, rest) => ValueOk(e) && !(e.Var? && e.x in vis) && WritesOk(rest, vis)
  }

  predicate ValuesOk(values: Exprs) {
    match values
    case ENil => true
    case ECons(e, rest) => ValueOk(e) && ValuesOk(rest)
  }

  predicate NotIn(x: string, fins: seq<Stmts>) {
    forall i :: 0 <= i < |fins| ==> x !in StmtsNames(fins[i])
  }

  predicate NotAssignedIn(x: string, fins: seq<Stmts>) {
    forall i :: 0 <= i < |fins| ==> x !in AssignedIn(fins[i])
  }

  // `vis` are the locals in scope, `fins` the `finally` blocks around the statement, outermost
  // first. A new local may not be a name such a block uses, and a returned bare local may
  // not be assigned by one.
  predicate StmtOk(s: Stmt, vis: set<string>, fins: seq<Stmts>) {
    match s
    case Do(f) =>
      (match f
       case Eval(_) => true
       case Assign(x, _, rhs) => ValueOk(rhs) && (x in vis || NotIn(x, fins))
       case IncDec(x, _, _) => x in vis)
    case Write(args, _) => WritesOk(args, vis)
    case Return(value) =>
      value.Some? ==> ValueOk(value.value)
                      && (value.value.Var? && value.value.x in vis ==> NotAssignedIn(value.value.x, fins))
    case Break => true
    case Continue => true
    case Block(body) => StmtsOk(body, vis, fins)
    case If(c, thn, els) =>
      TruthOk(c) && StmtsOk(thn, vis, fins) && (els.Some? ==> StmtsOk(els.value, vis, fins))
    case While(c, body) => TruthOk(c) && StmtsOk(body, vis, fins)
    case For(init, test, post, body) =>
      && (init.Some? ==> StmtOk(init.value, vis, fins))
      && OptTruthOk(test)
      && (var vis1 := if init.Some? then vis + Declares(init.value) else vis;
          PostOk(post, vis1) && StmtsOk(body, vis1, fins))
    case Switch(subject, cases) => ValueOk(subject) && CasesOk(cases, vis, fins)
    case Try(body, _, fin) =>
      match fin
      case None => StmtsOk(body, vis, fins)
      case Some(b) => StmtsOk(body, vis, fins + [b]) && StmtsOk(b, vis, [])
  }

  predicate StmtsOk(ss: Stmts, vis: set<string>, fins: seq<Stmts>) {
    match ss
    case Nil => true
    case Cons(s, rest) => StmtOk(s, vis, fins) && StmtsOk(rest, vis + Declares(s), fins)
  }

  predicate CasesOk(cs: Cases, vis: set<string>, fins: seq<Stmts>) {
    match cs
    case NoCase => true
    case Case(values, body, rest) => ValuesOk(values) && StmtsOk(body, vis, fins) && CasesOk(rest, vis, fins)
  }
}
