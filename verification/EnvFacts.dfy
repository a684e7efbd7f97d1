/** How the interpreter's environments evolve. */
module EnvFacts {
  import opened Options
  import opened Values
  import opened Syntax
  import opened Interpreter
  import opened Discipline

  // No name lives in two frames: `set` defines a name only when no frame holds it.
  ghost predicate NoShadow(env: Env) {
    forall i, j :: 0 <= i < j < |env| ==> env[i].Keys !! env[j].Keys
  }

  lemma {:induction false} LookupIn(ops: Ops, env: Env, i: nat, x: string)
    requires NoShadow(env) && i < |env| && x in env[i]
    ensures Lookup(ops, env, x) == env[i][x]
    decreases |env|
  {
    var n := |env| - 1;
    if i < n {
      assert x !in env[n];
      assert env[..n][i] == env[i];
      LookupIn(ops, env[..n], i, x);
    } else {
      assert env[i] == env[n];
    }
  }

  lemma {:induction false} LookupGlobal(ops: Ops, env: Env, x: string)
    requires !Visible(env, x)
    ensures Lookup(ops, env, x) == ops.global(x)
    decreases |env|
  {
    if env != [] {
      assert x !in env[|env| - 1];
      assert forall i :: 0 <= i < |env| - 1 ==> env[..|env| - 1][i] == env[i];
      LookupGlobal(ops, env[..|env| - 1], x);
    }
  }

  // `Update` changes one value and no key.
  lemma {:induction false} UpdateFrames(env: Env, x: string, v: Value)
    requires NoShadow(env) && Visible(env, x)
    ensures var e := Update(env, x, v);
            && |e| == |env|
            && (forall i :: 0 <= i < |env| ==>
                  e[i] == if x in env[i] then env[i][x := v] else env[i])
    decreases |env|
  {
    var n := |env| - 1;
    if x in env[n] {
      forall i | 0 <= i < n
        ensures x !in env[i]
      {
        assert env[i].Keys !! env[n].Keys;
      }
    } else {
      var k :| 0 <= k < |env| && x in env[k];
      assert env[..n][k] == env[k];
      assert NoShadow(env[..n]);
      UpdateFrames(env[..n], x, v);
    }
  }

  // Frames below the last keep their names, the last only gains some.
  ghost predicate Grows(a: Env, b: Env) {
    && |b| == |a| && NoShadow(b)
    && (forall i :: 0 <= i < |a| - 1 ==> b[i].Keys == a[i].Keys)
    && (|a| > 0 ==> a[|a| - 1].Keys <= b[|a| - 1].Keys)
  }

  lemma SetVarFacts(ops: Ops, env: Env, x: string, v: Value)
    requires NoShadow(env) && env != []
    ensures var e := SetVar(env, x, v);
            && Grows(env, e)
            && (forall y :: Visible(e, y) <==> Visible(env, y) || y == x)
            && (forall y :: Lookup(ops, e, y) == if y == x then v else Lookup(ops, env, y))
  {
    var e := SetVar(env, x, v);
    var n := |env| - 1;
    if Visible(env, x) {
      UpdateFrames(env, x, v);
    } else {
      forall i | 0 <= i < n
        ensures x !in env[i]
      {
      }
    }
    assert forall i :: 0 <= i <= n ==> e[i].Keys == env[i].Keys || (i == n && e[i].Keys == env[i].Keys + {x});
    forall y
      ensures Visible(e, y) <==> Visible(env, y) || y == x
      ensures Lookup(ops, e, y) == if y == x then v else Lookup(ops, env, y)
    {
      if Visible(env, y) {
        var k :| 0 <= k < |env| && y in env[k];
        assert y in e[k];
        LookupIn(ops, e, k, y);
        LookupIn(ops, env, k, y);
      } else if y == x {
        assert y in e[n];
        LookupIn(ops, e, n, y);
      } else {
        LookupGlobal(ops, e, y);
        LookupGlobal(ops, env, y);
      }
    }
  }

  lemma PushFrame(ops: Ops, env: Env)
    requires NoShadow(env)
    ensures NoShadow(env + [map[]])
    ensures forall y :: Visible(env + [map[]], y) <==> Visible(env, y)
    ensures forall y :: Lookup(ops, env + [map[]], y) == Lookup(ops, env, y)
  {
    var e := env + [map[]];
    assert e[..|env|] == env;
    forall y
      ensures Visible(e, y) <==> Visible(env, y)
    {
      if Visible(env, y) {
        var k :| 0 <= k < |env| && y in env[k];
        assert y in e[k];
      }
    }
  }

  // Dropping frames hides names and changes no value of the others.
  lemma CutFrames(ops: Ops, env: Env, d: nat)
    requires NoShadow(env) && d <= |env|
    ensures NoShadow(env[..d])
    ensures forall y :: Visible(env[..d], y) ==> Visible(env, y) && Lookup(ops, env[..d], y) == Lookup(ops, env, y)
  {
    forall y | Visible(env[..d], y)
      ensures Visible(env, y) && Lookup(ops, env[..d], y) == Lookup(ops, env, y)
    {
      var k :| 0 <= k < d && y in env[..d][k];
      assert y in env[k];
      LookupIn(ops, env[..d], k, y);
      LookupIn(ops, env, k, y);
    }
  }

  lemma GrowsTrans(a: Env, b: Env, c: Env)
    requires Grows(a, b) && Grows(b, c)
    ensures Grows(a, c)
  {
  }

  // A block that grew its own frame leaves the outer frames with the same names.
  lemma GrowsCut(a: Env, b: Env)
    requires NoShadow(a) && a != [] && Grows(a + [map[]], b)
    ensures Grows(a, b[..|a|])
    ensures forall i :: 0 <= i < |a| ==> b[..|a|][i].Keys == a[i].Keys
  {
    assert forall i :: 0 <= i < |a| ==> (a + [map[]])[i] == a[i];
  }

  // ---------- execution ----------

  ghost predicate OutcomeGrows(o: Outcome, env: Env) {
    o.OutOfFuel? || Grows(env, o.st.env)
  }

  lemma EffectGrows(ops: Ops, f: Effect, st: St)
    requires NoShadow(st.env) && st.env != []
    ensures Grows(st.env, ExecEffect(ops, f, st).env)
    ensures ExecEffect(ops, f, st).out == st.out
  {
    match f
    case Eval(_) =>
    case Assign(x, aop, rhs) =>
      var v := EvalExpr(ops, st.env, rhs);
      SetVarFacts(ops, st.env, x, if aop.Plain? then v else Apply2(ops, aop.op, Lookup(ops, st.env, x), v));
    case IncDec(x, inc, _) =>
      SetVarFacts(ops, st.env, x, Apply2(ops, if inc then Add else Sub, Lookup(ops, st.env, x), Int(1)));
  }

  lemma {:induction false} ExecGrows(ops: Ops, fuel: nat, s: Stmt, st: St)
    requires NoShadow(st.env) && st.env != []
    ensures OutcomeGrows(Exec(ops, fuel, s, st), st.env)
    decreases fuel, s, 2
  {
    match s
    case Do(f) => EffectGrows(ops, f, st);
    case Write(_, _) =>
    case Return(_) =>
    case Break =>
    case Continue =>
    case Block(body) => BlockGrows(ops, fuel, body, st);
    case If(c, thn, els) =>
      if Truthy(EvalExpr(ops, st.env, c)) {
        BlockGrows(ops, fuel, thn, st);
      } else if els.Some? {
        BlockGrows(ops, fuel, els.value, st);
      }
    case While(c, body) => LoopGrows(ops, fuel, Some(c), None, body, st);
    case For(init, test, post, body) =>
      var scoped := st.(env := st.env + [map[]]);
      PushFrame(ops, st.env);
      var o0 := match init case Some(i) => Exec(ops, fuel, i, scoped) case None => Normal(scoped);
      if init.Some? {
        ExecGrows(ops, fuel, init.value, scoped);
      }
      if o0.Normal? {
        LoopGrows(ops, fuel, test, post, body, o0.st);
        var o1 := ExecLoop(ops, fuel, test, post, body, o0.st);
        if !o1.OutOfFuel? {
          GrowsTrans(scoped.env, o0.st.env, o1.st.env);
          GrowsCut(st.env, o1.st.env);
        }
      } else if !o0.OutOfFuel? {
        GrowsCut(st.env, o0.st.env);
      }
    case Switch(subject, cases) =>
      var v := EvalExpr(ops, st.env, subject);
      var sel := Select(ops, st.env, v, cases, None);
      SelectSmaller(ops, st.env, v, cases, None);
      if sel.Some? {
        BlockGrows(ops, fuel, sel.value, st);
      }
    case Try(body, handler, fin) =>
      BlockGrows(ops, fuel, body, st);
      var o := ExecBlock(ops, fuel, body, st);
      if !o.OutOfFuel? && fin.Some? {
        BlockGrows(ops, fuel, fin.value, o.st);
        var o2 := ExecBlock(ops, fuel, fin.value, o.st);
        if !o2.OutOfFuel? {
          GrowsTrans(st.env, o.st.env, o2.st.env);
        }
      }
  }

  lemma {:induction false} StmtsGrows(ops: Ops, fuel: nat, ss: Stmts, st: St)
    requires NoShadow(st.env) && st.env != []
    ensures OutcomeGrows(ExecStmts(ops, fuel, ss, st), st.env)
    decreases fuel, ss, 0
  {
    if ss.Cons? {
      ExecGrows(ops, fuel, ss.head, st);
      var o := Exec(ops, fuel, ss.head, st);
      if o.Normal? {
        StmtsGrows(ops, fuel, ss.tail, o.st);
        var o2 := ExecStmts(ops, fuel, ss.tail, o.st);
        if !o2.OutOfFuel? {
          GrowsTrans(st.env, o.st.env, o2.st.env);
        }
      }
    }
  }

  lemma {:induction false} BlockGrows(ops: Ops, fuel: nat, ss: Stmts, st: St)
    requires NoShadow(st.env) && st.env != []
    ensures OutcomeGrows(ExecBlock(ops, fuel, ss, st), st.env)
    ensures var o := ExecBlock(ops, fuel, ss, st);
            !o.OutOfFuel? ==> forall i :: 0 <= i < |st.env| ==> o.st.env[i].Keys == st.env[i].Keys
    decreases fuel, ss, 1
  {
    PushFrame(ops, st.env);
    var inner := st.(env := st.env + [map[]]);
    StmtsGrows(ops, fuel, ss, inner);
    var o := ExecStmts(ops, fuel, ss, inner);
    if !o.OutOfFuel? {
      GrowsCut(st.env, o.st.env);
    }
  }

  lemma {:induction false} LoopGrows(ops: Ops, fuel: nat, test: Option<Expr>, post: Option<Effect>, body: Stmts, st: St)
    requires NoShadow(st.env) && st.env != []
    ensures OutcomeGrows(ExecLoop(ops, fuel, test, post, body, st), st.env)
    decreases fuel, body, 2
  {
    if (test.Some? ==> Truthy(EvalExpr(ops, st.env, test.value))) && fuel > 0 {
      BlockGrows(ops, fuel - 1, body, st);
      var o := ExecBlock(ops, fuel - 1, body, st);
      if o.Normal? || o.Cont? {
        var st2 := if post.Some? then ExecEffect(ops, post.value, o.st) else o.st;
        if post.Some? {
          EffectGrows(ops, post.value, o.st);
          GrowsTrans(st.env, o.st.env, st2.env);
        }
        LoopGrows(ops, fuel - 1, test, post, body, st2);
        var o2 := ExecLoop(ops, fuel - 1, test, post, body, st2);
        if !o2.OutOfFuel? {
          GrowsTrans(st.env, st2.env, o2.st.env);
        }
      }
    }
  }

  // ---------- names in scope ----------

  ghost predicate SameKeys(a: Env, b: Env) {
    |a| == |b| && forall i :: 0 <= i < |a| ==> a[i].Keys == b[i].Keys
  }

  // `vis` is exactly what the chain holds.
  ghost predicate Scope(env: Env, vis: set<string>) {
    forall x :: x in vis <==> Visible(env, x)
  }

  lemma SameKeysScope(a: Env, b: Env, vis: set<string>)
    requires SameKeys(a, b) && Scope(a, vis)
    ensures Scope(b, vis)
  {
    forall x
      ensures Visible(a, x) <==> Visible(b, x)
    {
      if Visible(a, x) {
        var k :| 0 <= k < |a| && x in a[k];
        assert x in b[k];
      }
      if Visible(b, x) {
        var k :| 0 <= k < |b| && x in b[k];
        assert x in a[k];
      }
    }
  }

  lemma EffectKeys(ops: Ops, f: Effect, st: St)
    requires NoShadow(st.env) && st.env != []
    requires forall x :: x in EffectTarget(f) ==> Visible(st.env, x)
    ensures SameKeys(st.env, ExecEffect(ops, f, st).env)
  {
    match f
    case Eval(_) =>
    case Assign(x, aop, rhs) =>
      var v := EvalExpr(ops, st.env, rhs);
      UpdateFrames(st.env, x, if aop.Plain? then v else Apply2(ops, aop.op, Lookup(ops, st.env, x), v));
    case IncDec(x, inc, _) =>
      UpdateFrames(st.env, x, Apply2(ops, if inc then Add else Sub, Lookup(ops, st.env, x), Int(1)));
  }

  lemma {:induction false} LoopKeys(ops: Ops, fuel: nat, test: Option<Expr>, post: Option<Effect>, body: Stmts, st: St)
    requires NoShadow(st.env) && st.env != []
    requires post.Some? ==> forall x :: x in EffectTarget(post.value) ==> Visible(st.env, x)
    ensures var o := ExecLoop(ops, fuel, test, post, body, st);
            o.OutOfFuel? || SameKeys(st.env, o.st.env)
    decreases fuel
  {
    if (test.Some? ==> Truthy(EvalExpr(ops, st.env, test.value))) && fuel > 0 {
      BlockGrows(ops, fuel - 1, body, st);
      var o := ExecBlock(ops, fuel - 1, body, st);
      if o.Normal? || o.Cont? {
        var all := set i, x | 0 <= i < |st.env| && x in st.env[i] :: x;
        ScopeAll(st.env, all);
        SameKeysScope(st.env, o.st.env, all);
        var st2 := if post.Some? then ExecEffect(ops, post.value, o.st) else o.st;
        if post.Some? {
          EffectKeys(ops, post.value, o.st);
          EffectGrows(ops, post.value, o.st);
        }
        SameKeysScope(o.st.env, st2.env, all);
        LoopKeys(ops, fuel - 1, test, post, body, st2);
      }
    }
  }

  lemma ScopeAll(env: Env, all: set<string>)
    requires all == set i, x | 0 <= i < |env| && x in env[i] :: x
    ensures Scope(env, all)
  {
  }

  // Only an assignment can add a name to the scope it is executed in.
  lemma ExecScope(ops: Ops, fuel: nat, s: Stmt, st: St, vis: set<string>, fins: seq<Stmts>)
    requires NoShadow(st.env) && st.env != [] && Scope(st.env, vis) && StmtOk(s, vis, fins)
    ensures var o := Exec(ops, fuel, s, st);
            !o.OutOfFuel? ==> Scope(o.st.env, vis + Declares(s))
  {
    var o := Exec(ops, fuel, s, st);
    if o.OutOfFuel? {
    } else if s.Do? && s.effect.Assign? {
      var Assign(x, aop, rhs) := s.effect;
      var v := EvalExpr(ops, st.env, rhs);
      SetVarFacts(ops, st.env, x, if aop.Plain? then v else Apply2(ops, aop.op, Lookup(ops, st.env, x), v));
    } else {
      ExecKeys(ops, fuel, s, st, vis, fins);
      SameKeysScope(st.env, o.st.env, vis);
    }
  }

  lemma ExecKeys(ops: Ops, fuel: nat, s: Stmt, st: St, vis: set<string>, fins: seq<Stmts>)
    requires NoShadow(st.env) && st.env != [] && Scope(st.env, vis) && StmtOk(s, vis, fins)
    requires !(s.Do? && s.effect.Assign?)
    ensures var o := Exec(ops, fuel, s, st);
            !o.OutOfFuel? ==> SameKeys(st.env, o.st.env)
  {
    match s
    case Do(f) => EffectKeys(ops, f, st);
    case Write(_, _) =>
    case Return(_) =>
    case Break =>
    case Continue =>
    case Block(body) => BlockGrows(ops, fuel, body, st);
    case If(c, thn, els) =>
      BlockGrows(ops, fuel, thn, st);
      if els.Some? {
        BlockGrows(ops, fuel, els.value, st);
      }
    case While(c, body) => LoopKeys(ops, fuel, Some(c), None, body, st);
    case For(init, test, post, body) => ForKeys(ops, fuel, s, st);
    case Switch(subject, cases) =>
      var sel := Select(ops, st.env, EvalExpr(ops, st.env, subject), cases, None);
      if sel.Some? {
        BlockGrows(ops, fuel, sel.value, st);
      }
    case Try(body, handler, fin) =>
      BlockGrows(ops, fuel, body, st);
      var o := ExecBlock(ops, fuel, body, st);
      if !o.OutOfFuel? && fin.Some? {
        BlockGrows(ops, fuel, fin.value, o.st);
      }
  }

  lemma ForKeys(ops: Ops, fuel: nat, s: Stmt, st: St)
    requires s.For? && NoShadow(st.env) && st.env != []
    ensures var o := Exec(ops, fuel, s, st);
            !o.OutOfFuel? ==> SameKeys(st.env, o.st.env)
  {
    var scoped := st.(env := st.env + [map[]]);
    PushFrame(ops, st.env);
    var o0 := match s.init case Some(i) => Exec(ops, fuel, i, scoped) case None => Normal(scoped);
    if s.init.Some? {
      ExecGrows(ops, fuel, s.init.value, scoped);
    }
    if o0.Normal? {
      LoopGrows(ops, fuel, s.test, s.post, s.body, o0.st);
      var o1 := ExecLoop(ops, fuel, s.test, s.post, s.body, o0.st);
      if !o1.OutOfFuel? {
        GrowsTrans(scoped.env, o0.st.env, o1.st.env);
        GrowsCut(st.env, o1.st.env);
      }
    } else if !o0.OutOfFuel? {
      GrowsCut(st.env, o0.st.env);
    }
  }
}
