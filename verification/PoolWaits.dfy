/** Fibers that wait for a free database connection: the queue `pool_waiters_`. */
module PoolWaits {
  import opened Options
  import opened Scheduler

  // ---------- what happens to one fiber's places ----------

  predicate Enters(s: Sched, e: Event, f: Id) {
    e.SuspendForPool? && s.current == Some(f)
  }

  predicate Popped(s: Sched, e: Event, f: Id) {
    e.PopPool? && s.pool != [] && s.pool[0] == f
  }

  // `run_one` takes a fiber out that returned, or was resumed before it had switched out.
  predicate TakenOut(s: Sched, e: Event, f: Id) {
    && e.Switched? && s.current == Some(f) && f in s.fibers && f in s.pool
    && (s.fibers[f].returned || (s.fibers[f].phase == Suspending && s.fibers[f].pending))
  }

  function One(b: bool): nat {
    if b then 1 else 0
  }

  ghost function Entries(s: Sched, es: seq<Event>, f: Id): nat
    requires IsRun(s, es)
    decreases |es|
  {
    if es == [] then 0 else One(Enters(s, es[0], f)) + Entries(Step(s, es[0]), es[1..], f)
  }

  ghost function Exits(s: Sched, es: seq<Event>, f: Id): nat
    requires IsRun(s, es)
    decreases |es|
  {
    if es == [] then 0
    else One(Popped(s, es[0], f) || TakenOut(s, es[0], f)) + Exits(Step(s, es[0]), es[1..], f)
  }

  lemma CountStep(s: Sched, e: Event, f: Id)
    requires Enabled(s, e)
    ensures Times(Step(s, e).pool, f) + One(Popped(s, e, f) || TakenOut(s, e, f))
         == Times(s.pool, f) + One(Enters(s, e, f))
  {
    hide Without, Collect, Expired, Lists, Times;
    match e
    case SuspendForPool => PushTimes(s.pool, s.current.value);
    case PopPool => PopTimes(s.pool);
    case Switched =>
      WithoutTimes(s.pool, s.current.value);
      InTimes(s.pool, f);
    case Sweep(_, order) => CollectSame(s, order);
    case _ => SamePool(s, e);
  }

  lemma SamePool(s: Sched, e: Event)
    requires Enabled(s, e) && !e.SuspendForPool? && !e.PopPool? && !e.Switched? && !e.Sweep?
    ensures Step(s, e).pool == s.pool
  {
    hide Without;
  }

  // Over every run a fiber stands in the queue as often as it stood there and has entered
  // since, less the times it was popped or taken out.
  lemma {:induction false} PoolCount(s: Sched, es: seq<Event>, f: Id)
    requires IsRun(s, es)
    ensures Times(After(s, es).pool, f) + Exits(s, es, f) == Times(s.pool, f) + Entries(s, es, f)
    decreases |es|
  {
    hide Step, Enters, Popped, TakenOut, Times;
    if es != [] {
      CountStep(s, es[0], f);
      PoolCount(Step(s, es[0]), es[1..], f);
    }
  }

  // A fiber that suspends for the pool stands there exactly once until it is popped or taken
  // out, whatever else happens.
  lemma StandsOnce(s: Sched, f: Id, es: seq<Event>)
    requires Enabled(s, SuspendForPool) && s.current == Some(f) && f !in s.pool
    requires IsRun(Step(s, SuspendForPool), es)
    requires Entries(Step(s, SuspendForPool), es, f) == 0 && Exits(Step(s, SuspendForPool), es, f) == 0
    ensures var pool := After(Step(s, SuspendForPool), es).pool; Times(pool, f) == 1 && f in pool
  {
    hide Step, Times;
    CountStep(s, SuspendForPool, f);
    PoolCount(Step(s, SuspendForPool), es, f);
    InTimes(s.pool, f);
    InTimes(After(Step(s, SuspendForPool), es).pool, f);
  }

  // ---------- the order ----------

  // The fibers that enter during a run, and those popped, in order.
  ghost function Entered(s: Sched, es: seq<Event>): seq<Id>
    requires IsRun(s, es)
    decreases |es|
  {
    if es == [] then []
    else (if es[0].SuspendForPool? then [s.current.value] else []) + Entered(Step(s, es[0]), es[1..])
  }

  ghost function Left(s: Sched, es: seq<Event>): seq<Id>
    requires IsRun(s, es)
    decreases |es|
  {
    if es == [] then []
    else (if es[0].PopPool? then [s.pool[0]] else []) + Left(Step(s, es[0]), es[1..])
  }

  ghost predicate NoneTakenOut(s: Sched, es: seq<Event>)
    requires IsRun(s, es)
    decreases |es|
  {
    es == [] || ((forall f :: !TakenOut(s, es[0], f)) && NoneTakenOut(Step(s, es[0]), es[1..]))
  }

  lemma FifoStep(s: Sched, e: Event)
    requires Enabled(s, e) && forall f :: !TakenOut(s, e, f)
    ensures var entered := if e.SuspendForPool? then [s.current.value] else [];
            var left := if e.PopPool? then [s.pool[0]] else [];
            s.pool + entered == left + Step(s, e).pool
  {
    hide Without, Collect, Expired, Lists;
    match e
    case SuspendForPool =>
    case PopPool =>
    case Switched =>
      assert !TakenOut(s, e, s.current.value);
      if s.current.value !in s.pool {
        NotThere(s.pool, s.current.value);
      }
    case Sweep(_, order) => CollectSame(s, order);
    case _ => SamePool(s, e);
  }

  lemma {:induction false} NotThere(q: seq<Id>, f: Id)
    requires f !in q
    ensures Without(q, f) == q
    decreases |q|
  {
    if q != [] {
      assert q[0] in q;
      NotThere(q[1..], f);
    }
  }

  // As long as no switch takes a fiber out, the queue is first in first out: those standing
  // there and those that enter are those popped, in that order, and those still there.
  lemma {:induction false} PoolFifo(s: Sched, es: seq<Event>)
    requires IsRun(s, es) && NoneTakenOut(s, es)
    ensures s.pool + Entered(s, es) == Left(s, es) + After(s, es).pool
    decreases |es|
  {
    hide Step, TakenOut;
    if es == [] {
      assert s.pool + [] == [] + s.pool;
    } else {
      var e := es[0];
      var s1 := Step(s, e);
      FifoStep(s, e);
      PoolFifo(s1, es[1..]);
      var a := if e.SuspendForPool? then [s.current.value] else [];
      var b := if e.PopPool? then [s.pool[0]] else [];
      Shuffle(s.pool, a, Entered(s1, es[1..]), b, s1.pool, Left(s1, es[1..]), After(s1, es[1..]).pool);
    }
  }

  lemma Shuffle(p: seq<Id>, a: seq<Id>, x: seq<Id>, b: seq<Id>, q: seq<Id>, y: seq<Id>, r: seq<Id>)
    requires p + a == b + q && q + x == y + r
    ensures p + (a + x) == (b + y) + r
  {
    assert p + (a + x) == (p + a) + x;
    assert (b + q) + x == b + (q + x);
    assert b + (y + r) == (b + y) + r;
  }

  // So while the waiters there now are being served, the k-th pop takes the k-th of them.
  lemma KthPop(s: Sched, es: seq<Event>, k: nat)
    requires IsRun(s, es) && NoneTakenOut(s, es) && k < |s.pool| && k < |Left(s, es)|
    ensures Left(s, es)[k] == s.pool[k]
  {
    PoolFifo(s, es);
    assert (s.pool + Entered(s, es))[k] == (Left(s, es) + After(s, es).pool)[k];
  }

  // In every run the waiters stand in the order of their suspensions: each place goes back to
  // one of its own, and these come one after the other.
  ghost predicate Ordered(s: Sched, es: seq<Event>, tags: seq<int>, pool: seq<Id>)
    requires IsRun(s, es)
  {
    && |tags| == |pool|
    && (forall i, j :: 0 <= i < j < |tags| ==> tags[i] < tags[j])
    && (forall i :: 0 <= i < |tags| ==>
          0 <= tags[i] < |es| && es[tags[i]].SuspendForPool? && EnteredAt(s, es, tags[i]) == Some(pool[i]))
  }

  ghost function EnteredAt(s: Sched, es: seq<Event>, i: nat): Option<Id>
    requires IsRun(s, es) && i < |es|
    decreases i
  {
    if i == 0 then s.current else EnteredAt(Step(s, es[0]), es[1..], i - 1)
  }

  lemma {:induction false} PrefixRun(s: Sched, es: seq<Event>, e: Event)
    requires IsRun(s, es + [e])
    ensures IsRun(s, es) && Enabled(After(s, es), e) && After(s, es + [e]) == Step(After(s, es), e)
    ensures EnteredAt(s, es + [e], |es|) == After(s, es).current
    ensures forall i :: 0 <= i < |es| ==> EnteredAt(s, es + [e], i) == EnteredAt(s, es, i)
    decreases |es|
  {
    hide Step, Enabled;
    if es == [] {
      assert ([] + [e])[1..] == [];
    } else {
      assert (es + [e])[1..] == es[1..] + [e] && (es + [e])[0] == es[0];
      PrefixRun(Step(s, es[0]), es[1..], e);
      forall i | 0 <= i < |es|
        ensures EnteredAt(s, es + [e], i) == EnteredAt(s, es, i)
      {
        if i > 0 {
          assert EnteredAt(Step(s, es[0]), es[1..] + [e], i - 1) == EnteredAt(Step(s, es[0]), es[1..], i - 1);
        }
      }
    }
  }

  lemma {:induction false} PoolOrder(es: seq<Event>) returns (tags: seq<int>)
    requires IsRun(Init(), es)
    ensures Ordered(Init(), es, tags, After(Init(), es).pool)
    decreases |es|
  {
    hide Step, Enabled, IsRun, After, EnteredAt;
    if es == [] {
      tags := [];
      NoEvents();
    } else {
      var n := |es| - 1;
      var front, e := es[..n], es[n];
      assert es == front + [e];
      PrefixRun(Init(), front, e);
      var before := PoolOrder(front);
      var s := After(Init(), front);
      Present(s, e);
      var o := PoolMoves(s, e, before, n);
      tags := NextTags(s, e, before, n);
      StillOrdered(front, e, before, tags, o);
    }
  }

  lemma Present(s: Sched, e: Event)
    requires Enabled(s, e)
    ensures e.SuspendForPool? ==> s.current.Some?
    ensures e.PopPool? ==> s.pool != []
  {
  }

  lemma NoEvents()
    ensures IsRun(Init(), []) && After(Init(), []).pool == []
  {
  }

  ghost function FirstOf(q: seq<Id>, f: Id): nat {
    if q == [] || q[0] == f then 0 else 1 + FirstOf(q[1..], f)
  }

  ghost function Cut(tags: seq<int>, i: nat): seq<int> {
    if i < |tags| then tags[..i] + tags[i + 1..] else tags
  }

  // The tags left when a switch takes its fiber out.
  ghost function Remaining(s: Sched, e: Event, tags: seq<int>): seq<int> {
    if e.Switched? && s.current.Some? && TakenOut(s, e, s.current.value)
    then Cut(tags, FirstOf(s.pool, s.current.value))
    else tags
  }

  lemma {:induction false} WithoutCut(q: seq<Id>, f: Id)
    ensures var i := FirstOf(q, f); Without(q, f) == if i < |q| then q[..i] + q[i + 1..] else q
    decreases |q|
  {
    if q != [] && q[0] != f {
      WithoutCut(q[1..], f);
      CutBehind(q, FirstOf(q[1..], f));
    }
  }

  lemma CutBehind(q: seq<Id>, i: nat)
    requires q != []
    ensures var t := q[1..];
            [q[0]] + (if i < |t| then t[..i] + t[i + 1..] else t) == if i + 1 < |q| then q[..i + 1] + q[i + 2..] else q
  {
  }

  // The next queue is chosen, in order, from the old one and the fiber that enters.
  ghost predicate Chosen<T>(o: seq<int>, from: seq<T>, to: seq<T>) {
    && |o| == |to|
    && (forall i :: 0 <= i < |o| ==> 0 <= o[i] < |from| && to[i] == from[o[i]])
    && (forall i, j :: 0 <= i < j < |o| ==> o[i] < o[j])
  }

  function Range(from: nat, to: nat): seq<int>
    requires from <= to
  {
    seq(to - from, i => from + i)
  }

  lemma ChosenAll<T>(q: seq<T>)
    ensures Chosen(Range(0, |q|), q, q)
  {
  }

  lemma ChosenRest<T>(q: seq<T>)
    requires q != []
    ensures Chosen(Range(1, |q|), q, q[1..])
  {
  }

  lemma ChosenCut<T>(q: seq<T>, i: nat)
    requires i < |q|
    ensures Chosen(Range(0, i) + Range(i + 1, |q|), q, q[..i] + q[i + 1..])
  {
  }

  lemma SwitchedPool(s: Sched)
    requires Enabled(s, Switched)
    ensures s.current.Some?
    ensures SwitchedStep(s).pool
         == if TakenOut(s, Switched, s.current.value) then Without(s.pool, s.current.value) else s.pool
  {
    hide Without;
    if s.current.value !in s.pool {
      NotThere(s.pool, s.current.value);
    }
  }

  lemma MovesSwitched(s: Sched, before: seq<int>) returns (o: seq<int>)
    requires Enabled(s, Switched) && |before| == |s.pool|
    ensures Chosen(o, s.pool, SwitchedStep(s).pool) && Chosen(o, before, Remaining(s, Switched, before))
  {
    hide Without, Chosen, Range, SwitchedStep, FirstOf;
    SwitchedPool(s);
    var f := s.current.value;
    WithoutCut(s.pool, f);
    NotThereCut(s.pool, f);
    var i := FirstOf(s.pool, f);
    if TakenOut(s, Switched, f) {
      hide TakenOut;
      o := Range(0, i) + Range(i + 1, |s.pool|);
      ChosenCut(s.pool, i);
      ChosenCut(before, i);
    } else {
      o := Range(0, |s.pool|);
      ChosenAll(s.pool);
      ChosenAll(before);
    }
  }

  lemma MovesOther(s: Sched, e: Event)
    requires Enabled(s, e) && !e.SuspendForPool? && !e.PopPool? && !e.Switched?
    ensures Step(s, e).pool == s.pool
  {
    hide Without, Collect, Expired, Lists;
    if e.Sweep? {
      CollectSame(s, e.order);
    } else {
      SamePool(s, e);
    }
  }

  ghost function NextTags(s: Sched, e: Event, before: seq<int>, n: int): seq<int>
    requires e.PopPool? ==> before != []
  {
    if e.SuspendForPool? then before + [n] else if e.PopPool? then before[1..] else Remaining(s, e, before)
  }

  lemma PoolSteps(s: Sched, e: Event)
    requires Enabled(s, e)
    ensures e.SuspendForPool? ==> s.current.Some? && Step(s, e).pool == s.pool + [s.current.value]
    ensures e.PopPool? ==> s.pool != [] && Step(s, e).pool == s.pool[1..]
    ensures e.Switched? ==> s.current.Some? && s.current.value in s.fibers && Step(s, e).pool == SwitchedStep(s).pool
  {
    hide Without, Collect, Expired, Lists, SwitchedStep;
  }

  lemma PoolMoves(s: Sched, e: Event, before: seq<int>, n: int) returns (o: seq<int>)
    requires Enabled(s, e) && |before| == |s.pool| && (e.PopPool? ==> before != [])
    requires e.SuspendForPool? ==> s.current.Some?
    ensures Chosen(o, if e.SuspendForPool? then s.pool + [s.current.value] else s.pool, Step(s, e).pool)
    ensures Chosen(o, if e.SuspendForPool? then before + [n] else before, NextTags(s, e, before, n))
  {
    hide Step, Chosen, Range, SwitchedStep, TakenOut, Cut;
    PoolSteps(s, e);
    if e.SuspendForPool? {
      o := Range(0, |s.pool| + 1);
      ChosenAll(s.pool + [s.current.value]);
      ChosenAll(before + [n]);
    } else if e.PopPool? {
      o := Range(1, |s.pool|);
      ChosenRest(s.pool);
      ChosenRest(before);
    } else if e.Switched? {
      o := MovesSwitched(s, before);
    } else {
      o := Range(0, |s.pool|);
      MovesOther(s, e);
      ChosenAll(s.pool);
      ChosenAll(before);
    }
  }

  lemma {:induction false} NotThereCut(q: seq<Id>, f: Id)
    ensures f in q <==> FirstOf(q, f) < |q|
    decreases |q|
  {
    if q != [] && q[0] != f {
      NotThereCut(q[1..], f);
    }
  }

  lemma StillOrdered(front: seq<Event>, e: Event, before: seq<int>, tags: seq<int>, o: seq<int>)
    requires IsRun(Init(), front + [e]) && IsRun(Init(), front)
    requires EnteredAt(Init(), front + [e], |front|) == After(Init(), front).current
    requires forall i :: 0 <= i < |front| ==> EnteredAt(Init(), front + [e], i) == EnteredAt(Init(), front, i)
    requires Ordered(Init(), front, before, After(Init(), front).pool)
    requires var s := After(Init(), front);
             && (e.SuspendForPool? ==> s.current.Some?)
             && Chosen(o, if e.SuspendForPool? then s.pool + [s.current.value] else s.pool,
                       After(Init(), front + [e]).pool)
             && Chosen(o, if e.SuspendForPool? then before + [|front|] else before, tags)
    ensures Ordered(Init(), front + [e], tags, After(Init(), front + [e]).pool)
  {
    hide Step, Enabled, IsRun, After, EnteredAt;
    var es := front + [e];
    forall i | 0 <= i < |tags|
      ensures 0 <= tags[i] < |es| && es[tags[i]].SuspendForPool?
      ensures EnteredAt(Init(), es, tags[i]) == Some(After(Init(), es).pool[i])
    {
      if o[i] < |before| {
        assert tags[i] == before[o[i]] && es[tags[i]] == front[tags[i]];
      } else {
        assert tags[i] == |front| && es[tags[i]] == e;
      }
    }
  }

  // ---------- being woken ----------

  // The waiter that is popped and resumed is queued, or, still switching out, will be when
  // `run_one` has handled its switch.
  lemma PopWakes(s: Sched, es: seq<Event>)
    requires Inv(s) && s.pool != [] && s.pool[0] in s.fibers
    requires s.fibers[s.pool[0]].phase == Waiting || s.fibers[s.pool[0]].phase == Suspending
    requires IsRun(Step(Step(s, PopPool), Resume(s.pool[0])), es) && forall i :: 0 <= i < |es| ==> es[i] != Switched
    ensures var f := s.pool[0];
            var s2 := Step(Step(s, PopPool), Resume(f));
            && s2.pool == s.pool[1..]
            && (s.fibers[f].phase == Waiting ==> f in s2.ready && s2.fibers[f].phase == Ready)
            && (s.fibers[f].phase == Suspending ==>
                  && s2.fibers[f].pending
                  && Enabled(After(s2, es), Switched) && f in Step(After(s2, es), Switched).ready)
  {
    hide Without, Inv, ResumeStep, Step, IsRun, After;
    var f := s.pool[0];
    var s1 := Step(s, PopPool);
    PopStep(s);
    StepInv(s, PopPool);
    WokenStep(s1, f);
    NoLostWakeup(s1, f, es);
    if s.fibers[f].phase == Waiting {
      ResumeWaiting(s1, f);
    }
  }

  lemma PopStep(s: Sched)
    requires s.pool != []
    ensures Enabled(s, PopPool) && Step(s, PopPool) == s.(pool := s.pool[1..])
  {
  }

  lemma WokenStep(s: Sched, f: Id)
    requires f in s.fibers
    ensures Enabled(s, Resume(f)) && Step(s, Resume(f)) == ResumeStep(s, f)
    ensures ResumeStep(s, f).pool == s.pool
    ensures s.fibers[f].phase == Suspending ==> ResumeStep(s, f).fibers[f] == s.fibers[f].(pending := true)
  {
    hide Without;
  }

  // A waiter that someone else resumes keeps its place: the next notification goes to it,
  // and a fiber that does wait stays where it is.
  lemma StaleNotified(s: Sched, f: Id, g: Id)
    requires Inv(s) && s.pool == [f, g] && f != g && f in s.fibers && g in s.fibers
    requires s.fibers[f].phase == Waiting && s.fibers[g].phase == Waiting
    ensures var s1 := Step(s, Resume(f));
            var s2 := Step(Step(s1, PopPool), Resume(f));
            && s1.pool == [f, g] && s1.fibers[f].phase == Ready
            && s2.pool == [g] && s2.fibers[g].phase == Waiting && g !in s2.ready
  {
    hide Without;
    assert InPlace(s, f) && InPlace(s, g);
    InTimes(s.ready, g);
    PushTimes(s.ready, f);
    InTimes(s.ready + [f], g);
  }
}
