/** I/O waits of the scheduler, and jobs run on the offload pool. */
module IoWaits {
  import opened Options
  import opened Scheduler

  // ---------- waiting for a descriptor or a deadline ----------

  ghost predicate HasKey(s: Sched, f: Id) {
    exists k :: k in s.fdFiber && s.fdFiber[k] == f
  }

  ghost predicate InWake(s: Sched, f: Id) {
    exists i :: 0 <= i < |s.wake| && s.wake[i].0 == f
  }

  ghost predicate Awaited(s: Sched, f: Id) {
    HasKey(s, f) || InWake(s, f)
  }

  // The fibers in `io` are woken by the scheduler's own loop only, descriptors waited for
  // are distinct, and a fiber has read its flag before it waits again.
  predicate Allowed(io: set<Id>, s: Sched, e: Event) {
    match e
    case Resume(f) => f !in io
    case Suspend => s.current.Some? && s.current.value !in io
    case SuspendForPool => s.current.Some? && s.current.value !in io
    case WaitFd(fd, _) =>
      && (fd >= 0 ==> fd !in s.fdFiber)
      && s.current.Some? && s.current.value in s.fibers && !s.fibers[s.current.value].timedOut
    case _ => true
  }

  // A fiber of `io` is suspended exactly while it is registered, under one key or in the
  // list of collected waiters, never both; its flag is clear while it waits.
  ghost predicate IoPlace(s: Sched, f: Id)
    requires f in s.fibers
  {
    var fb := s.fibers[f];
    && !fb.pending
    && (forall k1, k2 :: k1 in s.fdFiber && k2 in s.fdFiber && s.fdFiber[k1] == f && s.fdFiber[k2] == f ==> k1 == k2)
    && (forall i, j :: 0 <= i < j < |s.wake| ==> !(s.wake[i].0 == f && s.wake[j].0 == f))
    && !(HasKey(s, f) && InWake(s, f))
    && (Awaited(s, f) <==> fb.phase == Suspending || fb.phase == Waiting)
    && (InWake(s, f) ==> fb.phase == Waiting)
    && (fb.timedOut ==> !Awaited(s, f))
  }

  ghost predicate Keys(s: Sched) {
    && s.timerKey < 0
    && (forall k :: k in s.fdFiber && k < 0 ==> k > s.timerKey)
    && (forall k :: k in s.deadline ==> k in s.fdFiber)
    && (s.wake != [] ==> s.current.None?)
  }

  ghost predicate IoInv(io: set<Id>, s: Sched) {
    Inv(s) && Keys(s) && forall f :: f in io && f in s.fibers ==> IoPlace(s, f)
  }

  // What a step does to one fiber's own record.
  function FiberNext(a: Fiber, e: Event, f: Id, here: bool): Fiber {
    match e
    case Mark => if here then a.(phase := Running) else a
    case Suspend => if here then a.(phase := Suspending) else a
    case SuspendForPool => if here then a.(phase := Suspending) else a
    case WaitFd(_, _) => if here then a.(phase := Suspending) else a
    case ReadTimeout => if here then a.(timedOut := false) else a
    case Return => if here then a.(returned := true) else a
    case Switched =>
      if !here then a
      else if a.returned then a.(phase := Done, pending := false)
      else if a.phase == Suspending && !a.pending then a.(phase := Waiting)
      else a.(phase := Ready, pending := false)
    case Resume(g) => if g == f then FiberResumed(a) else a
    case Wake(g, late) => if g == f then FiberResumed(if late then a.(timedOut := true) else a) else a
    case _ => a
  }

  function FiberResumed(a: Fiber): Fiber {
    if a.phase != Waiting then a.(pending := true) else if a.returned then a else a.(phase := Ready)
  }

  lemma FiberStep(s: Sched, e: Event, f: Id)
    requires Enabled(s, e) && f in s.fibers
    ensures var s2 := Step(s, e); f in s2.fibers && s2.fibers[f] == FiberNext(s.fibers[f], e, f, s.current == Some(f))
  {
    hide Step, FiberNext, Collect, Lists;
    if e.Switched? {
      SwitchFiber(s, f);
    } else if e.Resume? || e.Wake? {
      ResumeFiber(s, e, f);
    } else {
      PlainFiber(s, e, f);
    }
  }

  lemma SwitchFiber(s: Sched, f: Id)
    requires Enabled(s, Switched) && f in s.fibers
    ensures var s2 := Step(s, Switched);
            f in s2.fibers && s2.fibers[f] == FiberNext(s.fibers[f], Switched, f, s.current == Some(f))
  {
    hide Without;
  }

  lemma ResumeFiber(s: Sched, e: Event, f: Id)
    requires (e.Resume? || e.Wake?) && Enabled(s, e) && f in s.fibers
    ensures var s2 := Step(s, e); f in s2.fibers && s2.fibers[f] == FiberNext(s.fibers[f], e, f, s.current == Some(f))
  {
    hide Without, ResumeStep, FiberResumed, Lists;
    if e.Resume? {
      ResumeRecord(s, e.f, f);
    } else {
      ResumeRecord(Flagged(s, e.f, e.late), e.f, f);
    }
  }

  lemma ResumeRecord(s: Sched, g: Id, f: Id)
    requires g in s.fibers && f in s.fibers
    ensures var s2 := ResumeStep(s, g);
            f in s2.fibers && s2.fibers[f] == if g == f then FiberResumed(s.fibers[f]) else s.fibers[f]
  {
    hide Without;
  }

  lemma PlainFiber(s: Sched, e: Event, f: Id)
    requires !e.Switched? && !e.Resume? && !e.Wake? && Enabled(s, e) && f in s.fibers
    ensures var s2 := Step(s, e); f in s2.fibers && s2.fibers[f] == FiberNext(s.fibers[f], e, f, s.current == Some(f))
  {
    hide Collect, Lists, SwitchedStep, ResumeStep;
    if e.Sweep? {
      CollectSame(s, e.order);
    }
  }

  // A step that leaves the registrations, and the phases of all fibers of `io`, as they are.
  lemma SameIo(io: set<Id>, s: Sched, s2: Sched)
    requires IoInv(io, s) && Inv(s2) && Keys(s2)
    requires s2.fdFiber == s.fdFiber && s2.wake == s.wake
    requires forall f :: f in io && f in s2.fibers ==> f in s.fibers
    requires forall f :: f in io && f in s2.fibers ==>
               var a := s.fibers[f]; var b := s2.fibers[f];
               && !b.pending && (b.timedOut ==> a.timedOut || !Awaited(s, f))
               && (b.phase == a.phase || (b.phase != Suspending && a.phase != Suspending && b.phase != Waiting
                                          && a.phase != Waiting)
                   || (a.phase == Suspending && b.phase == Waiting))
    ensures IoInv(io, s2)
  {
    forall f | f in io && f in s2.fibers
      ensures IoPlace(s2, f)
    {
      assert IoPlace(s, f);
      assert HasKey(s2, f) == HasKey(s, f) && InWake(s2, f) == InWake(s, f);
    }
  }

  lemma SpawnIo(io: set<Id>, s: Sched, f: Id)
    requires IoInv(io, s) && Enabled(s, Spawn(f))
    ensures IoInv(io, Step(s, Spawn(f)))
  {
    StepInv(s, Spawn(f));
    var s2 := Step(s, Spawn(f));
    forall g | g in io && g in s2.fibers
      ensures IoPlace(s2, g)
    {
      assert HasKey(s2, g) == HasKey(s, g) && InWake(s2, g) == InWake(s, g);
      if g == f {
        assert !HasKey(s, f) && !InWake(s, f);
      } else {
        assert IoPlace(s, g);
      }
    }
  }

  lemma WaitFdIo(io: set<Id>, s: Sched, fd: int, until: Option<int>)
    requires IoInv(io, s) && Enabled(s, WaitFd(fd, until)) && Allowed(io, s, WaitFd(fd, until))
    ensures IoInv(io, Step(s, WaitFd(fd, until)))
    ensures Awaited(Step(s, WaitFd(fd, until)), s.current.value)
  {
    StepInv(s, WaitFd(fd, until));
    var s2 := Step(s, WaitFd(fd, until));
    var key := if fd < 0 then s.timerKey else fd;
    var f := s.current.value;
    assert key !in s.fdFiber && key in s2.fdFiber && s2.fdFiber[key] == f;
    assert InPlace(s, f);
    forall g | g in io && g in s2.fibers
      ensures IoPlace(s2, g)
    {
      assert IoPlace(s, g);
      assert InWake(s2, g) == InWake(s, g);
      if g != f {
        forall k | k in s.fdFiber && s.fdFiber[k] == g
          ensures k in s2.fdFiber && s2.fdFiber[k] == g
        {
        }
        assert HasKey(s2, g) == HasKey(s, g);
      }
    }
  }

  // One registration is taken out and put on the list.
  lemma MoveIo(io: set<Id>, s: Sched, k: int, late: bool)
    requires IoInv(io, s) && s.current.None? && k in s.fdFiber
    ensures var s2 := s.(deadline := s.deadline - {k}, fdFiber := s.fdFiber - {k},
                         wake := s.wake + [(s.fdFiber[k], late)]);
            IoInv(io, s2)
  {
    var s2 := s.(deadline := s.deadline - {k}, fdFiber := s.fdFiber - {k}, wake := s.wake + [(s.fdFiber[k], late)]);
    SameQueues(s, s2);
    forall g | g in io && g in s2.fibers
      ensures IoPlace(s2, g)
    {
      MovePlace(s, s2, k, late, g);
    }
  }

  lemma MovePlace(s: Sched, s2: Sched, k: int, late: bool, g: Id)
    requires Inv(s) && s.current.None? && k in s.fdFiber && g in s.fibers && IoPlace(s, g)
    requires s2 == s.(deadline := s.deadline - {k}, fdFiber := s.fdFiber - {k}, wake := s.wake + [(s.fdFiber[k], late)])
    ensures IoPlace(s2, g)
  {
    var n := |s.wake|;
    assert InPlace(s, g);
    assert s2.wake[n].0 == s.fdFiber[k];
    assert forall i :: 0 <= i < n ==> s2.wake[i] == s.wake[i];
    if s.fdFiber[k] == g {
      assert HasKey(s, g) && InWake(s2, g);
    } else {
      if HasKey(s, g) {
        var k1 :| k1 in s.fdFiber && s.fdFiber[k1] == g;
        assert k1 in s2.fdFiber;
      }
      if InWake(s, g) {
        var i :| 0 <= i < n && s.wake[i].0 == g;
        assert s2.wake[i].0 == g;
      }
      assert HasKey(s2, g) == HasKey(s, g) && InWake(s2, g) == InWake(s, g);
    }
  }

  lemma {:induction false} CollectIo(io: set<Id>, s: Sched, order: seq<int>)
    requires IoInv(io, s) && s.current.None? && forall i :: 0 <= i < |order| ==> order[i] in s.deadline
    requires forall i, j :: 0 <= i < j < |order| ==> order[i] != order[j]
    ensures IoInv(io, Collect(s, order))
    decreases |order|
  {
    if order != [] {
      var k := order[0];
      MoveIo(io, s, k, true);
      var s2 := s.(deadline := s.deadline - {k}, fdFiber := s.fdFiber - {k}, wake := s.wake + [(s.fdFiber[k], true)]);
      assert forall i :: 0 <= i < |order[1..]| ==> order[1..][i] == order[i + 1];
      CollectIo(io, s2, order[1..]);
    }
  }

  lemma WakeIo(io: set<Id>, s: Sched, f: Id, late: bool)
    requires IoInv(io, s) && Enabled(s, Wake(f, late))
    ensures IoInv(io, Step(s, Wake(f, late)))
    ensures f in io ==> Awaited(s, f) && !Awaited(Step(s, Wake(f, late)), f) && f in Step(s, Wake(f, late)).ready
    ensures f in io ==> Step(s, Wake(f, late)).fibers[f].timedOut == late
  {
    StepInv(s, Wake(f, late));
    var s2 := Step(s, Wake(f, late));
    assert s.wake[0].0 == f;
    assert InWake(s, f);
    forall g | g in io && g in s2.fibers
      ensures IoPlace(s2, g)
      ensures g == f ==> !Awaited(s2, f)
    {
      WakePlace(s, s2, f, late, g);
    }
    if f in io {
      assert IoPlace(s, f);
    }
  }

  lemma WakePlace(s: Sched, s2: Sched, f: Id, late: bool, g: Id)
    requires Inv(s) && Enabled(s, Wake(f, late)) && s2 == Step(s, Wake(f, late)) && g in s.fibers && IoPlace(s, g)
    ensures IoPlace(s2, g)
    ensures g == f ==> !Awaited(s2, f)
  {
    assert s.wake[0].0 == f;
    assert s2.fdFiber == s.fdFiber && s2.wake == s.wake[1..];
    assert InPlace(s, g);
    assert HasKey(s2, g) == HasKey(s, g);
    if g == f {
      assert InWake(s, f);
      forall i | 0 <= i < |s2.wake|
        ensures s2.wake[i].0 != f
      {
        assert s2.wake[i] == s.wake[i + 1];
      }
    } else {
      assert InWake(s2, g) == InWake(s, g) by {
        if InWake(s, g) {
          var i :| 0 <= i < |s.wake| && s.wake[i].0 == g;
          assert s2.wake[i - 1].0 == g;
        }
      }
    }
  }

  // Every step of a run in which only the loop wakes the fibers of `io` keeps the relation
  // between their phases and their registrations.
  lemma StepIo(io: set<Id>, s: Sched, e: Event)
    requires IoInv(io, s) && Enabled(s, e) && Allowed(io, s, e)
    ensures IoInv(io, Step(s, e))
  {
    hide IoPlace, InPlace, Collect;
    StepInv(s, e);
    match e
    case Spawn(f) => SpawnIo(io, s, f);
    case WaitFd(fd, until) => WaitFdIo(io, s, fd, until);
    case Event(fd) =>
      if fd in s.fdFiber {
        MoveIo(io, s, fd, false);
      } else {
        assert s.deadline - {fd} == s.deadline;
        SameIo(io, s, Step(s, e)) by {
          Clear(io, s);
        }
      }
    case Sweep(now, order) =>
      forall i | 0 <= i < |order|
        ensures order[i] in s.deadline
      {
        Listed(order, Expired(s, now), i);
      }
      CollectIo(io, s, order);
    case Wake(f, late) => WakeIo(io, s, f, late);
    case _ => OtherIo(io, s, e);
  }

  lemma Clear(io: set<Id>, s: Sched)
    requires IoInv(io, s)
    ensures forall f :: f in io && f in s.fibers ==> !s.fibers[f].pending
  {
    forall f | f in io && f in s.fibers
      ensures !s.fibers[f].pending
    {
      assert IoPlace(s, f);
    }
  }

  lemma OtherIo(io: set<Id>, s: Sched, e: Event)
    requires IoInv(io, s) && Enabled(s, e) && Allowed(io, s, e)
    requires !e.Spawn? && !e.WaitFd? && !e.Event? && !e.Sweep? && !e.Wake?
    ensures IoInv(io, Step(s, e))
  {
    hide InPlace, IoPlace, Known, Step;
    StepInv(s, e);
    OtherTables(s, e);
    var s2 := Step(s, e);
    forall f | f in io && f in s2.fibers
      ensures f in s.fibers && !s2.fibers[f].pending
      ensures var a := s.fibers[f]; var b := s2.fibers[f];
              && (b.timedOut ==> a.timedOut)
              && (b.phase == a.phase || (b.phase != Suspending && a.phase != Suspending && b.phase != Waiting
                                         && a.phase != Waiting)
                  || (a.phase == Suspending && b.phase == Waiting))
    {
      FiberStep(s, e, f);
      PlaceHere(s, f);
      Clear(io, s);
    }
    SameIo(io, s, s2);
  }

  // The phases a fiber with `run_one` can be in.
  lemma PlaceHere(s: Sched, f: Id)
    requires Inv(s) && f in s.fibers
    ensures s.current == Some(f) && !s.marked ==> s.fibers[f].phase == Ready
    ensures s.current == Some(f) && s.marked ==> s.fibers[f].phase == Running || s.fibers[f].phase == Suspending
    ensures s.current != Some(f) ==> s.fibers[f].phase != Running && s.fibers[f].phase != Suspending
    ensures s.fibers[f].returned ==> s.fibers[f].phase == Done || s.fibers[f].phase == Running
  {
    assert InPlace(s, f);
  }

  lemma OtherTables(s: Sched, e: Event)
    requires Keys(s) && Enabled(s, e) && !e.Spawn? && !e.WaitFd? && !e.Event? && !e.Sweep? && !e.Wake?
    ensures var s2 := Step(s, e);
            Keys(s2) && s2.fdFiber == s.fdFiber && s2.wake == s.wake && s2.fibers.Keys == s.fibers.Keys
  {
  }

  ghost predicate AllAllowed(io: set<Id>, s: Sched, es: seq<Event>)
    requires IsRun(s, es)
    decreases |es|
  {
    es == [] || (Allowed(io, s, es[0]) && AllAllowed(io, Step(s, es[0]), es[1..]))
  }

  // How often `f` started to wait in the run, and how often the loop resumed it.
  ghost function Waits(s: Sched, es: seq<Event>, f: Id): nat
    requires IsRun(s, es)
    decreases |es|
  {
    if es == [] then 0
    else (if es[0].WaitFd? && s.current == Some(f) then 1 else 0) + Waits(Step(s, es[0]), es[1..], f)
  }

  ghost function Wakes(es: seq<Event>, f: Id): nat
    decreases |es|
  {
    if es == [] then 0 else (if es[0].Wake? && es[0].f == f then 1 else 0) + Wakes(es[1..], f)
  }

  ghost function Open(s: Sched, f: Id): nat {
    if Awaited(s, f) then 1 else 0
  }

  lemma {:induction false} ResolveFrom(io: set<Id>, s: Sched, es: seq<Event>, f: Id)
    requires IoInv(io, s) && IsRun(s, es) && AllAllowed(io, s, es) && f in io
    ensures IoInv(io, After(s, es))
    ensures Open(s, f) + Waits(s, es, f) == Wakes(es, f) + Open(After(s, es), f)
    decreases |es|
  {
    if es != [] {
      StepIo(io, s, es[0]);
      OpenStep(io, s, es[0], f);
      ResolveFrom(io, Step(s, es[0]), es[1..], f);
    }
  }

  // A wait opens when the fiber starts it, closes when the loop resumes it, and at no other
  // step.
  lemma OpenStep(io: set<Id>, s: Sched, e: Event, f: Id)
    requires IoInv(io, s) && Enabled(s, e) && Allowed(io, s, e) && f in io
    ensures Open(s, f) + (if e.WaitFd? && s.current == Some(f) then 1 else 0)
         == (if e.Wake? && e.f == f then 1 else 0) + Open(Step(s, e), f)
  {
    hide IoPlace, InPlace, Step, Awaited;
    StepIo(io, s, e);
    var s2 := Step(s, e);
    if f !in s.fibers {
      NotSpawned(io, s, e, f);
    } else {
      OpenOut(io, s, f);
      FiberStep(s, e, f);
      OpenOut(io, s2, f);
      PlaceHere(s, f);
      Clear(io, s);
      if e.Wake? && e.f == f {
        WakesWaiting(io, s, f, e.late);
      }
    }
  }

  ghost predicate Out(fb: Fiber) {
    fb.phase == Suspending || fb.phase == Waiting
  }

  lemma OpenOut(io: set<Id>, s: Sched, f: Id)
    requires IoInv(io, s) && f in io && f in s.fibers
    ensures Awaited(s, f) <==> Out(s.fibers[f])
  {
    assert IoPlace(s, f);
  }

  lemma WakesWaiting(io: set<Id>, s: Sched, f: Id, late: bool)
    requires IoInv(io, s) && f in io && Enabled(s, Wake(f, late))
    ensures s.fibers[f].phase == Waiting && !s.fibers[f].returned
  {
    assert IoPlace(s, f) && InPlace(s, f);
    assert s.wake[0].0 == f;
  }

  lemma NotSpawned(io: set<Id>, s: Sched, e: Event, f: Id)
    requires IoInv(io, s) && Enabled(s, e) && f in io && f !in s.fibers && IoInv(io, Step(s, e))
    ensures s.current != Some(f) && !(e.Wake? && e.f == f) && !Awaited(s, f) && !Awaited(Step(s, e), f)
  {
    hide Step, InPlace, IoPlace, Awaited;
    var s2 := Step(s, e);
    Unknown(s, f);
    if f in s2.fibers {
      OnlySpawn(s, e, f);
      OpenOut(io, s2, f);
    } else {
      Unknown(s2, f);
    }
  }

  lemma Unknown(s: Sched, f: Id)
    requires Inv(s) && f !in s.fibers
    ensures !Awaited(s, f) && s.current != Some(f) && (s.wake != [] ==> s.wake[0].0 != f)
  {
  }

  lemma OnlySpawn(s: Sched, e: Event, f: Id)
    requires Enabled(s, e) && f !in s.fibers && f in Step(s, e).fibers
    ensures e == Spawn(f) && Step(s, e).fibers[f].phase == Ready && !Step(s, e).fibers[f].timedOut
  {
    hide Step;
    if e.Spawn? {
      SpawnOne(s, e, f);
    } else if e.Switched? {
      NotBySwitch(s, f);
    } else if e.Resume? || e.Wake? {
      NotByResume(s, e, f);
    } else {
      NotByOthers(s, e, f);
    }
  }

  lemma SpawnOne(s: Sched, e: Event, f: Id)
    requires e.Spawn? && Enabled(s, e) && f !in s.fibers && f in Step(s, e).fibers
    ensures e == Spawn(f) && Step(s, e).fibers[f].phase == Ready && !Step(s, e).fibers[f].timedOut
  {
  }

  lemma NotBySwitch(s: Sched, f: Id)
    requires Enabled(s, Switched) && f !in s.fibers
    ensures f !in Step(s, Switched).fibers
  {
  }

  lemma NotByResume(s: Sched, e: Event, f: Id)
    requires (e.Resume? || e.Wake?) && Enabled(s, e) && f !in s.fibers
    ensures f !in Step(s, e).fibers
  {
    hide Without, Collect, Expired, Lists, ResumeStep;
    if e.Resume? {
      ResumeKeys(s, e.f);
    } else {
      ResumeKeys(Flagged(s, e.f, e.late), e.f);
    }
  }

  lemma ResumeKeys(s: Sched, g: Id)
    requires g in s.fibers
    ensures ResumeStep(s, g).fibers.Keys == s.fibers.Keys
  {
  }

  lemma NotByOthers(s: Sched, e: Event, f: Id)
    requires !e.Spawn? && !e.Switched? && !e.Resume? && !e.Wake? && Enabled(s, e) && f !in s.fibers
    ensures f !in Step(s, e).fibers
  {
    hide Collect, ResumeStep, SwitchedStep, Expired, Lists;
    if e.Sweep? {
      CollectSame(s, e.order);
    }
  }

  // Each wait is resumed exactly once, by its event or by its deadline: over every run the
  // waits `f` started are the resumptions it got, plus one if it is waiting now.
  lemma WaitsResolveOnce(io: set<Id>, es: seq<Event>, f: Id)
    requires IsRun(Init(), es) && AllAllowed(io, Init(), es) && f in io
    ensures var s := After(Init(), es);
            && Waits(Init(), es, f) == Wakes(es, f) + (if Awaited(s, f) then 1 else 0)
            && (f in s.fibers ==> (Awaited(s, f) <==> Out(s.fibers[f])))
  {
    assert !Awaited(Init(), f);
    ResolveFrom(io, Init(), es, f);
    var s := After(Init(), es);
    if f in s.fibers {
      assert IoPlace(s, f);
    }
  }

  // A sweep collects exactly the waiters whose deadline has passed, flagged as late, and
  // leaves all other registrations alone; an event collects its own waiter, not flagged.
  lemma {:induction false} SweepExact(s: Sched, order: seq<int>)
    requires forall i, j :: 0 <= i < j < |order| ==> order[i] != order[j]
    requires forall i :: 0 <= i < |order| ==> order[i] in s.fdFiber
    ensures var s2 := Collect(s, order);
            && (forall k :: k in s2.fdFiber <==> k in s.fdFiber && k !in order)
            && (forall k :: k in s2.fdFiber ==> s2.fdFiber[k] == s.fdFiber[k])
            && (forall k :: k in s2.deadline <==> k in s.deadline && k !in order)
            && s2.wake == s.wake + seq(|order|, i requires 0 <= i < |order| => (s.fdFiber[order[i]], true))
    decreases |order|
  {
    if order != [] {
      var k := order[0];
      var s2 := s.(deadline := s.deadline - {k}, fdFiber := s.fdFiber - {k}, wake := s.wake + [(s.fdFiber[k], true)]);
      var rest := order[1..];
      assert forall i :: 0 <= i < |rest| ==> rest[i] == order[i + 1];
      SweepExact(s2, rest);
      assert order == [k] + rest;
      assert Collect(s, order) == Collect(s2, rest);
      SweepWake(s, order);
    }
  }

  lemma SweepWake(s: Sched, order: seq<int>)
    requires order != [] && forall i :: 0 <= i < |order| ==> order[i] in s.fdFiber
    requires forall i, j :: 0 <= i < j < |order| ==> order[i] != order[j]
    ensures var rest := order[1..];
            && (forall i :: 0 <= i < |rest| ==> rest[i] in s.fdFiber - {order[0]})
            && s.wake + [(s.fdFiber[order[0]], true)]
                 + seq(|rest|, i requires 0 <= i < |rest| => ((s.fdFiber - {order[0]})[rest[i]], true))
               == s.wake + seq(|order|, i requires 0 <= i < |order| => (s.fdFiber[order[i]], true))
  {
  }

  // ---------- what the flag says ----------

  ghost predicate SweepTakes(s: Sched, e: Event, f: Id) {
    e.Sweep? && exists i :: 0 <= i < |e.order| && e.order[i] in s.fdFiber && s.fdFiber[e.order[i]] == f
  }

  predicate EventTakes(s: Sched, e: Event, f: Id) {
    e.Event? && e.fd in s.fdFiber && s.fdFiber[e.fd] == f
  }

  // How `f` was last taken off the tables since it last read its flag: by a deadline sweep
  // (true) or by an event (false).
  ghost function Taken(s: Sched, e: Event, f: Id, was: Option<bool>): Option<bool> {
    if SweepTakes(s, e, f) then Some(true)
    else if EventTakes(s, e, f) then Some(false)
    else if e.ReadTimeout? && s.current == Some(f) then None
    else was
  }

  ghost function LastTaken(s: Sched, es: seq<Event>, f: Id, was: Option<bool>): Option<bool>
    requires IsRun(s, es)
    decreases |es|
  {
    if es == [] then was else LastTaken(Step(s, es[0]), es[1..], f, Taken(s, es[0], f, was))
  }

  // A collected waiter carries the way it was taken; otherwise its flag tells it.
  ghost predicate FlagTells(s: Sched, f: Id, was: Option<bool>) {
    && (forall i :: 0 <= i < |s.wake| && s.wake[i].0 == f ==> was == Some(s.wake[i].1))
    && (!InWake(s, f) ==> (was == Some(true) <==> f in s.fibers && s.fibers[f].timedOut))
  }

  lemma FlagStep(io: set<Id>, s: Sched, e: Event, f: Id, was: Option<bool>)
    requires IoInv(io, s) && Enabled(s, e) && Allowed(io, s, e) && f in io && FlagTells(s, f, was)
    ensures FlagTells(Step(s, e), f, Taken(s, e, f, was))
  {
    hide IoPlace, InPlace, Step, Collect, Lists, Allowed, Keys;
    StepIo(io, s, e);
    var s2 := Step(s, e);
    if f !in s.fibers {
      NotSpawned(io, s, e, f);
      UntakenNew(s, e, f);
    } else {
      FiberStep(s, e, f);
      FlagOut(io, s, f);
      match e
      case Sweep(now, order) => SweepFlags(s, now, order, f, was);
      case Event(fd) => EventFlags(s, fd, f, was);
      case Wake(g, late) => WakeFlags(io, s, g, late, f, was);
      case _ => WakeSame(s, e);
    }
  }

  lemma FlagOut(io: set<Id>, s: Sched, f: Id)
    requires IoInv(io, s) && f in io && f in s.fibers
    ensures s.fibers[f].timedOut ==> !Awaited(s, f)
    ensures s.current.Some? ==> s.wake == []
  {
    assert IoPlace(s, f);
  }

  lemma TakenKey(s: Sched, e: Event, f: Id)
    ensures SweepTakes(s, e, f) || EventTakes(s, e, f) ==> HasKey(s, f)
  {
    if SweepTakes(s, e, f) {
      var i :| 0 <= i < |e.order| && e.order[i] in s.fdFiber && s.fdFiber[e.order[i]] == f;
      KeyIs(s, e.order[i]);
    } else if EventTakes(s, e, f) {
      KeyIs(s, e.fd);
    }
  }

  lemma KeyIs(s: Sched, k: int)
    requires k in s.fdFiber
    ensures HasKey(s, s.fdFiber[k])
  {
  }

  lemma UntakenNew(s: Sched, e: Event, f: Id)
    requires Inv(s) && Enabled(s, e) && f !in s.fibers
    ensures Taken(s, e, f, None) == None && Taken(s, e, f, Some(false)) == Some(false)
    ensures forall i :: 0 <= i < |s.wake| ==> s.wake[i].0 != f
    ensures f in Step(s, e).fibers ==> !Step(s, e).fibers[f].timedOut
  {
    hide Step, SweepTakes, EventTakes;
    Unknown(s, f);
    TakenKey(s, e, f);
    if f in Step(s, e).fibers {
      OnlySpawn(s, e, f);
    }
  }

  lemma SweepFlags(s: Sched, now: int, order: seq<int>, f: Id, was: Option<bool>)
    requires Keys(s) && Enabled(s, Sweep(now, order)) && FlagTells(s, f, was)
    ensures FlagTells(Step(s, Sweep(now, order)), f, Taken(s, Sweep(now, order), f, was))
  {
    hide Collect, Step, Enabled, Keys, InWake, Awaited, HasKey;
    SweepOrder(s, now, order);
    SweepExact(s, order);
    CollectSame(s, order);
    var s2 := Collect(s, order);
    assert s.wake == [] && |s2.wake| == |order|;
    assert forall i :: 0 <= i < |order| ==> s2.wake[i] == (s.fdFiber[order[i]], true);
    SweepList(s, s2.wake, order, f);
    assert !InWake(s, f) by {
      NobodyThere(s, f);
    }
    InWakeIs(s2, f);
  }

  lemma NobodyThere(s: Sched, f: Id)
    requires s.wake == []
    ensures !InWake(s, f)
  {
  }

  lemma InWakeIs(s: Sched, f: Id)
    ensures InWake(s, f) <==> exists i :: 0 <= i < |s.wake| && s.wake[i].0 == f
  {
  }

  lemma SweepList(s: Sched, wake: seq<(Id, bool)>, order: seq<int>, f: Id)
    requires forall i :: 0 <= i < |order| ==> order[i] in s.fdFiber
    requires |wake| == |order| && forall i :: 0 <= i < |order| ==> wake[i] == (s.fdFiber[order[i]], true)
    ensures (exists i :: 0 <= i < |order| && order[i] in s.fdFiber && s.fdFiber[order[i]] == f)
       <==> exists i :: 0 <= i < |wake| && wake[i].0 == f
    ensures forall i :: 0 <= i < |wake| ==> wake[i].1
  {
    if exists i :: 0 <= i < |order| && order[i] in s.fdFiber && s.fdFiber[order[i]] == f {
      var i :| 0 <= i < |order| && order[i] in s.fdFiber && s.fdFiber[order[i]] == f;
      assert wake[i].0 == f;
    }
    if exists i :: 0 <= i < |wake| && wake[i].0 == f {
      var i :| 0 <= i < |wake| && wake[i].0 == f;
      assert order[i] in s.fdFiber && s.fdFiber[order[i]] == f;
    }
  }

  lemma DeadlineKey(s: Sched, k: int)
    requires Keys(s)
    ensures k in s.deadline ==> k in s.fdFiber
  {
  }

  lemma SweepOrder(s: Sched, now: int, order: seq<int>)
    requires Keys(s) && Enabled(s, Sweep(now, order))
    ensures forall i :: 0 <= i < |order| ==> order[i] in s.fdFiber
    ensures forall i, j :: 0 <= i < j < |order| ==> order[i] != order[j]
    ensures s.wake == [] && Step(s, Sweep(now, order)) == Collect(s, order)
  {
    hide Collect;
    forall i | 0 <= i < |order|
      ensures order[i] in s.fdFiber
    {
      Listed(order, Expired(s, now), i);
      DeadlineKey(s, order[i]);
    }
  }

  lemma EventFlags(s: Sched, fd: int, f: Id, was: Option<bool>)
    requires Enabled(s, Event(fd)) && FlagTells(s, f, was)
    ensures FlagTells(Step(s, Event(fd)), f, Taken(s, Event(fd), f, was))
  {
    var s2 := Step(s, Event(fd));
    assert s.wake == [];
    if EventTakes(s, Event(fd), f) {
      assert s2.wake[0].0 == f;
    }
  }

  lemma WakeFlags(io: set<Id>, s: Sched, g: Id, late: bool, f: Id, was: Option<bool>)
    requires IoInv(io, s) && Enabled(s, Wake(g, late)) && f in io && f in s.fibers && FlagTells(s, f, was)
    ensures FlagTells(Step(s, Wake(g, late)), f, was)
  {
    hide IoPlace, InPlace, Without, Keys;
    var s2 := Step(s, Wake(g, late));
    FiberStep(s, Wake(g, late), f);
    assert s2.wake == s.wake[1..];
    assert s.wake[0] == (g, late);
    forall i | 0 <= i < |s2.wake|
      ensures s2.wake[i] == s.wake[i + 1]
    {
    }
    if g == f {
      WakeIo(io, s, f, late);
    } else if InWake(s, f) {
      var i :| 0 <= i < |s.wake| && s.wake[i].0 == f;
      assert s2.wake[i - 1].0 == f;
    }
  }

  lemma WakeSame(s: Sched, e: Event)
    requires Enabled(s, e) && !e.Sweep? && !e.Event? && !e.Wake?
    ensures Step(s, e).wake == s.wake
  {
    hide Without;
  }

  lemma {:induction false} FlagFrom(io: set<Id>, s: Sched, es: seq<Event>, f: Id, was: Option<bool>)
    requires IoInv(io, s) && IsRun(s, es) && AllAllowed(io, s, es) && f in io && FlagTells(s, f, was)
    ensures IoInv(io, After(s, es)) && FlagTells(After(s, es), f, LastTaken(s, es, f, was))
    decreases |es|
  {
    hide IoPlace, InPlace, Step, Allowed, Taken, FlagTells;
    if es != [] {
      StepIo(io, s, es[0]);
      FlagStep(io, s, es[0], f, was);
      FlagFrom(io, Step(s, es[0]), es[1..], f, Taken(s, es[0], f, was));
    }
  }

  // Over every run: when `f` reads its timeout flag, it reads true exactly when its last wake,
  // since the read before, was by a deadline sweep.
  lemma TimeoutExact(io: set<Id>, es: seq<Event>, f: Id)
    requires IsRun(Init(), es) && AllAllowed(io, Init(), es) && f in io
    requires After(Init(), es).current == Some(f) && Enabled(After(Init(), es), ReadTimeout)
    ensures After(Init(), es).fibers[f].timedOut <==> LastTaken(Init(), es, f, None) == Some(true)
  {
    hide Step;
    FlagFrom(io, Init(), es, f, None);
    FlagOut(io, After(Init(), es), f);
  }

  // ---------- deadlines over runs ----------

  // The key a wait registers under.
  function KeyOf(s: Sched, fd: int): int {
    if fd < 0 then s.timerKey else fd
  }

  // Nothing takes or replaces the registration `k`, and no sweep comes at or after `until`.
  ghost predicate Undisturbed(s: Sched, es: seq<Event>, k: int, until: Option<int>)
    requires IsRun(s, es)
    decreases |es|
  {
    es == [] ||
    (&& es[0] != Event.Event(k)
     && !(es[0].WaitFd? && KeyOf(s, es[0].fd) == k)
     && (es[0].Sweep? && until.Some? ==> es[0].now < until.value)
     && Undisturbed(Step(s, es[0]), es[1..], k, until))
  }

  ghost predicate Registered(s: Sched, k: int, f: Id, until: Option<int>) {
    && k in s.fdFiber && s.fdFiber[k] == f
    && (if until.Some? then k in s.deadline && s.deadline[k] == until.value else k !in s.deadline)
  }

  lemma {:induction false} CollectKey(s: Sched, order: seq<int>, k: int)
    ensures var s2 := Collect(s, order);
            && s.wake <= s2.wake
            && (k in order ==> k !in s2.fdFiber && k !in s2.deadline)
            && (k in order && k in s.fdFiber ==> (s.fdFiber[k], true) in s2.wake)
            && (k !in order ==>
                  && (k in s2.fdFiber <==> k in s.fdFiber) && (k in s2.deadline <==> k in s.deadline)
                  && (k in s.fdFiber ==> s2.fdFiber[k] == s.fdFiber[k])
                  && (k in s.deadline ==> s2.deadline[k] == s.deadline[k]))
    decreases |order|
  {
    if order != [] {
      var h := order[0];
      var s1 := s.(deadline := s.deadline - {h});
      var s2 := if h in s.fdFiber then s1.(fdFiber := s.fdFiber - {h}, wake := s.wake + [(s.fdFiber[h], true)]) else s1;
      CollectKey(s2, order[1..], k);
      if h == k && k in s.fdFiber {
        assert s2.wake[|s.wake|] == (s.fdFiber[k], true);
        assert Collect(s2, order[1..]).wake[|s.wake|] == (s.fdFiber[k], true);
      }
      if h == k && k !in order[1..] {
        assert k !in s2.fdFiber && k !in s2.deadline;
      }
      if k in order[1..] && k in s.fdFiber && h != k {
        assert k in s2.fdFiber;
      }
    }
  }

  lemma RegisteredStep(s: Sched, e: Event, k: int, f: Id, until: Option<int>)
    requires Enabled(s, e) && Registered(s, k, f, until)
    requires e != Event.Event(k) && !(e.WaitFd? && KeyOf(s, e.fd) == k)
    requires e.Sweep? && until.Some? ==> e.now < until.value
    ensures Registered(Step(s, e), k, f, until)
  {
    hide Without, Collect;
    if e.Sweep? {
      CollectKey(s, e.order, k);
    }
  }

  lemma {:induction false} StaysRegistered(s: Sched, es: seq<Event>, k: int, f: Id, until: Option<int>)
    requires IsRun(s, es) && Registered(s, k, f, until) && Undisturbed(s, es, k, until)
    ensures Registered(After(s, es), k, f, until)
    decreases |es|
  {
    hide Step, Registered;
    if es != [] {
      RegisteredStep(s, es[0], k, f, until);
      StaysRegistered(Step(s, es[0]), es[1..], k, f, until);
    }
  }

  // A wait with a deadline: whatever happens meanwhile, the first sweep at or after that very
  // moment collects the fiber as late, an earlier one leaves it, and an event on the
  // descriptor collects it in time.
  lemma DeadlineExact(s: Sched, fd: int, until: int, es: seq<Event>, now: int, order: seq<int>)
    requires Enabled(s, WaitFd(fd, Some(until))) && IsRun(Step(s, WaitFd(fd, Some(until))), es)
    requires Undisturbed(Step(s, WaitFd(fd, Some(until))), es, KeyOf(s, fd), Some(until))
    ensures var k, f := KeyOf(s, fd), s.current.value;
            var s2 := After(Step(s, WaitFd(fd, Some(until))), es);
            && (Enabled(s2, Sweep(now, order)) && until <= now ==>
                  var s3 := Step(s2, Sweep(now, order)); (f, true) in s3.wake && k !in s3.fdFiber)
            && (Enabled(s2, Sweep(now, order)) && now < until ==>
                  var s3 := Step(s2, Sweep(now, order)); k in s3.fdFiber && s3.fdFiber[k] == f)
            && (Enabled(s2, Event.Event(k)) ==>
                  var s3 := Step(s2, Event.Event(k)); s3.wake == s2.wake + [(f, false)] && k !in s3.fdFiber)
  {
    hide Without, Collect, IsRun, After, Undisturbed;
    var s1 := Step(s, WaitFd(fd, Some(until)));
    assert Registered(s1, KeyOf(s, fd), s.current.value, Some(until));
    StaysRegistered(s1, es, KeyOf(s, fd), s.current.value, Some(until));
    CollectKey(After(s1, es), order, KeyOf(s, fd));
  }

  // A wait without one, on a descriptor without a left-over deadline: no sweep takes it.
  lemma NoDeadline(s: Sched, fd: int, es: seq<Event>, now: int, order: seq<int>)
    requires Enabled(s, WaitFd(fd, None)) && IsRun(Step(s, WaitFd(fd, None)), es) && fd !in s.deadline
    requires Undisturbed(Step(s, WaitFd(fd, None)), es, fd, None)
    ensures var s2 := After(Step(s, WaitFd(fd, None)), es);
            Enabled(s2, Sweep(now, order)) ==>
              var s3 := Step(s2, Sweep(now, order)); fd in s3.fdFiber && s3.fdFiber[fd] == s.current.value
  {
    hide Without, Collect, IsRun, After, Undisturbed;
    var s1 := Step(s, WaitFd(fd, None));
    assert Registered(s1, fd, s.current.value, None);
    StaysRegistered(s1, es, fd, s.current.value, None);
    CollectKey(After(s1, es), order, fd);
  }

  // The wait in the source that never expires can: a second wait on a descriptor keeps the
  // deadline of the first.
  lemma DeadlineInherited(s: Sched, fd: int)
    requires Enabled(s, WaitFd(fd, None)) && fd in s.deadline
    ensures var s2 := Step(s, WaitFd(fd, None));
            s2.fdFiber[fd] == s.current.value && fd in s2.deadline && s2.deadline[fd] == s.deadline[fd]
  {
  }

  // Two fibers on one descriptor: the second registration replaces the first, whose fiber
  // then waits with nobody to wake it, whatever the loop does, until someone else resumes it.
  lemma SharedFdLosesWaiter(s: Sched, fd: int, until: Option<int>, g: Id)
    requires Inv(s) && Enabled(s, WaitFd(fd, until)) && fd >= 0
    requires g in s.fibers && s.fibers[g].phase == Waiting && !InWake(s, g)
    requires fd in s.fdFiber && forall k :: k in s.fdFiber ==> (s.fdFiber[k] == g <==> k == fd)
    ensures var s2 := Step(s, WaitFd(fd, until)); s2.fibers[g].phase == Waiting && !Awaited(s2, g)
  {
    var s2 := Step(s, WaitFd(fd, until));
    assert InPlace(s, g);
    assert s2.wake == s.wake;
  }

  lemma {:induction false} LostForGood(s: Sched, es: seq<Event>, g: Id)
    requires Inv(s) && IsRun(s, es) && g in s.fibers && s.fibers[g].phase == Waiting && !Awaited(s, g)
    requires forall i :: 0 <= i < |es| ==> es[i] != Resume(g)
    ensures var s2 := After(s, es); g in s2.fibers && s2.fibers[g].phase == Waiting && !Awaited(s2, g)
    decreases |es|
  {
    if es != [] {
      LostStep(s, es[0], g);
      StepInv(s, es[0]);
      LostForGood(Step(s, es[0]), es[1..], g);
    }
  }

  lemma LostStep(s: Sched, e: Event, g: Id)
    requires Inv(s) && Enabled(s, e) && e != Resume(g)
    requires g in s.fibers && s.fibers[g].phase == Waiting && !Awaited(s, g)
    ensures var s2 := Step(s, e); g in s2.fibers && s2.fibers[g].phase == Waiting && !Awaited(s2, g)
  {
    hide Step, InPlace, Awaited;
    FiberStep(s, e, g);
    PlaceHere(s, g);
    StillUnawaited(s, e, g);
  }

  lemma StillUnawaited(s: Sched, e: Event, g: Id)
    requires Enabled(s, e) && !Awaited(s, g) && s.current != Some(g)
    ensures !Awaited(Step(s, e), g)
    ensures !(e.Wake? && e.f == g)
  {
    hide Collect, Without, Expired, Lists;
    assert forall i :: 0 <= i < |s.wake| ==> s.wake[i].0 != g;
    match e
    case Sweep(_, order) => CollectOnly(s, order, g);
    case Wake(f, late) => UnawaitedWake(s, f, late, g);
    case Event(fd) =>
      var s2 := Step(s, e);
      assert s.wake == [] && |s2.wake| <= 1;
    case _ =>
      var s2 := Step(s, e);
      assert s2.wake == s.wake;
  }

  lemma UnawaitedWake(s: Sched, f: Id, late: bool, g: Id)
    requires Enabled(s, Wake(f, late)) && !Awaited(s, g)
    ensures !Awaited(Step(s, Wake(f, late)), g) && f != g
  {
    hide Without;
    var s2 := Step(s, Wake(f, late));
    assert s.wake[0].0 == f;
    assert s2.wake == s.wake[1..] && s2.fdFiber == s.fdFiber;
    assert forall i :: 0 <= i < |s2.wake| ==> s2.wake[i] == s.wake[i + 1];
  }

  lemma {:induction false} CollectOnly(s: Sched, order: seq<int>, g: Id)
    requires !Awaited(s, g)
    ensures !Awaited(Collect(s, order), g)
    decreases |order|
  {
    if order != [] {
      var k := order[0];
      var s1 := s.(deadline := s.deadline - {k});
      var s2 := if k in s.fdFiber then s1.(fdFiber := s.fdFiber - {k}, wake := s.wake + [(s.fdFiber[k], true)]) else s1;
      forall i | 0 <= i < |s2.wake|
        ensures s2.wake[i].0 != g
      {
        if i < |s.wake| {
          assert s2.wake[i] == s.wake[i];
        }
      }
      CollectOnly(s2, order[1..], g);
    }
  }

  // ---------- the offload pool ----------

  // `fiber_offload_run` for fiber `f`: the job's thread stores `done` and then resumes the
  // fiber; the fiber suspends, at least once, until it has seen `done`.
  datatype Job = Pending | Stored | Resumed
  datatype Place = Entering | Away | Left
  datatype Off = Off(s: Sched, job: Job, at: Place)

  datatype OffEvent =
    | Other(e: Event)     // anything else, by any thread, spurious resumes of `f` included
    | Enter               // f: suspend_current
    | Check               // f, running again: the loop test
    | Store               // the job's thread: done := true
    | JobResume           // the job's thread: resume_fiber(f)

  // The fiber itself takes no other step in the loop, and never yields voluntarily there.
  ghost predicate OffEnabled(o: Off, f: Id, e: OffEvent) {
    match e
    case Other(ev) =>
      && Enabled(o.s, ev)
      && (o.at != Left && o.s.current == Some(f) ==>
            && !ev.Suspend? && !ev.SuspendForPool? && !ev.WaitFd? && !ev.ReadTimeout? && !ev.Return?
            && (ev.Switched? ==> f in o.s.fibers && o.s.fibers[f].phase == Suspending))
    case Enter => o.at == Entering && o.s.current == Some(f) && RunningNow(o.s)
    case Check => o.at == Away && o.s.current == Some(f) && RunningNow(o.s)
    case Store => o.job == Pending
    case JobResume => o.job == Stored && f in o.s.fibers
  }

  ghost function OffStep(o: Off, f: Id, e: OffEvent): Off
    requires OffEnabled(o, f, e)
  {
    match e
    case Other(ev) => o.(s := Step(o.s, ev))
    case Enter => o.(s := SuspendStep(o.s), at := Away)
    case Check => o.(at := if o.job != Pending then Left else Entering)
    case Store => o.(job := Stored)
    case JobResume => o.(s := ResumeStep(o.s, f), job := Resumed)
  }

  ghost predicate OffInv(o: Off, f: Id) {
    && Inv(o.s) && f in o.s.fibers
    && (o.at != Left ==> !o.s.fibers[f].returned)
    && (o.at == Entering ==> o.s.current == Some(f) && o.s.fibers[f].phase == Running)
    && (o.job == Resumed && o.at == Entering ==> o.s.fibers[f].pending)
    && (o.job == Resumed && o.at == Away ==>
          && o.s.fibers[f].phase != Waiting
          && (o.s.fibers[f].phase == Suspending ==> o.s.fibers[f].pending))
  }

  lemma OffStepInv(o: Off, f: Id, e: OffEvent)
    requires OffInv(o, f) && OffEnabled(o, f, e)
    ensures OffInv(OffStep(o, f, e), f)
  {
    hide Step, InPlace, SuspendStep, ResumeStep;
    PlaceHere(o.s, f);
    match e
    case Other(ev) =>
      StepInv(o.s, ev);
      FiberStep(o.s, ev, f);
      if o.at == Entering {
        CurrentStep(o.s, ev, f);
      }
    case Enter => EnterFacts(o.s, f);
    case Check =>
    case Store =>
    case JobResume =>
      ResumeInv(o.s, f);
      ResumeFacts(o.s, f);
  }

  lemma CurrentStep(s: Sched, ev: Event, f: Id)
    requires Enabled(s, ev) && s.current == Some(f) && !ev.Switched?
    ensures Step(s, ev).current == Some(f)
  {
    if ev.Sweep? {
      CollectSame(s, ev.order);
    }
  }

  lemma EnterFacts(s: Sched, f: Id)
    requires Inv(s) && RunningNow(s) && s.current == Some(f)
    ensures Inv(SuspendStep(s)) && SuspendStep(s).fibers[f] == s.fibers[f].(phase := Suspending)
            && f in SuspendStep(s).fibers
  {
    SuspendInv(s);
  }

  lemma ResumeFacts(s: Sched, f: Id)
    requires f in s.fibers
    ensures var s2 := ResumeStep(s, f);
            f in s2.fibers && s2.fibers[f] == FiberResumed(s.fibers[f]) && s2.current == s.current
  {
  }

  ghost predicate IsOffRun(o: Off, f: Id, es: seq<OffEvent>)
    decreases |es|
  {
    es == [] || (OffEnabled(o, f, es[0]) && IsOffRun(OffStep(o, f, es[0]), f, es[1..]))
  }

  ghost function OffAfter(o: Off, f: Id, es: seq<OffEvent>): Off
    requires IsOffRun(o, f, es)
    decreases |es|
  {
    if es == [] then o else OffAfter(OffStep(o, f, es[0]), f, es[1..])
  }

  lemma {:induction false} OffRunInv(o: Off, f: Id, es: seq<OffEvent>)
    requires OffInv(o, f) && IsOffRun(o, f, es)
    ensures OffInv(OffAfter(o, f, es), f)
    decreases |es|
  {
    if es != [] {
      OffStepInv(o, f, es[0]);
      OffRunInv(OffStep(o, f, es[0]), f, es[1..]);
    }
  }

  // Whatever else happens, once the job's own resume has returned the fiber is never left
  // waiting: it is queued, or with `run_one`, which will queue it when it has switched out.
  // The next time it runs it sees the job done and leaves the loop.
  lemma OffloadWakes(s: Sched, f: Id, es: seq<OffEvent>)
    requires Inv(s) && RunningNow(s) && s.current == Some(f)
    requires IsOffRun(Off(s, Pending, Entering), f, es)
    ensures var o := OffAfter(Off(s, Pending, Entering), f, es);
            o.job == Resumed && o.at != Left ==>
              && f in o.s.fibers && o.s.fibers[f].phase != Waiting
              && (f in o.s.ready || o.s.current == Some(f))
              && (o.s.fibers[f].phase == Suspending ==> Enabled(o.s, Switched) && f in Step(o.s, Switched).ready)
              && (o.at == Away && OffEnabled(o, f, Check) ==> OffStep(o, f, Check).at == Left)
  {
    OffRunInv(Off(s, Pending, Entering), f, es);
    var o := OffAfter(Off(s, Pending, Entering), f, es);
    if o.job == Resumed && o.at != Left {
      assert InPlace(o.s, f);
      InTimes(o.s.ready, f);
    }
  }
}
