/** The fiber scheduler as a state machine over its atomic steps: what the scheduler thread,
    the running fiber and other threads do under the scheduler's lock, in any interleaving. */
module Scheduler {

  import opened Options

  // A fiber's identity: its address in the program.
  type Id = int

  datatype Phase = Ready | Running | Suspending | Waiting | Done

  // `returned` is the fiber function's `done_`, `timedOut` its `io_timed_out_`.
  datatype Fiber = Fiber(phase: Phase, pending: bool, returned: bool, timedOut: bool)

  // `current` is the fiber `run_one` took off the queue, `marked` whether it has been stored
  // as RUNNING yet; `wake` are I/O waiters the loop has unregistered but not resumed yet,
  // each with the flag that says its deadline passed.
  datatype Sched = Sched(
    ready: seq<Id>, waiting: seq<Id>, pool: seq<Id>,
    fibers: map<Id, Fiber>,
    current: Option<Id>, marked: bool,
    fdFiber: map<int, Id>, deadline: map<int, int>, timerKey: int,
    wake: seq<(Id, bool)>)

  datatype Event =
    | Spawn(f: Id)                              // a new fiber is queued
    | Take                                       // run_one pops the front of the queue
    | Mark                                       // run_one's store of RUNNING, outside the lock
    | Suspend                                    // the running fiber: suspend_current
    | SuspendForPool                             // the running fiber: suspend_current_for_pool
    | WaitFd(fd: int, until: Option<int>)        // the running fiber: wait_readable_tmo
    | ReadTimeout                                // the running fiber reads and clears its flag
    | Return                                     // the running fiber's function returns
    | Switched                                   // run_one after the switch back
    | Resume(f: Id)                             // resume_fiber, from any thread
    | PopPool                                    // notify_pool_waiter pops a waiter
    | Event(fd: int)                             // the loop handles one epoll event
    | Sweep(now: int, order: seq<int>)           // the loop collects expired deadlines
    | Wake(f: Id, late: bool)                   // the loop resumes a collected waiter

  function Put(s: Sched, f: Id, fb: Fiber): Sched {
    s.(fibers := s.fibers[f := fb])
  }

  // Erase of the first occurrence found, if any.
  function Without(q: seq<Id>, f: Id): seq<Id> {
    if q == [] then []
    else if q[0] == f then q[1..]
    else [q[0]] + Without(q[1..], f)
  }

  predicate RunningNow(s: Sched) {
    && s.current.Some? && s.marked && s.current.value in s.fibers
    && s.fibers[s.current.value].phase == Running && !s.fibers[s.current.value].returned
  }

  // Between two fibers, with nothing half done.
  predicate Idle(s: Sched) {
    s.current.None? && s.wake == []
  }

  function Expired(s: Sched, now: int): (keys: set<int>) {
    set k | k in s.deadline && s.deadline[k] <= now
  }

  // The keys, each once, in some order.
  ghost predicate Lists(order: seq<int>, keys: set<int>) {
    && (forall k :: k in order <==> k in keys)
    && (forall i, j :: 0 <= i < j < |order| ==> order[i] != order[j])
  }

  lemma Listed(order: seq<int>, keys: set<int>, i: nat)
    requires Lists(order, keys) && i < |order|
    ensures order[i] in keys
  {
    assert order[i] in order;
  }

  ghost predicate Enabled(s: Sched, e: Event) {
    match e
    case Spawn(f) => f !in s.fibers
    case Take => Idle(s) && s.ready != [] && s.ready[0] in s.fibers
    case Mark => s.current.Some? && !s.marked && s.current.value in s.fibers
    case Suspend => RunningNow(s)
    case SuspendForPool => RunningNow(s)
    case WaitFd(fd, until) => RunningNow(s) && (fd < 0 ==> until.Some?)
    case ReadTimeout => RunningNow(s)
    case Return => RunningNow(s)
    case Switched => s.current.Some? && s.marked && s.current.value in s.fibers
    case Resume(f) => f in s.fibers
    case PopPool => s.pool != []
    case Event(fd) => Idle(s)
    case Sweep(now, order) => Idle(s) && Lists(order, Expired(s, now))
    case Wake(f, late) => s.current.None? && s.wake != [] && s.wake[0] == (f, late) && f in s.fibers
  }

  // `resume_fiber`: only a fiber whose suspension is complete is moved; otherwise the flag
  // is left for `run_one`.
  function ResumeStep(s: Sched, f: Id): Sched
    requires f in s.fibers
  {
    var fb := s.fibers[f];
    if fb.phase != Waiting then s.(fibers := s.fibers[f := fb.(pending := true)])
    else if fb.returned then s.(waiting := Without(s.waiting, f))
    else s.(waiting := Without(s.waiting, f), fibers := s.fibers[f := fb.(phase := Ready)], ready := s.ready + [f])
  }

  function SuspendStep(s: Sched): Sched
    requires RunningNow(s)
  {
    var f := s.current.value;
    s.(fibers := s.fibers[f := s.fibers[f].(phase := Suspending)], waiting := s.waiting + [f])
  }

  // `run_one` after the switch: the only place that decides where the fiber goes.
  function SwitchedStep(s: Sched): Sched
    requires s.current.Some? && s.current.value in s.fibers
  {
    var f := s.current.value;
    var fb := s.fibers[f];
    if fb.returned then
      s.(current := None, marked := false, fibers := s.fibers[f := fb.(phase := Done, pending := false)],
         waiting := Without(s.waiting, f), pool := Without(s.pool, f))
    else if fb.phase != Suspending then
      s.(current := None, marked := false, fibers := s.fibers[f := fb.(phase := Ready, pending := false)],
         ready := s.ready + [f])
    else if fb.pending then
      s.(current := None, marked := false, fibers := s.fibers[f := fb.(phase := Ready, pending := false)],
         waiting := Without(s.waiting, f), pool := Without(s.pool, f), ready := s.ready + [f])
    else s.(current := None, marked := false, fibers := s.fibers[f := fb.(phase := Waiting)])
  }

  // The waiters of the expired keys, unregistered in the order they are met.
  function Collect(s: Sched, order: seq<int>): Sched
    decreases |order|
  {
    if order == [] then s
    else
      var k := order[0];
      var s1 := s.(deadline := s.deadline - {k});
      var s2 := if k in s.fdFiber then s1.(fdFiber := s.fdFiber - {k}, wake := s.wake + [(s.fdFiber[k], true)]) else s1;
      Collect(s2, order[1..])
  }

  function WaitFdStep(s: Sched, fd: int, until: Option<int>): Sched
    requires RunningNow(s)
  {
    var key := if fd < 0 then s.timerKey else fd;
    var s1 := SuspendStep(s);
    s1.(fdFiber := s.fdFiber[key := s.current.value],
        deadline := if until.Some? then s.deadline[key := until.value] else s.deadline,
        timerKey := if fd < 0 then s.timerKey - 1 else s.timerKey)
  }

  function EventStep(s: Sched, fd: int): Sched {
    var s1 := s.(deadline := s.deadline - {fd});
    if fd in s.fdFiber then s1.(fdFiber := s.fdFiber - {fd}, wake := s.wake + [(s.fdFiber[fd], false)]) else s1
  }

  // The next collected waiter, its flag set when its deadline has passed.
  function Flagged(s: Sched, f: Id, late: bool): Sched
    requires f in s.fibers && s.wake != []
  {
    if late then s.(wake := s.wake[1..], fibers := s.fibers[f := s.fibers[f].(timedOut := true)])
    else s.(wake := s.wake[1..])
  }

  ghost function Step(s: Sched, e: Event): Sched
    requires Enabled(s, e)
  {
    match e
    case Spawn(f) => Put(s, f, Fiber(Ready, false, false, false)).(ready := s.ready + [f])
    case Take => s.(ready := s.ready[1..], current := Some(s.ready[0]), marked := false)
    case Mark => Put(s, s.current.value, s.fibers[s.current.value].(phase := Running)).(marked := true)
    case Suspend => SuspendStep(s)
    case SuspendForPool => SuspendStep(s).(pool := s.pool + [s.current.value])
    case WaitFd(fd, until) => WaitFdStep(s, fd, until)
    case ReadTimeout => Put(s, s.current.value, s.fibers[s.current.value].(timedOut := false))
    case Return => Put(s, s.current.value, s.fibers[s.current.value].(returned := true))
    case Switched => SwitchedStep(s)
    case Resume(f) => ResumeStep(s, f)
    case PopPool => s.(pool := s.pool[1..])
    case Event(fd) => EventStep(s, fd)
    case Sweep(_, order) => Collect(s, order)
    case Wake(f, late) => ResumeStep(Flagged(s, f, late), f)
  }

  function Init(): Sched {
    Sched([], [], [], map[], None, false, map[], map[], -2, [])
  }

  // A run: a sequence of events, each enabled where it happens.
  ghost predicate IsRun(s: Sched, es: seq<Event>)
    decreases |es|
  {
    es == [] || (Enabled(s, es[0]) && IsRun(Step(s, es[0]), es[1..]))
  }

  ghost function After(s: Sched, es: seq<Event>): Sched
    requires IsRun(s, es)
    decreases |es|
  {
    if es == [] then s else After(Step(s, es[0]), es[1..])
  }

  // ---------- placement ----------

  ghost function Times(q: seq<Id>, f: Id): nat {
    multiset(q)[f]
  }

  // Where a fiber in each phase is, and how often.
  ghost predicate InPlace(s: Sched, f: Id)
    requires f in s.fibers
  {
    var fb := s.fibers[f];
    var here := s.current == Some(f);
    && Times(s.ready, f) == (if fb.phase == Ready && !here then 1 else 0)
    && Times(s.waiting, f) == (if fb.phase == Suspending || fb.phase == Waiting then 1 else 0)
    && (fb.phase == Running || fb.phase == Suspending ==> here && s.marked)
    && (fb.phase == Waiting || fb.phase == Done ==> !here)
    && (here && !s.marked ==> fb.phase == Ready)
    && (here && s.marked ==> fb.phase == Running || fb.phase == Suspending)
    && (fb.phase == Done ==> fb.returned)
    && (fb.returned ==> fb.phase == Done || (fb.phase == Running && here))
  }

  ghost predicate Known(s: Sched) {
    && (forall f :: f in s.ready ==> f in s.fibers)
    && (forall f :: f in s.waiting ==> f in s.fibers)
    && (forall f :: f in s.pool ==> f in s.fibers)
    && (forall k :: k in s.fdFiber ==> s.fdFiber[k] in s.fibers)
    && (forall i :: 0 <= i < |s.wake| ==> s.wake[i].0 in s.fibers)
    && (s.current.Some? ==> s.current.value in s.fibers)
    && (s.marked ==> s.current.Some?)
  }

  ghost predicate Inv(s: Sched) {
    Known(s) && forall f :: f in s.fibers ==> InPlace(s, f)
  }

  lemma {:induction false} WithoutTimes(q: seq<Id>, f: Id)
    ensures Times(Without(q, f), f) == (if Times(q, f) > 0 then Times(q, f) - 1 else 0)
    ensures forall g :: g != f ==> Times(Without(q, f), g) == Times(q, g)
    ensures forall g :: g in Without(q, f) ==> g in q
    decreases |q|
  {
    if q != [] {
      assert q == [q[0]] + q[1..];
      if q[0] != f {
        WithoutTimes(q[1..], f);
        var r := Without(q[1..], f);
        forall g
          ensures Times([q[0]] + r, g) == Times(r, g) + (if g == q[0] then 1 else 0)
        {
        }
      }
      forall g
        ensures Times(q, g) == Times(q[1..], g) + (if g == q[0] then 1 else 0)
      {
      }
    }
  }

  lemma PushTimes(q: seq<Id>, f: Id)
    ensures forall g :: Times(q + [f], g) == Times(q, g) + (if g == f then 1 else 0)
  {
  }

  lemma PopTimes(q: seq<Id>)
    requires q != []
    ensures forall g :: Times(q[1..], g) == Times(q, g) - (if g == q[0] then 1 else 0)
  {
    assert q == [q[0]] + q[1..];
  }

  lemma InTimes(q: seq<Id>, f: Id)
    ensures f in q <==> Times(q, f) > 0
  {
  }

  // A step that concerns one fiber leaves the others where they are.
  lemma Others(s: Sched, s2: Sched, f: Id)
    requires Inv(s) && Known(s2) && f in s2.fibers
    requires s2.fibers.Keys <= s.fibers.Keys + {f}
    requires forall g :: g in s2.fibers && g != f ==> s2.fibers[g] == s.fibers[g]
    requires forall g :: g != f ==>
               Times(s2.ready, g) == Times(s.ready, g) && Times(s2.waiting, g) == Times(s.waiting, g)
    requires forall g :: g != f ==> (s2.current == Some(g) <==> s.current == Some(g))
    requires s2.marked == s.marked || s.current == Some(f) || s2.current == Some(f)
    requires InPlace(s2, f)
    ensures Inv(s2)
  {
    forall g | g in s2.fibers
      ensures InPlace(s2, g)
    {
      if g != f {
        assert InPlace(s, g);
      }
    }
  }

  lemma ResumeInv(s: Sched, f: Id)
    requires Inv(s) && f in s.fibers
    ensures Inv(ResumeStep(s, f))
  {
    WithoutTimes(s.waiting, f);
    PushTimes(s.ready, f);
    assert InPlace(s, f);
    Others(s, ResumeStep(s, f), f);
  }

  lemma SwitchedKnown(s: Sched)
    requires Known(s) && Enabled(s, Switched)
    ensures Known(SwitchedStep(s))
  {
    WithoutTimes(s.waiting, s.current.value);
    WithoutTimes(s.pool, s.current.value);
  }

  lemma SwitchedPlace(s: Sched)
    requires Inv(s) && Enabled(s, Switched)
    ensures InPlace(SwitchedStep(s), s.current.value)
  {
    hide Known, Without;
    var f := s.current.value;
    WithoutTimes(s.waiting, f);
    PushTimes(s.ready, f);
    assert InPlace(s, f);
  }

  lemma SwitchedInv(s: Sched)
    requires Inv(s) && Enabled(s, Switched)
    ensures Inv(SwitchedStep(s))
  {
    hide InPlace;
    var f := s.current.value;
    WithoutTimes(s.waiting, f);
    PushTimes(s.ready, f);
    SwitchedKnown(s);
    SwitchedPlace(s);
    Others(s, SwitchedStep(s), f);
  }

  lemma SuspendInv(s: Sched)
    requires Inv(s) && RunningNow(s)
    ensures Inv(SuspendStep(s))
  {
    PushTimes(s.waiting, s.current.value);
    assert InPlace(s, s.current.value);
    Others(s, SuspendStep(s), s.current.value);
  }

  lemma TakeInv(s: Sched)
    requires Inv(s) && Enabled(s, Take)
    ensures Inv(Step(s, Take))
  {
    PopTimes(s.ready);
    InTimes(s.ready, s.ready[0]);
    assert InPlace(s, s.ready[0]);
    Others(s, Step(s, Take), s.ready[0]);
  }

  lemma SpawnInv(s: Sched, f: Id)
    requires Inv(s) && Enabled(s, Spawn(f))
    ensures Inv(Step(s, Spawn(f)))
  {
    InTimes(s.ready, f);
    InTimes(s.waiting, f);
    PushTimes(s.ready, f);
    Others(s, Step(s, Spawn(f)), f);
  }

  lemma {:induction false} CollectInv(s: Sched, order: seq<int>)
    requires Inv(s)
    ensures Inv(Collect(s, order))
    decreases |order|
  {
    if order != [] {
      var k := order[0];
      var s1 := s.(deadline := s.deadline - {k});
      var s2 := if k in s.fdFiber then s1.(fdFiber := s.fdFiber - {k}, wake := s.wake + [(s.fdFiber[k], true)]) else s1;
      SameQueues(s, s2);
      CollectInv(s2, order[1..]);
    }
  }

  // Registration tables and flags play no part in the placement.
  lemma SameQueues(s: Sched, s2: Sched)
    requires Inv(s) && Known(s2)
    requires s2.ready == s.ready && s2.waiting == s.waiting && s2.current == s.current && s2.marked == s.marked
    requires s2.fibers.Keys == s.fibers.Keys
    requires forall f :: f in s.fibers ==>
               s2.fibers[f].phase == s.fibers[f].phase && s2.fibers[f].returned == s.fibers[f].returned
    ensures Inv(s2)
  {
    forall f | f in s2.fibers
      ensures InPlace(s2, f)
    {
      assert InPlace(s, f);
    }
  }

  // Every step, by whichever thread, keeps every live fiber in exactly one place.
  lemma StepInv(s: Sched, e: Event)
    requires Inv(s) && Enabled(s, e)
    ensures Inv(Step(s, e))
  {
    hide InPlace, ResumeStep, SwitchedStep, SuspendStep, Collect;
    match e
    case Spawn(f) => SpawnInv(s, f);
    case Take => TakeInv(s);
    case Mark => MarkInv(s);
    case Suspend => SuspendInv(s);
    case SuspendForPool => PoolInv(s);
    case WaitFd(fd, until) => WaitFdInv(s, fd, until);
    case ReadTimeout => SameQueues(s, Step(s, e));
    case Return => MarkInv(s);
    case Switched => SwitchedInv(s);
    case Resume(f) => ResumeInv(s, f);
    case PopPool => SameQueues(s, Step(s, e));
    case Event(fd) => SameQueues(s, Step(s, e));
    case Sweep(_, order) => CollectInv(s, order);
    case Wake(f, late) => WakeInv(s, f, late);
  }

  lemma MarkInv(s: Sched)
    requires Inv(s)
    ensures Enabled(s, Mark) ==> Inv(Step(s, Mark))
    ensures Enabled(s, Return) ==> Inv(Step(s, Return))
  {
    if Enabled(s, Mark) {
      assert InPlace(s, s.current.value);
      Others(s, Step(s, Mark), s.current.value);
    }
    if Enabled(s, Return) {
      assert InPlace(s, s.current.value);
      Others(s, Step(s, Return), s.current.value);
    }
  }

  lemma PoolInv(s: Sched)
    requires Inv(s) && RunningNow(s)
    ensures Inv(Step(s, SuspendForPool))
  {
    SuspendInv(s);
    SameQueues(SuspendStep(s), Step(s, SuspendForPool));
  }

  lemma WaitFdInv(s: Sched, fd: int, until: Option<int>)
    requires Inv(s) && RunningNow(s)
    ensures Inv(WaitFdStep(s, fd, until))
  {
    SuspendInv(s);
    SameQueues(SuspendStep(s), WaitFdStep(s, fd, until));
  }

  lemma WakeInv(s: Sched, f: Id, late: bool)
    requires Inv(s) && Enabled(s, Wake(f, late))
    ensures Inv(Step(s, Wake(f, late)))
  {
    SameQueues(s, Flagged(s, f, late));
    ResumeInv(Flagged(s, f, late), f);
  }

  lemma {:induction false} RunInv(s: Sched, es: seq<Event>)
    requires Inv(s) && IsRun(s, es)
    ensures Inv(After(s, es))
    decreases |es|
  {
    if es != [] {
      StepInv(s, es[0]);
      RunInv(Step(s, es[0]), es[1..]);
    }
  }

  // The placement invariant over every run: a live fiber is queued exactly once, or is the
  // one `run_one` took off, or waits and is listed exactly once; none is queued twice, none
  // is dropped.
  lemma Placement(es: seq<Event>, f: Id)
    requires IsRun(Init(), es) && f in After(Init(), es).fibers
    ensures var s := After(Init(), es);
            var phase := s.fibers[f].phase;
            && Times(s.ready, f) + Times(s.waiting, f) <= 1
            && (phase != Done ==>
                  || (s.current == Some(f) && Times(s.ready, f) == 0)
                  || (s.current != Some(f) && phase == Ready && Times(s.ready, f) == 1)
                  || (s.current != Some(f) && phase == Waiting && Times(s.waiting, f) == 1))
  {
    RunInv(Init(), es);
    assert InPlace(After(Init(), es), f);
  }

  // `run_until_complete` stops when both lists are empty between two fibers: then every
  // fiber spawned so far has finished.
  lemma CompleteWhenEmpty(es: seq<Event>, f: Id)
    requires IsRun(Init(), es)
    requires var s := After(Init(), es); s.current.None? && s.ready == [] && s.waiting == [] && f in s.fibers
    ensures After(Init(), es).fibers[f].phase == Done && After(Init(), es).fibers[f].returned
  {
    RunInv(Init(), es);
    assert InPlace(After(Init(), es), f);
  }

  // ---------- wake-ups ----------

  // A resume that finds the fiber waiting queues it at once.
  lemma ResumeWaiting(s: Sched, f: Id)
    requires Inv(s) && f in s.fibers && s.fibers[f].phase == Waiting
    ensures var s2 := ResumeStep(s, f);
            f in s2.ready && f !in s2.waiting && s2.fibers[f].phase == Ready
  {
    assert InPlace(s, f);
    WithoutTimes(s.waiting, f);
    InTimes(Without(s.waiting, f), f);
  }

  // One that finds it still switching out leaves the flag, which nothing takes away before
  // `run_one` has handled the switch; `run_one` then queues the fiber.
  lemma {:induction false} ResumeSuspending(s: Sched, f: Id, es: seq<Event>)
    requires Inv(s) && f in s.fibers && s.fibers[f].phase == Suspending && s.fibers[f].pending
    requires IsRun(s, es) && forall i :: 0 <= i < |es| ==> es[i] != Switched
    ensures var s2 := After(s, es);
            && Inv(s2) && f in s2.fibers && s2.fibers[f].phase == Suspending && s2.fibers[f].pending
            && Enabled(s2, Switched)
            && (var s3 := Step(s2, Switched);
                f in s3.ready && f !in s3.waiting && s3.fibers[f].phase == Ready && !s3.fibers[f].pending)
    decreases |es|
  {
    assert InPlace(s, f);
    if es == [] {
      WithoutTimes(s.waiting, f);
      InTimes(Without(s.waiting, f), f);
    } else {
      StepInv(s, es[0]);
      var s1 := Step(s, es[0]);
      assert es[0] != Switched;
      if es[0].Sweep? {
        CollectSame(s, es[0].order);
      }
      assert s1.fibers[f].phase == Suspending && s1.fibers[f].pending;
      ResumeSuspending(s1, f, es[1..]);
    }
  }

  lemma {:induction false} CollectSame(s: Sched, order: seq<int>)
    ensures var s2 := Collect(s, order);
            && s2.fibers == s.fibers && s2.current == s.current && s2.marked == s.marked
            && s2.ready == s.ready && s2.waiting == s.waiting && s2.pool == s.pool && s2.timerKey == s.timerKey
    decreases |order|
  {
    if order != [] {
      var k := order[0];
      var s1 := s.(deadline := s.deadline - {k});
      CollectSame(if k in s.fdFiber then s1.(fdFiber := s.fdFiber - {k}, wake := s.wake + [(s.fdFiber[k], true)])
                  else s1, order[1..]);
    }
  }

  // No wake-up is lost: whichever of the two a resume finds, the fiber ends up queued, at
  // once or when `run_one` handles its switch.
  lemma NoLostWakeup(s: Sched, f: Id, es: seq<Event>)
    requires Inv(s) && f in s.fibers && (s.fibers[f].phase == Waiting || s.fibers[f].phase == Suspending)
    requires IsRun(ResumeStep(s, f), es) && forall i :: 0 <= i < |es| ==> es[i] != Switched
    ensures s.fibers[f].phase == Waiting ==> f in ResumeStep(s, f).ready
    ensures s.fibers[f].phase == Suspending ==>
              var s2 := After(ResumeStep(s, f), es);
              Enabled(s2, Switched) && f in Step(s2, Switched).ready
  {
    ResumeInv(s, f);
    if s.fibers[f].phase == Waiting {
      ResumeWaiting(s, f);
    } else {
      ResumeSuspending(ResumeStep(s, f), f, es);
    }
  }

  // The one case without such a promise: a resume of a running fiber is forgotten if the
  // fiber's next switch is a voluntary yield.
  lemma YieldForgets(s: Sched, f: Id)
    requires Inv(s) && RunningNow(s) && s.current == Some(f)
    ensures var s2 := Step(ResumeStep(s, f), Switched); s2.fibers[f].phase == Ready && !s2.fibers[f].pending
    ensures var s2 := Step(Step(ResumeStep(s, f), Suspend), Switched);
            s2.fibers[f].phase == Ready && !s2.fibers[f].pending
  {
  }

  // ---------- turns ----------

  function Takes(es: seq<Event>): nat {
    if es == [] then 0 else (if es[0].Take? then 1 else 0) + Takes(es[1..])
  }

  lemma ReadyStep(s: Sched, e: Event)
    requires Enabled(s, e)
    ensures e.Take? ==> s.ready != [] && Step(s, e).current == Some(s.ready[0]) && Step(s, e).ready == s.ready[1..]
    ensures !e.Take? ==> s.ready <= Step(s, e).ready
  {
    hide Without, Collect, Expired, Lists;
    if e.Sweep? {
      CollectSame(s, e.order);
    }
  }

  // Fibers run in the order they were queued: whatever else happens, the k-th one in the
  // queue is at its front after k fibers were taken, and is the next one taken.
  lemma {:induction false} ReadyTurn(s: Sched, es: seq<Event>, k: nat)
    requires IsRun(s, es) && k < |s.ready| && Takes(es) <= k
    ensures k - Takes(es) < |After(s, es).ready| && After(s, es).ready[k - Takes(es)] == s.ready[k]
    ensures Takes(es) == k && Enabled(After(s, es), Take) ==>
              Step(After(s, es), Take).current == Some(s.ready[k])
    decreases |es|
  {
    hide Step, Enabled;
    if es == [] {
      if k == 0 && Enabled(s, Take) {
        ReadyStep(s, Take);
      }
    } else {
      ReadyStep(s, es[0]);
      ReadyTurn(Step(s, es[0]), es[1..], if es[0].Take? then k - 1 else k);
    }
  }
}
