/** `FiberScheduler`: its queues and tables, changed in place. Each method is one of the
    atomic steps of `Scheduler`, under the lock the source takes for it. */
module FiberSchedulers {
  import opened Options
  import opened Scheduler

  // `std::find` and `erase` of the first occurrence.
  method EraseFirst(q: seq<Id>, f: Id) returns (r: seq<Id>)
    ensures r == Without(q, f)
  {
    var i := 0;
    while i < |q| && q[i] != f
      invariant 0 <= i <= |q|
      invariant f !in q[..i]
    {
      i := i + 1;
    }
    WithoutAt(q, f, i);
    if i < |q| {
      r := q[..i] + q[i + 1..];
    } else {
      r := q;
    }
  }

  // Erasing at the place where the search stopped.
  lemma {:induction false} WithoutAt(q: seq<Id>, f: Id, i: nat)
    requires i <= |q| && f !in q[..i] && (i < |q| ==> q[i] == f)
    ensures Without(q, f) == if i < |q| then q[..i] + q[i + 1..] else q
    decreases |q|
  {
    if i > 0 {
      assert q[0] in q[..i];
      var t := q[1..];
      assert t[..i - 1] == q[..i][1..];
      WithoutAt(t, f, i - 1);
      if i < |q| {
        assert [q[0]] + (t[..i - 1] + t[i..]) == q[..i] + q[i + 1..];
      }
    }
  }

  class FiberScheduler {
    var ready: seq<Id>
    var waiting: seq<Id>
    var poolWaiters: seq<Id>
    var fibers: map<Id, Fiber>
    var current: Option<Id>
    var marked: bool
    var fdToFiber: map<int, Id>
    var fdDeadline: map<int, int>
    var timerKeySeq: int
    var expired: seq<(Id, bool)>

    function Model(): Sched
      reads this
    {
      Sched(ready, waiting, poolWaiters, fibers, current, marked, fdToFiber, fdDeadline, timerKeySeq, expired)
    }

    constructor ()
      ensures Model() == Init()
    {
      ready, waiting, poolWaiters := [], [], [];
      fibers, current, marked := map[], None, false;
      fdToFiber, fdDeadline, timerKeySeq, expired := map[], map[], -2, [];
    }

    method Spawn(f: Id)
      requires Enabled(Model(), Event.Spawn(f))
      modifies this
      ensures Model() == Step(old(Model()), Event.Spawn(f))
    {
      fibers := fibers[f := Fiber(Ready, false, false, false)];
      ready := ready + [f];
    }

    // The first half of `run_one`: false when there is nothing to run.
    method TakeReady() returns (some: bool)
      requires Idle(Model()) && (ready != [] ==> ready[0] in fibers)
      modifies this
      ensures some == (old(ready) != [])
      ensures Model() == if some then Step(old(Model()), Take) else old(Model())
    {
      if ready == [] {
        return false;
      }
      current := Some(ready[0]);
      marked := false;
      ready := ready[1..];
      return true;
    }

    method MarkRunning()
      requires Enabled(Model(), Mark)
      modifies this
      ensures Model() == Step(old(Model()), Mark)
    {
      fibers := fibers[current.value := fibers[current.value].(phase := Running)];
      marked := true;
    }

    // The second half of `run_one`, after the switch back.
    method AfterSwitch()
      requires Enabled(Model(), Switched)
      modifies this
      ensures Model() == Step(old(Model()), Switched)
    {
      var f := current.value;
      var fb := fibers[f];
      current, marked := None, false;
      if fb.returned {
        fibers := fibers[f := fb.(phase := Done, pending := false)];
        waiting := EraseFirst(waiting, f);
        poolWaiters := EraseFirst(poolWaiters, f);
      } else if fb.phase == Suspending {
        if fb.pending {
          waiting := EraseFirst(waiting, f);
          poolWaiters := EraseFirst(poolWaiters, f);
          fibers := fibers[f := fb.(phase := Ready, pending := false)];
          ready := ready + [f];
        } else {
          fibers := fibers[f := fb.(phase := Waiting)];
        }
      } else {
        fibers := fibers[f := fb.(phase := Ready, pending := false)];
        ready := ready + [f];
      }
    }

    method SuspendCurrent()
      requires Enabled(Model(), Suspend)
      modifies this
      ensures Model() == Step(old(Model()), Suspend)
    {
      waiting := waiting + [current.value];
      fibers := fibers[current.value := fibers[current.value].(phase := Suspending)];
    }

    method SuspendCurrentForPool()
      requires Enabled(Model(), SuspendForPool)
      modifies this
      ensures Model() == Step(old(Model()), SuspendForPool)
    {
      SuspendCurrent();
      poolWaiters := poolWaiters + [current.value];
    }

    // `wait_readable_tmo` up to its switch; `until` is the absolute deadline. Without a
    // descriptor the key is a fresh negative one. False: waiting without either is refused.
    method WaitReadable(fd: int, until: Option<int>) returns (supported: bool)
      requires RunningNow(Model())
      modifies this
      ensures supported == (fd >= 0 || until.Some?)
      ensures Model() == if supported then Step(old(Model()), WaitFd(fd, until)) else old(Model())
    {
      if fd < 0 && until.None? {
        return false;
      }
      var key := fd;
      if fd < 0 {
        key := timerKeySeq;
        timerKeySeq := timerKeySeq - 1;
      }
      fdToFiber := fdToFiber[key := current.value];
      if until.Some? {
        fdDeadline := fdDeadline[key := until.value];
      }
      SuspendCurrent();
      return true;
    }

    // The end of `wait_readable_tmo`, when the fiber runs again: whether its time ran out.
    method TakeTimedOut() returns (late: bool)
      requires Enabled(Model(), ReadTimeout)
      modifies this
      ensures late == old(fibers)[old(current).value].timedOut
      ensures Model() == Step(old(Model()), ReadTimeout)
    {
      late := fibers[current.value].timedOut;
      fibers := fibers[current.value := fibers[current.value].(timedOut := false)];
    }

    method ResumeFiber(f: Id)
      requires f in fibers
      modifies this
      ensures Model() == Step(old(Model()), Resume(f))
    {
      var fb := fibers[f];
      if fb.phase == Waiting {
        waiting := EraseFirst(waiting, f);
        if !fb.returned {
          fibers := fibers[f := fb.(phase := Ready)];
          ready := ready + [f];
        }
        return;
      }
      fibers := fibers[f := fb.(pending := true)];
    }

    // `notify_pool_waiter`: the waiter is popped here and resumed in a second step.
    method PopPoolWaiter() returns (f: Option<Id>)
      modifies this
      ensures f == if old(poolWaiters) == [] then None else Some(old(poolWaiters)[0])
      ensures Model() == if f.Some? then Step(old(Model()), PopPool) else old(Model())
    {
      if poolWaiters == [] {
        return None;
      }
      f := Some(poolWaiters[0]);
      poolWaiters := poolWaiters[1..];
    }

    method HandleEvent(fd: int)
      requires Idle(Model())
      modifies this
      ensures Model() == Step(old(Model()), Event.Event(fd))
    {
      if fd in fdToFiber {
        expired := expired + [(fdToFiber[fd], false)];
        fdToFiber := fdToFiber - {fd};
      }
      fdDeadline := fdDeadline - {fd};
    }

    // The deadline sweep: every expired key is visited once, in whatever order the table
    // yields them.
    method SweepDeadlines(now: int) returns (ghost order: seq<int>)
      requires Idle(Model())
      modifies this
      ensures Enabled(old(Model()), Sweep(now, order)) && Model() == Step(old(Model()), Sweep(now, order))
    {
      ghost var keys := Expired(Model(), now);
      var left: set<int> := set k | k in fdDeadline && fdDeadline[k] <= now;
      order := [];
      while left != {}
        invariant forall k :: k in keys <==> k in left || k in order
        invariant forall k :: k in order ==> k !in left
        invariant forall i, j :: 0 <= i < j < |order| ==> order[i] != order[j]
        invariant Model() == Collect(old(Model()), order)
        decreases left
      {
        SomeKey(left);
        var k :| k in left;
        CollectOne(old(Model()), order, k);
        Unregister(k);
        order := order + [k];
        left := left - {k};
      }
    }

    method Unregister(k: int)
      modifies this
      ensures var s := old(Model());
              Model() == s.(deadline := s.deadline - {k},
                            fdFiber := if k in s.fdFiber then s.fdFiber - {k} else s.fdFiber,
                            wake := if k in s.fdFiber then s.wake + [(s.fdFiber[k], true)] else s.wake)
    {
      if k in fdToFiber {
        expired := expired + [(fdToFiber[k], true)];
        fdToFiber := fdToFiber - {k};
      }
      fdDeadline := fdDeadline - {k};
    }

    // The collected waiters are resumed one by one, flagged first.
    method ResumeCollected()
      requires current.None? && expired != [] && expired[0].0 in fibers
      modifies this
      ensures Model() == Step(old(Model()), Wake(old(expired)[0].0, old(expired)[0].1))
    {
      var (f, late) := expired[0];
      expired := expired[1..];
      if late {
        fibers := fibers[f := fibers[f].(timedOut := true)];
      }
      ResumeFiber(f);
    }
  }

  lemma SomeKey(keys: set<int>)
    requires keys != {}
    ensures exists k :: k in keys
  {
    if !exists k :: k in keys {
      assert false;
    }
  }

  // Collecting one key more.
  lemma {:induction false} CollectOne(s: Sched, order: seq<int>, k: int)
    ensures var s1 := Collect(s, order);
            Collect(s, order + [k])
            == s1.(deadline := s1.deadline - {k},
                   fdFiber := if k in s1.fdFiber then s1.fdFiber - {k} else s1.fdFiber,
                   wake := if k in s1.fdFiber then s1.wake + [(s1.fdFiber[k], true)] else s1.wake)
    decreases |order|
  {
    if order == [] {
      assert [] + [k] == [k];
    } else {
      var k0 := order[0];
      var s1 := s.(deadline := s.deadline - {k0});
      var s2 := if k0 in s.fdFiber then s1.(fdFiber := s.fdFiber - {k0}, wake := s.wake + [(s.fdFiber[k0], true)])
        else s1;
      CollectOne(s2, order[1..], k);
      assert (order + [k])[0] == k0 && (order + [k])[1..] == order[1..] + [k];
    }
  }
}
