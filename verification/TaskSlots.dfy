/** The slots of `parallel()`: a shared counter that every acquire raises first and lowers
    again if it was too high. The raise and the lowering are separate atomic steps. */
module TaskSlots {

  // `taken` have raised the counter and read a value below the limit, `failing` have raised
  // it and read too much; `admitted` run and have not released their slot.
  datatype Slots = Slots(limit: nat, count: int, taken: set<int>, failing: set<int>, admitted: set<int>)

  class TaskCounter {
    const limit: nat
    var count: int
    ghost var taken: set<int>
    ghost var failing: set<int>
    ghost var admitted: set<int>

    ghost function Model(): Slots
      reads this
    {
      Slots(limit, count, taken, failing, admitted)
    }

    constructor (limit: nat)
      ensures Model() == Start(limit)
    {
      this.limit := limit;
      count, taken, failing, admitted := 0, {}, {}, {};
    }

    // `fetch_add` and the comparison of the value it returned: the same first step for TRY,
    // WAIT and THROW.
    method Raise(ghost t: int) returns (ok: bool)
      requires Enabled(Model(), Event.Raise(t))
      modifies this
      ensures ok == (old(count) < limit)
      ensures Model() == Step(old(Model()), Event.Raise(t))
    {
      var prev := count;
      count := count + 1;
      ok := prev < limit;
      if ok {
        taken := taken + {t};
      } else {
        failing := failing + {t};
      }
    }

    // The `fetch_sub` of an attempt that read too much; WAIT may then raise again.
    method Lower(ghost t: int)
      requires t in failing
      modifies this
      ensures Model() == Step(old(Model()), Event.Lower(t))
    {
      count := count - 1;
      failing := failing - {t};
    }

    // The acquire returns: the task runs.
    method Admit(ghost t: int)
      requires t in taken
      modifies this
      ensures Model() == Step(old(Model()), Event.Admit(t))
    {
      taken := taken - {t};
      admitted := admitted + {t};
    }

    // `task_release`, with the number of tasks it leaves.
    method Release(ghost t: int) returns (remaining: int)
      requires t in admitted
      modifies this
      ensures Model() == Step(old(Model()), Event.Release(t)) && remaining == count
    {
      remaining := count - 1;
      count := count - 1;
      admitted := admitted - {t};
    }
  }

  datatype Event = Raise(t: int) | Lower(t: int) | Admit(t: int) | Release(t: int)

  predicate Enabled(s: Slots, e: Event) {
    match e
    case Raise(t) => t !in s.taken && t !in s.failing && t !in s.admitted
    case Lower(t) => t in s.failing
    case Admit(t) => t in s.taken
    case Release(t) => t in s.admitted
  }

  function Step(s: Slots, e: Event): Slots
    requires Enabled(s, e)
  {
    match e
    case Raise(t) =>
      if s.count < s.limit then s.(count := s.count + 1, taken := s.taken + {t})
      else s.(count := s.count + 1, failing := s.failing + {t})
    case Lower(t) => s.(count := s.count - 1, failing := s.failing - {t})
    case Admit(t) => s.(taken := s.taken - {t}, admitted := s.admitted + {t})
    case Release(t) => s.(count := s.count - 1, admitted := s.admitted - {t})
  }

  function Start(limit: nat): Slots {
    Slots(limit, 0, {}, {}, {})
  }

  ghost predicate IsRun(s: Slots, es: seq<Event>)
    decreases |es|
  {
    es == [] || (Enabled(s, es[0]) && IsRun(Step(s, es[0]), es[1..]))
  }

  ghost function After(s: Slots, es: seq<Event>): Slots
    requires IsRun(s, es)
    decreases |es|
  {
    if es == [] then s else After(Step(s, es[0]), es[1..])
  }

  ghost predicate Inv(s: Slots) {
    && s.taken !! s.failing && s.taken !! s.admitted && s.failing !! s.admitted
    && s.count == |s.taken| + |s.failing| + |s.admitted|
    && |s.taken| + |s.admitted| <= s.limit
  }

  lemma StepInv(s: Slots, e: Event)
    requires Inv(s) && Enabled(s, e)
    ensures Inv(Step(s, e))
  {
  }

  lemma {:induction false} RunInv(s: Slots, es: seq<Event>)
    requires Inv(s) && IsRun(s, es)
    ensures Inv(After(s, es)) && After(s, es).limit == s.limit
    decreases |es|
  {
    if es != [] {
      StepInv(s, es[0]);
      RunInv(Step(s, es[0]), es[1..]);
    }
  }

  // In every interleaving the running tasks never exceed the limit, and the counter is the
  // number of tasks let in plus the attempts that are about to fail.
  lemma SlotsBounded(limit: nat, es: seq<Event>)
    requires IsRun(Start(limit), es)
    ensures var s := After(Start(limit), es);
            && |s.admitted| <= limit
            && s.count == |s.taken| + |s.admitted| + |s.failing| >= 0
  {
    RunInv(Start(limit), es);
  }

  // The counter, on which `task_wait` waits, is zero exactly when no task runs and no
  // attempt is in flight.
  lemma ZeroWhenDone(limit: nat, es: seq<Event>)
    requires IsRun(Start(limit), es)
    ensures var s := After(Start(limit), es);
            s.count <= 0 <==> s.taken == {} && s.failing == {} && s.admitted == {}
  {
    RunInv(Start(limit), es);
  }

  // An attempt is turned away exactly when tasks let in and other attempts about to fail
  // reach the limit together.
  lemma RejectedExact(limit: nat, es: seq<Event>, t: int)
    requires IsRun(Start(limit), es) && Enabled(After(Start(limit), es), Raise(t))
    ensures var s := After(Start(limit), es);
            t in Step(s, Raise(t)).failing <==> |s.taken| + |s.admitted| + |s.failing| >= limit
  {
    RunInv(Start(limit), es);
  }

  // So a TRY can fail although no task runs: with one slot, while an attempt that came too
  // early is still undoing its raise.
  lemma RejectedWhileFree()
    ensures var es := [Raise(1), Admit(1), Raise(2), Release(1)];
            && IsRun(Start(1), es)
            && (var s := After(Start(1), es);
                s.admitted == {} && s.taken == {} && Enabled(s, Raise(3)) && 3 in Step(s, Raise(3)).failing)
  {
    var s1 := Step(Start(1), Raise(1));
    var s2 := Step(s1, Admit(1));
    var s3 := Step(s2, Raise(2));
    var s4 := Step(s3, Release(1));
    RunFour(Start(1), Raise(1), Admit(1), Raise(2), Release(1));
    assert s4.admitted == {} && s4.taken == {} && s4.count == 1;
  }

  lemma RunFour(s: Slots, a: Event, b: Event, c: Event, d: Event)
    requires Enabled(s, a) && Enabled(Step(s, a), b) && Enabled(Step(Step(s, a), b), c)
    requires Enabled(Step(Step(Step(s, a), b), c), d)
    ensures IsRun(s, [a, b, c, d]) && After(s, [a, b, c, d]) == Step(Step(Step(Step(s, a), b), c), d)
  {
    var s1 := Step(s, a);
    var s2 := Step(s1, b);
    var s3 := Step(s2, c);
    var none: seq<Event> := [d][1..];
    assert none == [] && IsRun(Step(s3, d), none) && After(Step(s3, d), none) == Step(s3, d);
    assert IsRun(s3, [d]) && After(s3, [d]) == Step(s3, d);
    assert [c, d][1..] == [d];
    assert IsRun(s2, [c, d]) && After(s2, [c, d]) == After(s3, [d]);
    assert [b, c, d][1..] == [c, d];
    assert IsRun(s1, [b, c, d]) && After(s1, [b, c, d]) == After(s2, [c, d]);
    assert [a, b, c, d][1..] == [b, c, d];
  }
}
