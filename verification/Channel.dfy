/** Channels between tasks: any number of senders, receivers and closers, interleaved at the
    channel's lock. A blocked call is a step that is not enabled yet. */
module Channels {

  import opened Options

  // Values are deep-cloned into the queue, so what is in it is shared with nobody.
  datatype Chan<V> = Chan(queue: seq<V>, capacity: nat, closed: bool, unbuffered: bool, recvGen: nat)

  function NewChan<V>(cap: nat): Chan<V> {
    Chan([], if cap == 0 then 1 else cap, false, cap == 0, 0)
  }

  // What `send_val` waits for, and what an unbuffered send waits for after its push.
  predicate HasRoom<V>(c: Chan<V>) {
    c.closed || |c.queue| < c.capacity
  }

  predicate Taken<V>(c: Chan<V>, gen: nat) {
    c.closed || c.recvGen > gen
  }

  predicate HasItem<V>(c: Chan<V>) {
    c.closed || c.queue != []
  }

  function Push<V>(c: Chan<V>, v: V): Chan<V> {
    c.(queue := c.queue + [v])
  }

  function Pop<V>(c: Chan<V>): Chan<V>
    requires c.queue != []
  {
    c.(queue := c.queue[1..], recvGen := c.recvGen + 1)
  }

  class LookChannel<V> {
    var queue: seq<V>
    var capacity: nat
    var closed: bool
    var unbuffered: bool
    var recvGen: nat

    function Model(): Chan<V>
      reads this
    {
      Chan(queue, capacity, closed, unbuffered, recvGen)
    }

    constructor (cap: nat)
      ensures Model() == NewChan(cap)
    {
      queue, capacity, closed := [], if cap == 0 then 1 else cap, false;
      unbuffered, recvGen := cap == 0, 0;
    }

    // `send_val` once there is room. None: the channel is closed, the send fails. Otherwise
    // the generation an unbuffered send then waits to see passed.
    method Send(v: V) returns (gen: Option<nat>)
      requires HasRoom(Model())
      modifies this
      ensures gen == if old(closed) then None else Some(old(recvGen))
      ensures Model() == if gen.None? then old(Model()) else Push(old(Model()), v)
    {
      if closed {
        return None;
      }
      queue := queue + [v];
      return Some(recvGen);
    }

    // `recv_val` once there is an item or the channel is closed; None is the null result.
    method Recv() returns (v: Option<V>)
      requires HasItem(Model())
      modifies this
      ensures v == if old(queue) == [] then None else Some(old(queue)[0])
      ensures Model() == if v.None? then old(Model()) else Pop(old(Model()))
    {
      if queue == [] {
        return None;
      }
      v := Some(queue[0]);
      queue := queue[1..];
      recvGen := recvGen + 1;
    }

    method Close()
      modifies this
      ensures Model() == old(Model()).(closed := true)
    {
      closed := true;
    }
  }

  // ---------- runs ----------

  // What a task does with the channel. A send is two steps: the push, after which the value
  // is accepted, and the return, for which an unbuffered send waits. Either wait, and that
  // of a receive, may also end in a timeout.
  datatype Event<V> =
    | SendPush(task: int, v: V)
    | SendFail(task: int)
    | SendReturn(task: int)
    | SendTimeout(task: int)
    | Receive
    | ReceiveTimeout
    | Close

  // The channel with its history: the values accepted and delivered, the sends in flight
  // with their generation and the place of their value among the accepted ones, and how many
  // values had been accepted when the channel was closed.
  datatype Run<V> = Run(c: Chan<V>, accepted: seq<V>, delivered: seq<V>,
                        sending: map<int, (nat, nat)>, atClose: Option<nat>)

  predicate Enabled<V>(r: Run<V>, e: Event<V>) {
    match e
    case SendPush(t, _) => t !in r.sending && HasRoom(r.c) && !r.c.closed
    case SendFail(t) => t !in r.sending && r.c.closed
    case SendReturn(t) => t in r.sending && (r.c.unbuffered ==> Taken(r.c, r.sending[t].0))
    case SendTimeout(t) => t in r.sending && r.c.unbuffered && !Taken(r.c, r.sending[t].0)
    case Receive => HasItem(r.c)
    case ReceiveTimeout => !HasItem(r.c)
    case Close => true
  }

  function Step<V>(r: Run<V>, e: Event<V>): Run<V>
    requires Enabled(r, e)
  {
    match e
    case SendPush(t, v) =>
      r.(c := Push(r.c, v), accepted := r.accepted + [v], sending := r.sending[t := (r.c.recvGen, |r.accepted|)])
    case SendFail(_) => r
    case SendReturn(t) => r.(sending := r.sending - {t})
    case SendTimeout(t) => r.(sending := r.sending - {t})
    case Receive =>
      if r.c.queue == [] then r else r.(c := Pop(r.c), delivered := r.delivered + [r.c.queue[0]])
    case ReceiveTimeout => r
    case Close =>
      r.(c := r.c.(closed := true), atClose := if r.atClose.None? then Some(|r.accepted|) else r.atClose)
  }

  function Start<V>(cap: nat): Run<V> {
    Run(NewChan(cap), [], [], map[], None)
  }

  ghost predicate IsRun<V>(r: Run<V>, es: seq<Event<V>>)
    decreases |es|
  {
    es == [] || (Enabled(r, es[0]) && IsRun(Step(r, es[0]), es[1..]))
  }

  ghost function After<V>(r: Run<V>, es: seq<Event<V>>): Run<V>
    requires IsRun(r, es)
    decreases |es|
  {
    if es == [] then r else After(Step(r, es[0]), es[1..])
  }

  // The place of a send in flight: in an unbuffered channel nothing is queued when a value
  // is pushed, so its generation is its place.
  ghost predicate Inv<V>(r: Run<V>) {
    && r.accepted == r.delivered + r.c.queue
    && |r.c.queue| <= r.c.capacity
    && (r.c.unbuffered ==> r.c.capacity == 1)
    && r.c.recvGen == |r.delivered|
    && (r.c.closed <==> r.atClose.Some?)
    && (r.c.closed ==> |r.accepted| == r.atClose.value)
    && (forall t :: t in r.sending ==> r.sending[t].1 < |r.accepted|)
    && (r.c.unbuffered ==> forall t :: t in r.sending ==> r.sending[t].0 == r.sending[t].1)
  }

  lemma StepInv<V>(r: Run<V>, e: Event<V>)
    requires Inv(r) && Enabled(r, e)
    ensures Inv(Step(r, e))
  {
    match e
    case SendPush(t, v) =>
      assert r.accepted + [v] == r.delivered + (r.c.queue + [v]);
    case Receive =>
      if r.c.queue != [] {
        assert r.c.queue == [r.c.queue[0]] + r.c.queue[1..];
        assert r.delivered + r.c.queue == r.delivered + [r.c.queue[0]] + r.c.queue[1..];
      }
    case _ =>
  }

  lemma {:induction false} RunInv<V>(r: Run<V>, es: seq<Event<V>>)
    requires Inv(r) && IsRun(r, es)
    ensures Inv(After(r, es))
    decreases |es|
  {
    if es != [] {
      StepInv(r, es[0]);
      RunInv(Step(r, es[0]), es[1..]);
    }
  }

  // Over every run: what was accepted is what was delivered followed by what is queued, in
  // order; the queue never exceeds the capacity; nothing is accepted after the close.
  lemma Conservation<V>(cap: nat, es: seq<Event<V>>)
    requires IsRun(Start(cap), es)
    ensures var r := After(Start(cap), es);
            && r.accepted == r.delivered + r.c.queue
            && |r.c.queue| <= r.c.capacity == (if cap == 0 then 1 else cap)
            && (r.c.closed ==> r.atClose == Some(|r.accepted|))
  {
    RunInv(Start(cap), es);
    SameCapacity(Start(cap), es);
  }

  lemma {:induction false} SameCapacity<V>(r: Run<V>, es: seq<Event<V>>)
    requires IsRun(r, es)
    ensures After(r, es).c.capacity == r.c.capacity && After(r, es).c.unbuffered == r.c.unbuffered
    decreases |es|
  {
    if es != [] {
      SameCapacity(Step(r, es[0]), es[1..]);
    }
  }

  // After a close the accepted values stay what they are, whatever follows.
  lemma {:induction false} NothingAfterClose<V>(r: Run<V>, es: seq<Event<V>>)
    requires Inv(r) && IsRun(r, es) && r.c.closed
    ensures After(r, es).c.closed && After(r, es).accepted == r.accepted
    decreases |es|
  {
    if es != [] {
      StepInv(r, es[0]);
      NothingAfterClose(Step(r, es[0]), es[1..]);
    }
  }

  // A receive that is not refused returns null exactly when the channel is closed and every
  // accepted value has been delivered; otherwise it returns the oldest value not delivered.
  lemma ReceiveExact<V>(cap: nat, es: seq<Event<V>>)
    requires IsRun(Start(cap), es) && Enabled(After(Start(cap), es), Receive)
    ensures var r := After(Start(cap), es);
            var r2 := Step(r, Receive);
            && (r2.delivered == r.delivered <==> r.c.closed && r.delivered == r.accepted)
            && (r2.delivered != r.delivered ==>
                  |r.delivered| < |r.accepted| && r2.delivered == r.delivered + [r.accepted[|r.delivered|]])
  {
    RunInv(Start(cap), es);
    var r := After(Start(cap), es);
    if r.c.queue != [] {
      assert r.accepted[|r.delivered|] == r.c.queue[0];
    }
    assert r.c.queue == [] <==> r.delivered == r.accepted;
  }

  // A send in flight on an open unbuffered channel: it may return exactly when the value at
  // its place has been delivered; until then that value is the one queued.
  lemma ReturnExact<V>(r: Run<V>, t: int)
    requires Inv(r) && r.c.unbuffered && t in r.sending && !r.c.closed
    ensures var place := r.sending[t].1;
            && place < |r.accepted|
            && (Enabled(r, SendReturn(t)) <==> place < |r.delivered| && r.delivered[place] == r.accepted[place])
            && (!Enabled(r, SendReturn(t)) ==> r.c.queue == [r.accepted[place]])
  {
    var place := r.sending[t].1;
    if place < |r.delivered| {
      assert r.accepted[place] == r.delivered[place];
    }
  }

  // The send of task `t` neither returns nor times out.
  predicate StaysInFlight<V(==)>(es: seq<Event<V>>, t: int) {
    forall i :: 0 <= i < |es| ==> es[i] != SendReturn(t) && es[i] != SendTimeout(t)
  }

  // Its place and its value stay what they were.
  lemma {:induction false} InFlight<V>(r: Run<V>, es: seq<Event<V>>, t: int)
    requires IsRun(r, es) && StaysInFlight(es, t) && t in r.sending
    ensures t in After(r, es).sending && After(r, es).sending[t] == r.sending[t]
    ensures r.accepted <= After(r, es).accepted
    decreases |es|
  {
    if es != [] {
      InFlight(Step(r, es[0]), es[1..], t);
    }
  }

  // Over every run: once task `t` has pushed `v` on an unbuffered channel, and as long as its
  // send is in flight and the channel open, the send may return exactly when `v` has been
  // delivered, in the place it was accepted in; until then `v` is what is queued.
  lemma Rendezvous<V>(before: seq<Event<V>>, t: int, v: V, es: seq<Event<V>>)
    requires IsRun(Start(0), before) && Enabled(After(Start(0), before), SendPush(t, v))
    requires IsRun(Step(After(Start(0), before), SendPush(t, v)), es) && StaysInFlight(es, t)
    requires !After(Step(After(Start(0), before), SendPush(t, v)), es).c.closed
    ensures var place := |After(Start(0), before).accepted|;
            var r := After(Step(After(Start(0), before), SendPush(t, v)), es);
            && place < |r.accepted| && r.accepted[place] == v
            && (Enabled(r, SendReturn(t)) <==> place < |r.delivered| && r.delivered[place] == v)
            && (!Enabled(r, SendReturn(t)) ==> r.c.queue == [v])
  {
    hide IsRun, After;
    var r0 := After(Start(0), before);
    var r1 := Step(r0, SendPush(t, v));
    RunInv(Start(0), before);
    SameCapacity(Start(0), before);
    StepInv(r0, SendPush(t, v));
    RunInv(r1, es);
    SameCapacity(r1, es);
    InFlight(r1, es, t);
    assert r1.accepted[|r0.accepted|] == v;
    ReturnExact(After(r1, es), t);
  }

  // ---------- what is let through ----------

  // The values pushed, in order.
  function Pushed<V>(es: seq<Event<V>>): seq<V> {
    if es == [] then [] else (if es[0].SendPush? then [es[0].v] else []) + Pushed(es[1..])
  }

  lemma {:induction false} PushedFrom<V>(r: Run<V>, es: seq<Event<V>>)
    requires IsRun(r, es)
    ensures After(r, es).accepted == r.accepted + Pushed(es)
    ensures After(r, es).c.closed <==> r.c.closed || Close in es
    decreases |es|
  {
    if es != [] {
      PushedFrom(Step(r, es[0]), es[1..]);
      assert r.accepted + [] + Pushed(es[1..]) == r.accepted + ([] + Pushed(es[1..]));
      if es[0].SendPush? {
        assert r.accepted + [es[0].v] + Pushed(es[1..]) == r.accepted + ([es[0].v] + Pushed(es[1..]));
      }
    } else {
      assert r.accepted + [] == r.accepted;
    }
  }

  // Over every run from an empty channel of capacity `cap`: accepted is what was pushed. A
  // task without a send in flight may push exactly while the channel is not closed and fewer
  // values than the capacity, at least one, wait to be delivered, and fails exactly after a
  // close. A receive goes on exactly when a value waits or the channel is closed.
  lemma LetThrough<V>(cap: nat, es: seq<Event<V>>, t: int, v: V)
    requires IsRun(Start(cap), es)
    ensures var r := After(Start(cap), es);
            && r.accepted == Pushed(es)
            && |r.delivered| <= |r.accepted|
            && (t !in r.sending ==>
                  (Enabled(r, SendPush(t, v)) <==>
                     Close !in es && (|r.accepted| - |r.delivered| < cap || r.accepted == r.delivered)))
            && (t !in r.sending ==> (Enabled(r, SendFail(t)) <==> Close in es))
            && (t in r.sending ==> !Enabled(r, SendPush(t, v)) && !Enabled(r, SendFail(t)))
            && Enabled(r, Close)
            && (Enabled(r, Receive) <==> Close in es || |r.delivered| < |r.accepted|)
            && (Enabled(r, ReceiveTimeout) <==> !Enabled(r, Receive))
  {
    hide IsRun, After, Pushed;
    RunInv(Start(cap), es);
    SameCapacity(Start(cap), es);
    PushedFrom(Start(cap), es);
    var r := After(Start(cap), es);
    assert [] + Pushed(es) == Pushed(es);
    assert r.delivered + r.c.queue == r.accepted;
  }

  // A send in flight on a buffered channel returns whenever it likes, and so does every send
  // once the channel is closed; only an unbuffered one that may not return yet times out.
  lemma ReturnsFreely<V>(cap: nat, es: seq<Event<V>>, t: int)
    requires IsRun(Start(cap), es) && t in After(Start(cap), es).sending
    ensures cap > 0 || Close in es ==> Enabled(After(Start(cap), es), SendReturn(t))
    ensures Enabled(After(Start(cap), es), SendTimeout(t)) <==> !Enabled(After(Start(cap), es), SendReturn(t))
  {
    hide IsRun, After;
    SameCapacity(Start(cap), es);
    PushedFrom(Start(cap), es);
  }
}
