/** The rate limiter: one token bucket for each client address. */
module RateLimit {

  import opened Options

  // Tokens are counted in thousandths, times in milliseconds.
  datatype Bucket = Bucket(tokens: int, last: int, max: int, refill: int)

  // A bucket and when its client was last seen.
  datatype Entry = Entry(bucket: Bucket, seen: int)

  const STALE := 120_000
  const CROWDED := 50_000

  function RefillRate(rpm: int): int
    requires rpm >= 0
  {
    if rpm / 60 > 1 then rpm / 60 else 1
  }

  function Full(rpm: int, burst: int, now: int): Bucket
    requires rpm >= 0
  {
    Bucket(1000 * burst, now, 1000 * burst, RefillRate(rpm))
  }

  // `weak`: the compare-and-exchange of the time fails for no reason.
  function Refilled(b: Bucket, now: int, weak: bool): Bucket {
    var elapsed := now - b.last;
    if elapsed <= 0 || weak then b
    else
      var next := b.tokens + elapsed * b.refill;
      b.(tokens := if next < b.max then next else b.max, last := now)
  }

  function Consumed(b: Bucket, now: int, weak: bool): (bool, Bucket) {
    if b.max <= 0 then (true, b)
    else
      var r := Refilled(b, now, weak);
      if r.tokens >= 1000 then (true, r.(tokens := r.tokens - 1000)) else (false, r)
  }

  // ---------- the classes ----------

  class TokenBucket {
    var tokens: int
    var lastMs: int
    var maxTokens: int
    var refillPerMs: int

    ghost function Model(): Bucket
      reads this
    {
      Bucket(tokens, lastMs, maxTokens, refillPerMs)
    }

    constructor (rpm: int, burst: int, now: int)
      requires rpm >= 0
      ensures Model() == Full(rpm, burst, now)
    {
      maxTokens := burst * 1000;
      refillPerMs := if rpm / 60 > 1 then rpm / 60 else 1;
      tokens := burst * 1000;
      lastMs := now;
    }

    method Refill(now: int, weak: bool)
      modifies this
      ensures Model() == Refilled(old(Model()), now, weak)
    {
      var elapsed := now - lastMs;
      if elapsed <= 0 {
        return;
      }
      if !weak {
        lastMs := now;
        var next := tokens + elapsed * refillPerMs;
        tokens := if next < maxTokens then next else maxTokens;
      }
    }

    method Consume(now: int, weak: bool) returns (allowed: bool)
      modifies this
      ensures (allowed, Model()) == Consumed(old(Model()), now, weak)
    {
      if maxTokens <= 0 {
        return true;
      }
      Refill(now, weak);
      allowed := tokens >= 1000;
      if allowed {
        tokens := tokens - 1000;
      }
    }
  }

  class IpBucket {
    const bucket: TokenBucket
    var lastSeen: int

    constructor (rpm: int, burst: int, now: int)
      requires rpm >= 0
      ensures lastSeen == now && bucket.Model() == Full(rpm, burst, now) && fresh(bucket)
    {
      bucket := new TokenBucket(rpm, burst, now);
      lastSeen := now;
    }
  }

  function Kept(es: map<string, Entry>, now: int): map<string, Entry> {
    if |es| > CROWDED then map k | k in es && now - es[k].seen <= STALE :: es[k] else es
  }

  // What a hit does to the entries: whether it is allowed, and the entries after.
  function Checked(es: map<string, Entry>, ip: string, rpm: int, burst: int, now: int, weak: bool): (bool, map<string,
      Entry>)
    requires rpm > 0
  {
    var kept := Kept(es, now);
    var (allowed, e) := Hit(if ip in kept then Some(kept[ip]) else None, rpm, burst, now, weak);
    (allowed, kept[ip := e])
  }

  // The hit as the client's own entry sees it.
  function Hit(e: Option<Entry>, rpm: int, burst: int, now: int, weak: bool): (bool, Entry)
    requires rpm > 0
  {
    if e.None? then (true, Entry(Full(rpm, burst, now), now))
    else
      var (allowed, b) := Consumed(e.value.bucket, now, weak);
      (allowed, Entry(b, now))
  }

  class RateLimiter {
    var states: map<string, IpBucket>

    ghost predicate Valid()
      reads this
    {
      forall i, j :: i in states && j in states && i != j
        ==> states[i] != states[j] && states[i].bucket != states[j].bucket
    }

    ghost function Model(): map<string, Entry>
      reads this, states.Values, set k | k in states :: states[k].bucket
    {
      map k | k in states :: Entry(states[k].bucket.Model(), states[k].lastSeen)
    }

    constructor ()
      ensures Valid() && Model() == map[]
    {
      states := map[];
    }

    // Whether the request is to be rejected.
    method Check(ip: string, rpm: int, burst: int, now: int, weak: bool) returns (rejected: bool)
      requires Valid()
      modifies this, states.Values, set k | k in states :: states[k].bucket
      ensures Valid()
      ensures rpm <= 0 ==> !rejected && Model() == old(Model())
      ensures ip !in old(Model()) ==> !rejected
      ensures rpm > 0 ==> (!rejected, Model()) == Checked(old(Model()), ip, rpm, burst, now, weak)
    {
      if rpm <= 0 {
        return false;
      }
      MakeRoom(now);
      rejected := Enter(ip, rpm, burst, now, weak);
    }

    method Enter(ip: string, rpm: int, burst: int, now: int, weak: bool) returns (rejected: bool)
      requires Valid() && rpm > 0
      modifies this, states.Values, set k | k in states :: states[k].bucket
      ensures Valid()
      ensures var (allowed, e) := Hit(if ip in old(Model()) then Some(old(Model())[ip])
                                      else None, rpm, burst, now, weak);
              rejected == !allowed && Model() == old(Model())[ip := e]
    {
      if ip !in states {
        var entry := new IpBucket(rpm, burst, now);
        states := states[ip := entry];
        return false;
      }
      states[ip].lastSeen := now;
      var allowed := states[ip].bucket.Consume(now, weak);
      return !allowed;
    }

    // Clients not seen for two minutes make room when there are many.
    method MakeRoom(now: int)
      requires Valid()
      modifies `states
      ensures Valid() && forall k :: k in states ==> k in old(states) && states[k] == old(states)[k]
      ensures Model() == Kept(old(Model()), now)
    {
      ghost var es := Model();
      assert es.Keys == states.Keys && |es| == |es.Keys|;
      if |states| > CROWDED {
        Evict(now);
      }
    }

    method Evict(now: int)
      requires Valid()
      modifies `states
      ensures Valid()
      ensures states == map k | k in old(states) && now - old(states)[k].lastSeen <= STALE :: old(states)[k]
    {
      var todo := states.Keys;
      while todo != {}
        invariant todo <= old(states.Keys)
        invariant states == map k | k in old(states) && (k in todo || now - old(states)[k].lastSeen <= STALE) ::
                  old(states)[k]
        decreases |todo|
      {
        var k :| k in todo;
        todo := todo - {k};
        if now - states[k].lastSeen > STALE {
          states := states - {k};
        }
      }
    }
  }

  // ---------- the rate bound ----------

  // One hit of a client: its time, whether an exchange fails for no reason, and whether other
  // clients' hits evicted it before.
  datatype Event = Event(now: int, weak: bool, evicted: bool)

  // The tokens a bucket would have at `now`.
  function Credit(b: Bucket, now: int): int {
    var sum := b.tokens + (now - b.last) * b.refill;
    if sum < b.max then sum else b.max
  }

  ghost predicate Sound(b: Bucket, now: int, rpm: int, burst: int)
    requires rpm > 0
  {
    0 <= b.tokens <= b.max == 1000 * burst && b.last <= now && b.refill == RefillRate(rpm)
  }

  // Time goes on, and only clients not seen for two minutes are evicted.
  predicate Possible(e: Entry, hits: seq<Event>, rpm: int, burst: int)
    requires rpm > 0
    decreases |hits|
  {
    hits == [] || (
      && e.seen <= hits[0].now && (hits[0].evicted ==> hits[0].now - e.seen > STALE)
      && Possible(HitBy(e, hits[0], rpm, burst).1, hits[1..], rpm, burst))
  }

  function HitBy(e: Entry, h: Event, rpm: int, burst: int): (bool, Entry)
    requires rpm > 0
  {
    Hit(if h.evicted then None else Some(e), rpm, burst, h.now, h.weak)
  }

  function Allowed(e: Entry, hits: seq<Event>, rpm: int, burst: int): nat
    requires rpm > 0
    decreases |hits|
  {
    if hits == [] then 0
    else
      var (allowed, e1) := HitBy(e, hits[0], rpm, burst);
      (if allowed then 1 else 0) + Allowed(e1, hits[1..], rpm, burst)
  }

  function Faults(hits: seq<Event>): nat {
    if hits == [] then 0 else (if hits[0].weak || hits[0].evicted then 1 else 0) + Faults(hits[1..])
  }

  lemma Rates(rpm: int)
    requires rpm > 0
    ensures RefillRate(rpm) >= 1
  {
  }

  lemma Grows(b: Bucket, x: int, y: int)
    requires x <= y && b.refill >= 0
    ensures Credit(b, x) <= Credit(b, y) <= Credit(b, x) + (y - x) * b.refill
  {
    assert (y - b.last) * b.refill == (x - b.last) * b.refill + (y - x) * b.refill;
    assert (y - x) * b.refill >= 0;
  }

  lemma NonNegative(b: Bucket, now: int)
    requires b.refill >= 0 && 0 <= b.tokens <= b.max && b.last <= now
    ensures b.tokens <= Credit(b, now) <= b.max
  {
    assert (now - b.last) * b.refill >= 0;
  }

  // A request takes its thousand out of the credit, but for one after an exchange that failed.
  lemma ConsumeCost(b: Bucket, now: int, weak: bool, rpm: int, burst: int)
    requires rpm > 0 && burst > 0 && Sound(b, now, rpm, burst)
    ensures var (allowed, r) := Consumed(b, now, weak);
            && Sound(r, now, rpm, burst)
            && Credit(r, now) + (if allowed then 1000 else 0) <= Credit(b, now) + (if weak then 1000 else 0)
            && (!weak ==> (allowed <==> Credit(b, now) >= 1000))
            && (!weak ==> Credit(r, now) + (if allowed then 1000 else 0) == Credit(b, now))
  {
    Rates(rpm);
    NonNegative(b, now);
    assert (now - now) * b.refill == 0;
    if weak && b.tokens >= 1000 {
      var sum := (now - b.last) * b.refill;
      assert sum >= 0;
    }
  }

  // The bound over a window that starts at `from` with a sound bucket and ends at `to`.
  lemma {:induction false} WindowBound(e: Entry, hits: seq<Event>, from: int, to: int, rpm: int, burst: int)
    requires rpm > 0 && burst > 0 && Sound(e.bucket, from, rpm, burst) && e.bucket.last <= e.seen
    requires Possible(e, hits, rpm, burst) && from <= to
    requires forall i :: 0 <= i < |hits| ==> from <= hits[i].now <= to
    requires burst <= 120 * RefillRate(rpm) || forall i :: 0 <= i < |hits| ==> !hits[i].evicted
    ensures 1000 * Allowed(e, hits, rpm, burst)
         <= Credit(e.bucket, from) + (to - from) * RefillRate(rpm) + 1000 * Faults(hits)
    decreases |hits|
  {
    hide Hit, Credit, Possible, Allowed, Faults, RefillRate;
    Rates(rpm);
    var r := RefillRate(rpm);
    NonNegative(e.bucket, from);
    if hits == [] {
      Nothing(e, rpm, burst);
      assert (to - from) * r >= 0;
    } else {
      var h := hits[0];
      var (allowed, e1) := HitBy(e, h, rpm, burst);
      Unfold(e, hits, rpm, burst);
      OneHit(e, h, from, rpm, burst);
      Later(e1, hits, h.now, rpm, burst);
      var rest := hits[1..];
      assert forall i :: 0 <= i < |rest| ==> rest[i] == hits[i + 1];
      assert forall i :: 0 <= i < |rest| ==> h.now <= rest[i].now <= to;
      WindowBound(e1, rest, h.now, to, rpm, burst);
      assert (to - from) * r == (h.now - from) * r + (to - h.now) * r;
    }
  }

  // The hits still to come are later.
  lemma {:induction false} Ordered(e: Entry, hits: seq<Event>, i: nat, rpm: int, burst: int)
    requires rpm > 0 && Possible(e, hits, rpm, burst) && i < |hits|
    ensures e.seen <= hits[i].now
    decreases |hits|
  {
    hide Consumed, RefillRate;
    if i > 0 {
      Ordered(HitBy(e, hits[0], rpm, burst).1, hits[1..], i - 1, rpm, burst);
    }
  }

  lemma Later(e1: Entry, hits: seq<Event>, now: int, rpm: int, burst: int)
    requires rpm > 0 && hits != [] && e1.seen == now && Possible(e1, hits[1..], rpm, burst)
    ensures forall i :: 1 <= i < |hits| ==> now <= hits[i].now
  {
    hide Possible;
    forall i | 1 <= i < |hits|
      ensures now <= hits[i].now
    {
      Ordered(e1, hits[1..], i - 1, rpm, burst);
    }
  }

  lemma Nothing(e: Entry, rpm: int, burst: int)
    requires rpm > 0
    ensures Allowed(e, [], rpm, burst) == 0 && Faults([]) == 0
  {
  }

  lemma Unfold(e: Entry, hits: seq<Event>, rpm: int, burst: int)
    requires rpm > 0 && hits != [] && Possible(e, hits, rpm, burst)
    ensures var h := hits[0]; var (allowed, e1) := HitBy(e, h, rpm, burst);
            && e.seen <= h.now && (h.evicted ==> h.now - e.seen > STALE) && Possible(e1, hits[1..], rpm, burst)
            && Allowed(e, hits, rpm, burst) == (if allowed then 1 else 0) + Allowed(e1, hits[1..], rpm, burst)
            && Faults(hits) == (if h.weak || h.evicted then 1 else 0) + Faults(hits[1..])
  {
  }

  lemma OneHit(e: Entry, h: Event, from: int, rpm: int, burst: int)
    requires rpm > 0 && burst > 0 && Sound(e.bucket, from, rpm, burst) && e.bucket.last <= e.seen <= h.now
             && from <= h.now
    requires h.evicted ==> h.now - e.seen > STALE && burst <= 120 * RefillRate(rpm)
    ensures var (allowed, e1) := HitBy(e, h, rpm, burst);
            && Sound(e1.bucket, h.now, rpm, burst) && e1.bucket.last <= e1.seen == h.now
            && Credit(e1.bucket, h.now) + (if allowed then 1000 else 0)
            <= Credit(e.bucket, from) + (h.now - from) * RefillRate(rpm) + (if h.weak || h.evicted then 1000 else 0)
  {
    hide RefillRate;
    Rates(rpm);
    Grows(e.bucket, from, h.now);
    if h.evicted {
      IdleIsFull(e.bucket, h.now, rpm, burst);
      NonNegative(Full(rpm, burst, h.now), h.now);
    } else {
      ConsumeCost(e.bucket, h.now, h.weak, rpm, burst);
    }
  }

  // After two minutes a small enough bucket would be full anyway.
  lemma IdleIsFull(b: Bucket, now: int, rpm: int, burst: int)
    requires rpm > 0 && b.tokens >= 0 && b.max == 1000 * burst && b.refill == RefillRate(rpm)
    requires now - b.last > STALE && burst <= 120 * RefillRate(rpm)
    ensures Credit(b, now) == b.max
  {
    hide RefillRate;
    Rates(rpm);
    assert (now - b.last) * b.refill >= STALE * b.refill;
  }

  // A client's first hit is let through free; from then on, in any window, the allowed requests
  // are bounded by the burst and the refill, plus one for every eviction or failed exchange.
  // Tokens stay in their range.
  lemma RateBound(past: seq<Event>, window: seq<Event>, start: int, from: int, to: int, rpm: int, burst: int)
    requires rpm > 0 && burst > 0 && from <= to
    requires var e := Hit(None, rpm, burst, start, false).1; Possible(e, past + window, rpm, burst)
    requires start <= from && (forall i :: 0 <= i < |past| ==> past[i].now <= from)
    requires forall i :: 0 <= i < |window| ==> from <= window[i].now <= to
    requires burst <= 120 * RefillRate(rpm) || forall i :: 0 <= i < |window| ==> !window[i].evicted
    ensures var e := EntryAfter(Hit(None, rpm, burst, start, false).1, past, rpm, burst);
            && 0 <= e.bucket.tokens <= 1000 * burst
            && 1000 * Allowed(e, window, rpm, burst) <= 1000 * burst + (to - from) * RefillRate(rpm)
                 + 1000 * Faults(window)
  {
    hide RefillRate;
    Rates(rpm);
    var e0 := Hit(None, rpm, burst, start, false).1;
    AfterSound(e0, past, window, from, rpm, burst);
    var e := EntryAfter(e0, past, rpm, burst);
    WindowBound(e, window, from, to, rpm, burst);
    NonNegative(e.bucket, from);
  }

  function EntryAfter(e: Entry, hits: seq<Event>, rpm: int, burst: int): Entry
    requires rpm > 0
    decreases |hits|
  {
    if hits == [] then e else EntryAfter(HitBy(e, hits[0], rpm, burst).1, hits[1..], rpm, burst)
  }

  lemma {:induction false} AfterSound(e: Entry, past: seq<Event>, window: seq<Event>, from: int, rpm: int, burst: int)
    requires rpm > 0 && burst > 0 && Sound(e.bucket, e.seen, rpm, burst) && e.seen <= from
    requires Possible(e, past + window, rpm, burst) && forall i :: 0 <= i < |past| ==> past[i].now <= from
    ensures var e1 := EntryAfter(e, past, rpm, burst);
            && Sound(e1.bucket, e1.seen, rpm, burst) && e1.seen <= from && Possible(e1, window, rpm, burst)
    decreases |past|
  {
    hide Consumed, RefillRate;
    if past == [] {
      assert past + window == window;
    } else {
      assert (past + window)[1..] == past[1..] + window;
      Rates(rpm);
      var h := past[0];
      assert h == (past + window)[0];
      if !h.evicted {
        ConsumeCost(e.bucket, h.now, h.weak, rpm, burst);
      }
      AfterSound(HitBy(e, h, rpm, burst).1, past[1..], window, from, rpm, burst);
    }
  }

  // With the burst left at its default, evictions are covered.
  lemma DefaultBurst(rpm: int)
    requires rpm > 0
    ensures rpm <= 120 * RefillRate(rpm)
  {
  }

  // A failed exchange really costs one: a burst of one, idle, lets two through at once.
  lemma WeakExchange() returns (e: Entry, hits: seq<Event>)
    ensures e == Hit(None, 60, 1, 0, false).1 && Possible(e, hits, 60, 1)
    ensures forall i :: 0 <= i < |hits| ==> hits[i].now == 2000
    ensures Allowed(e, hits, 60, 1) == 2
  {
    e := Hit(None, 60, 1, 0, false).1;
    hits := [Event(2000, true, false), Event(2000, false, false)];
    var e1 := HitBy(e, hits[0], 60, 1).1;
    assert hits[1..] == [hits[1]] && hits[1..][1..] == [];
    assert HitBy(e1, hits[1], 60, 1).0;
    assert Possible(e1, hits[1..], 60, 1);
    assert Allowed(e1, hits[1..], 60, 1) == 1;
  }

  // ---------- the limit by the minute ----------

  function EverySecond(from: int, n: nat): seq<Event> {
    seq(n, i => Event(from + 1000 * (i + 1), false, false))
  }

  // Whatever the limit, a client that comes once a second is always let in: the refill is at
  // least one thousandth a millisecond.
  lemma {:induction false} OnceASecond(e: Entry, n: nat, rpm: int, burst: int)
    requires rpm > 0 && burst > 0 && Sound(e.bucket, e.seen, rpm, burst)
    ensures Possible(e, EverySecond(e.seen, n), rpm, burst) && Allowed(e, EverySecond(e.seen, n), rpm, burst) == n
    decreases n
  {
    hide Consumed, Credit, RefillRate;
    if n > 0 {
      var hits := EverySecond(e.seen, n);
      var now := e.seen + 1000;
      Rates(rpm);
      ConsumeCost(e.bucket, now, false, rpm, burst);
      OneSecond(e.bucket, e.seen, rpm, burst);
      var e1 := HitBy(e, hits[0], rpm, burst).1;
      assert hits[1..] == EverySecond(e1.seen, n - 1);
      OnceASecond(e1, n - 1, rpm, burst);
    }
  }

  lemma OneSecond(b: Bucket, seen: int, rpm: int, burst: int)
    requires rpm > 0 && burst > 0 && Sound(b, seen, rpm, burst)
    ensures Credit(b, seen + 1000) >= 1000
  {
    hide RefillRate;
    Rates(rpm);
    assert (seen + 1000 - b.last) * b.refill >= 1000;
  }

  // So what is earned in a minute is within the configured limit exactly from sixty a minute on.
  lemma MinuteExact(rpm: int)
    requires rpm > 0
    ensures 60_000 * RefillRate(rpm) <= 1000 * rpm <==> rpm >= 60
  {
  }
}
