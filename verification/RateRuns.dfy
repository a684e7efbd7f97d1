/** Runs of the rate limiter: many clients on one table, each told what its own requests earn. */
module RateRuns {
  import opened Options
  import opened RateLimit

  datatype Request = Request(ip: string, now: int, weak: bool)

  // Which of the requests the limiter lets in, from the table `es` on.
  function Serve(es: map<string, Entry>, reqs: seq<Request>, rpm: int, burst: int): (r: seq<bool>)
    requires rpm > 0
    ensures |r| == |reqs|
    decreases |reqs|
  {
    if reqs == [] then []
    else
      var q := reqs[0];
      var (ok, next) := Checked(es, q.ip, rpm, burst, q.now, q.weak);
      [ok] + Serve(next, reqs[1..], rpm, burst)
  }

  // One client's requests, and the answers to them.
  function Mine(reqs: seq<Request>, ip: string): seq<Request> {
    if reqs == [] then []
    else (if reqs[0].ip == ip then [reqs[0]] else []) + Mine(reqs[1..], ip)
  }

  function Told(reqs: seq<Request>, answers: seq<bool>, ip: string): seq<bool>
    requires |answers| == |reqs|
  {
    if reqs == [] then []
    else (if reqs[0].ip == ip then [answers[0]] else []) + Told(reqs[1..], answers[1..], ip)
  }

  function Count(a: seq<bool>): nat {
    if a == [] then 0 else (if a[0] then 1 else 0) + Count(a[1..])
  }

  // Thousandths of a request earned in so many milliseconds: `rpm / 60` each, at least one.
  function Earned(rpm: int, ms: int): int {
    if rpm < 60 then ms else (rpm / 60) * ms
  }

  function Addresses(reqs: seq<Request>): set<string> {
    set i | 0 <= i < |reqs| :: reqs[i].ip
  }

  // ---------- one client's own hits ----------

  function Replies(e: Option<Entry>, hits: seq<Event>, rpm: int, burst: int): (r: seq<bool>)
    requires rpm > 0
    ensures |r| == |hits|
    decreases |hits|
  {
    if hits == [] then []
    else
      var (ok, e1) := Hit(if hits[0].evicted then None else e, rpm, burst, hits[0].now, hits[0].weak);
      [ok] + Replies(Some(e1), hits[1..], rpm, burst)
  }

  // A request as an event: `evicted` where its entry is no longer, or not yet, in the table.
  function OwnEvent(es: map<string, Entry>, q: Request, ip: string): Event {
    Event(q.now, q.weak, ip !in Kept(es, q.now))
  }

  function Own(es: map<string, Entry>, reqs: seq<Request>, ip: string, rpm: int, burst: int): seq<Event>
    requires rpm > 0
    decreases |reqs|
  {
    if reqs == [] then []
    else
      var q := reqs[0];
      var rest := Own(Checked(es, q.ip, rpm, burst, q.now, q.weak).1, reqs[1..], ip, rpm, burst);
      (if q.ip == ip then [OwnEvent(es, q, ip)] else []) + rest
  }

  lemma {:induction false} OwnMine(es: map<string, Entry>, reqs: seq<Request>, ip: string, rpm: int, burst: int)
    requires rpm > 0
    ensures var hits, m := Own(es, reqs, ip, rpm, burst), Mine(reqs, ip);
            |hits| == |m| && forall i :: 0 <= i < |m| ==> hits[i].now == m[i].now && hits[i].weak == m[i].weak
    ensures var m := Mine(reqs, ip); forall i :: 0 <= i < |m| ==> m[i].ip == ip
    decreases |reqs|
  {
    hide Checked, Kept, Own;
    if reqs == [] {
      NoneOwn(es, ip, rpm, burst);
    } else {
      var q := reqs[0];
      OwnFirst(es, reqs, ip, rpm, burst);
      OwnMine(Checked(es, q.ip, rpm, burst, q.now, q.weak).1, reqs[1..], ip, rpm, burst);
    }
  }

  lemma NoneOwn(es: map<string, Entry>, ip: string, rpm: int, burst: int)
    requires rpm > 0
    ensures Own(es, [], ip, rpm, burst) == []
  {
  }

  // The other clients' requests do not touch its entry, but for removing it; which happens
  // exactly when there are more than fifty thousand and it has not been used for two minutes.
  lemma CheckedEntry(es: map<string, Entry>, q: Request, ip: string, rpm: int, burst: int)
    requires rpm > 0
    ensures var next := Checked(es, q.ip, rpm, burst, q.now, q.weak).1;
            && (q.ip != ip ==> (ip in next <==> ip in Kept(es, q.now)))
            && (q.ip != ip ==> (ip in next ==> ip in es && next[ip] == es[ip]))
            && (q.ip == ip ==> ip in next)
    ensures ip in Kept(es, q.now) ==> ip in es && Kept(es, q.now)[ip] == es[ip]
    ensures ip in Kept(es, q.now) <==> ip in es && (|es| <= 50_000 || q.now - es[ip].seen <= 120_000)
    ensures Checked(es, q.ip, rpm, burst, q.now, q.weak).1.Keys <= es.Keys + {q.ip}
  {
    hide Hit;
  }

  lemma CheckedHit(es: map<string, Entry>, q: Request, rpm: int, burst: int)
    requires rpm > 0
    ensures var (ok, next) := Checked(es, q.ip, rpm, burst, q.now, q.weak);
            var kept := Kept(es, q.now);
            q.ip in next && (ok, next[q.ip])
                         == Hit(if q.ip in kept then Some(kept[q.ip]) else None, rpm, burst, q.now, q.weak)
  {
    hide Hit, Kept;
  }

  // The answers a client gets are those of its own bucket.
  lemma {:induction false} Project(es: map<string, Entry>, reqs: seq<Request>, ip: string, e: Option<Entry>, rpm: int,
                                   burst: int)
    requires rpm > 0 && (ip in es ==> e == Some(es[ip]))
    ensures Told(reqs, Serve(es, reqs, rpm, burst), ip) == Replies(e, Own(es, reqs, ip, rpm, burst), rpm, burst)
    decreases |reqs|
  {
    hide Checked, Kept, Hit;
    if reqs != [] {
      var q := reqs[0];
      var (ok, next) := Checked(es, q.ip, rpm, burst, q.now, q.weak);
      CheckedEntry(es, q, ip, rpm, burst);
      CheckedHit(es, q, rpm, burst);
      var answers := Serve(es, reqs, rpm, burst);
      assert answers[0] == ok && answers[1..] == Serve(next, reqs[1..], rpm, burst);
      var e1 := if q.ip == ip then Some(next[ip]) else e;
      Project(next, reqs[1..], ip, e1, rpm, burst);
      var rest := Own(next, reqs[1..], ip, rpm, burst);
      if q.ip == ip {
        var hits := Own(es, reqs, ip, rpm, burst);
        assert hits[0] == OwnEvent(es, q, ip) && hits[1..] == rest;
      } else {
        assert [] + rest == rest;
      }
    }
  }

  // ---------- exactly what is let in ----------

  // Everything taken since hit `j`, and one more, is covered by the burst and what was earned.
  predicate Covered(a: seq<bool>, at: seq<int>, j: nat, i: nat, have: int, rpm: int)
    requires j <= i < |a| == |at|
  {
    1000 * Count(a[j..i]) + 1000 <= have + Earned(rpm, at[i] - at[j])
  }

  function Times(hits: seq<Event>): (r: seq<int>)
    ensures |r| == |hits|
  {
    seq(|hits|, i requires 0 <= i < |hits| => hits[i].now)
  }

  predicate InOrder(at: seq<int>) {
    forall i, j :: 0 <= i <= j < |at| ==> at[i] <= at[j]
  }

  lemma EarnedIs(rpm: int, ms: int)
    requires rpm > 0
    ensures Earned(rpm, ms) == ms * RefillRate(rpm)
  {
    assert rpm / 60 >= 1 <==> rpm >= 60;
  }

  lemma CreditLater(b: Bucket, x: int, y: int)
    requires x <= y && b.refill >= 0
    ensures Credit(b, y) == var sum := Credit(b, x) + (y - x) * b.refill; if sum < b.max then sum else b.max
  {
    assert (y - b.last) * b.refill == (x - b.last) * b.refill + (y - x) * b.refill;
    assert (y - x) * b.refill >= 0;
  }

  // One hit: what it leaves is at least the credit less its cost, and exactly that without a
  // fault.
  lemma HitCredit(e: Option<Entry>, h: Event, rpm: int, burst: int)
    requires rpm > 0 && burst > 0 && (!h.evicted ==> e.Some? && Sound(e.value.bucket, h.now, rpm, burst))
    ensures var (ok, e1) := Hit(if h.evicted then None else e, rpm, burst, h.now, h.weak);
            && Sound(e1.bucket, h.now, rpm, burst)
            && (h.evicted ==> ok && Credit(e1.bucket, h.now) == 1000 * burst)
            && (!h.evicted ==>
                  var c := Credit(e.value.bucket, h.now);
                  && Credit(e1.bucket, h.now) >= c - (if ok then 1000 else 0)
                  && (!h.weak ==> (ok <==> c >= 1000) && Credit(e1.bucket, h.now) == c - (if ok then 1000 else 0)))
  {
    Rates(rpm);
    if !h.evicted {
      ConsumeCost(e.value.bucket, h.now, h.weak, rpm, burst);
      WeakCost(e.value.bucket, h.now, rpm, burst);
    } else {
      assert (h.now - h.now) * RefillRate(rpm) == 0;
    }
  }

  lemma WeakCost(b: Bucket, now: int, rpm: int, burst: int)
    requires rpm > 0 && burst > 0 && Sound(b, now, rpm, burst)
    ensures var (ok, r) := Consumed(b, now, true); Credit(r, now) >= Credit(b, now) - (if ok then 1000 else 0)
  {
  }

  ghost predicate Fits(a: seq<bool>, at: seq<int>, i: nat, have: int, rpm: int, burst: int)
    requires i < |a| == |at|
  {
    && Covered(a, at, 0, i, have, rpm)
    && forall j: nat :: 1 <= j <= i ==> Covered(a, at, j, i, 1000 * burst, rpm)
  }

  lemma {:induction false} Admission(e: Entry, hits: seq<Event>, i: nat, rpm: int, burst: int)
    requires rpm > 0 && burst > 0 && i < |hits| && InOrder(Times(hits))
    requires Sound(e.bucket, hits[0].now, rpm, burst)
    ensures var a := Replies(Some(e), hits, rpm, burst);
            var have := Credit(e.bucket, hits[0].now);
            && (!hits[i].weak && Fits(a, Times(hits), i, have, rpm, burst) ==> a[i])
            && ((forall k :: 0 <= k <= i ==> !hits[k].weak && !hits[k].evicted) && a[i] ==>
                  Fits(a, Times(hits), i, have, rpm, burst))
    decreases i
  {
    hide Hit, Credit, Sound, Fits, RefillRate;
    var a := Replies(Some(e), hits, rpm, burst);
    var at := Times(hits);
    var have := Credit(e.bucket, hits[0].now);
    HitCredit(Some(e), hits[0], rpm, burst);
    if i == 0 {
      FitsFirst(a, at, have, rpm, burst);
    } else {
      var (ok, e1) := Hit(if hits[0].evicted then None else Some(e), rpm, burst, hits[0].now, hits[0].weak);
      var rest := hits[1..];
      assert Times(rest) == at[1..] && a[1..] == Replies(Some(e1), rest, rpm, burst);
      assert at[0] <= at[1];
      SoundLater(e1.bucket, hits[0].now, hits[1].now, rpm, burst);
      Admission(e1, rest, i - 1, rpm, burst);
      FitsNext(a, at, i, have, Credit(e1.bucket, hits[0].now), Credit(e1.bucket, hits[1].now), rpm, burst);
      assert forall k :: 0 <= k <= i - 1 ==> rest[k] == hits[k + 1];
    }
  }

  lemma SoundLater(b: Bucket, x: int, y: int, rpm: int, burst: int)
    requires rpm > 0 && Sound(b, x, rpm, burst) && x <= y
    ensures Sound(b, y, rpm, burst)
    ensures Credit(b, y)
         == var sum := Credit(b, x) + Earned(rpm, y - x); if sum < 1000 * burst then sum else 1000 * burst
  {
    Rates(rpm);
    CreditLater(b, x, y);
    EarnedIs(rpm, y - x);
  }

  lemma FitsFirst(a: seq<bool>, at: seq<int>, have: int, rpm: int, burst: int)
    requires 0 < |a| == |at|
    ensures Fits(a, at, 0, have, rpm, burst) <==> 1000 <= have
  {
    assert a[0..0] == [];
    assert Earned(rpm, 0) == 0;
  }

  // The first hit's cost and the time up to the second, moved into what there is at the second.
  lemma FitsNext(a: seq<bool>, at: seq<int>, i: nat, have: int, left: int, next: int, rpm: int, burst: int)
    requires 1 <= i < |a| == |at| && rpm > 0 && at[0] <= at[1]
    requires next == var sum := left + Earned(rpm, at[1] - at[0]); if sum < 1000 * burst then sum else 1000 * burst
    ensures left >= have - (if a[0] then 1000 else 0) || left == 1000 * burst ==>
              Fits(a, at, i, have, rpm, burst) ==> Fits(a[1..], at[1..], i - 1, next, rpm, burst)
    ensures left == have - (if a[0] then 1000 else 0) ==>
              Fits(a[1..], at[1..], i - 1, next, rpm, burst) ==> Fits(a, at, i, have, rpm, burst)
  {
    hide Earned, Count, Covered;
    var b, bt, h, max := a[1..], at[1..], i - 1, 1000 * burst;
    CoveredFirst(a, at, i, have, left, next, rpm, max);
    if Fits(a, at, i, have, rpm, burst) {
      assert Covered(a, at, 1, i, max, rpm);
      forall j: nat | 1 <= j <= h
        ensures Covered(b, bt, j, h, max, rpm)
      {
        CoveredNext(a, at, j + 1, i, max, rpm);
      }
    }
    if Fits(b, bt, h, next, rpm, burst) {
      forall j: nat | 2 <= j <= i
        ensures Covered(a, at, j, i, max, rpm)
      {
        CoveredNext(a, at, j, i, max, rpm);
      }
    }
  }

  lemma CoveredNext(a: seq<bool>, at: seq<int>, j: nat, i: nat, have: int, rpm: int)
    requires 1 <= j <= i < |a| == |at|
    ensures Covered(a, at, j, i, have, rpm) <==> Covered(a[1..], at[1..], j - 1, i - 1, have, rpm)
  {
    var rest := a[1..];
    assert forall k :: 0 <= k < i - j ==> rest[j - 1..i - 1][k] == a[j..i][k];
    assert a[j..i] == rest[j - 1..i - 1];
  }

  lemma CoveredFirst(a: seq<bool>, at: seq<int>, i: nat, have: int, left: int, next: int, rpm: int, max: int)
    requires 1 <= i < |a| == |at| && rpm > 0 && at[0] <= at[1]
    requires next == var sum := left + Earned(rpm, at[1] - at[0]); if sum < max then sum else max
    ensures left >= have - (if a[0] then 1000 else 0) || left == max ==>
              Covered(a, at, 0, i, have, rpm) && Covered(a, at, 1, i, max, rpm) ==>
                Covered(a[1..], at[1..], 0, i - 1, next, rpm)
    ensures left == have - (if a[0] then 1000 else 0) ==>
              Covered(a[1..], at[1..], 0, i - 1, next, rpm) ==>
                Covered(a, at, 0, i, have, rpm) && Covered(a, at, 1, i, max, rpm)
  {
    hide Earned, Count;
    assert a[1..i] == a[1..][0..i - 1];
    var front := a[0..i];
    assert |front[1..]| == |a[1..i]|;
    assert forall k :: 0 <= k < i - 1 ==> front[1..][k] == a[1..i][k];
    assert front[1..] == a[1..i];
    CountFirst(a[0..i]);
    EarnedSum(rpm, at[1] - at[0], at[i] - at[1]);
    EarnedSome(rpm, at[1] - at[0]);
  }

  lemma CountFirst(a: seq<bool>)
    requires a != []
    ensures Count(a) == (if a[0] then 1 else 0) + Count(a[1..])
  {
  }

  lemma EarnedSum(rpm: int, x: int, y: int)
    ensures Earned(rpm, x) + Earned(rpm, y) == Earned(rpm, x + y)
  {
    assert (rpm / 60) * x + (rpm / 60) * y == (rpm / 60) * (x + y);
  }

  lemma EarnedSome(rpm: int, ms: int)
    ensures rpm > 0 && ms >= 0 ==> Earned(rpm, ms) >= 0
  {
    if rpm >= 60 && ms >= 0 {
      assert (rpm / 60) * ms >= 0;
    }
  }

  // A new client's first request is let in, and so are as many as the burst after it,
  // whatever their times, the exchanges that fail, and the other clients.
  lemma BurstAdmitted(reqs: seq<Request>, ip: string, rpm: int, burst: int, i: nat)
    requires rpm > 0 && i < |Mine(reqs, ip)| && (i <= burst || burst <= 0)
    ensures |Told(reqs, Serve(map[], reqs, rpm, burst), ip)| == |Mine(reqs, ip)|
    ensures Told(reqs, Serve(map[], reqs, rpm, burst), ip)[i]
  {
    hide Serve, Own, Told, Mine, Replies;
    OwnMine(map[], reqs, ip, rpm, burst);
    Project(map[], reqs, ip, None, rpm, burst);
    Stock(None, Own(map[], reqs, ip, rpm, burst), i, burst + 1, rpm, burst);
  }

  // Tokens for `k` requests.
  ghost predicate Stocked(e: Entry, k: int, rpm: int, burst: int) {
    var b := e.bucket;
    b.max == 1000 * burst && b.refill >= 0 && 1000 * k <= b.tokens <= b.max
  }

  lemma {:induction false} Stock(e: Option<Entry>, hits: seq<Event>, i: nat, k: int, rpm: int, burst: int)
    requires rpm > 0 && i < |hits| && (i < k || burst <= 0)
    requires if e.Some? then Stocked(e.value, k, rpm, burst) else k == burst + 1
    ensures Replies(e, hits, rpm, burst)[i]
    decreases i
  {
    hide Hit, RefillRate;
    var f := if hits[0].evicted then None else e;
    StockHit(f, hits[0], if f.None? then burst + 1 else k, rpm, burst);
    if i > 0 {
      var e1 := Hit(f, rpm, burst, hits[0].now, hits[0].weak).1;
      if e.Some? && f.None? && burst > 0 {
        assert 1000 * k <= 1000 * burst;
      }
      Stock(Some(e1), hits[1..], i - 1, if f.None? then burst else k - 1, rpm, burst);
    }
  }

  lemma StockHit(f: Option<Entry>, h: Event, k: int, rpm: int, burst: int)
    requires rpm > 0 && (0 < k || burst <= 0)
    requires if f.Some? then Stocked(f.value, k, rpm, burst) else k == burst + 1
    ensures var (ok, e1) := Hit(f, rpm, burst, h.now, h.weak); ok && Stocked(e1, k - 1, rpm, burst)
  {
    Rates(rpm);
    if f.Some? {
      var b := f.value.bucket;
      assert h.now > b.last ==> (h.now - b.last) * b.refill >= 0;
    }
  }

  // ---------- the limiter from an empty table ----------

  // One more request of the client fits, in every window that starts at an earlier one of its
  // requests behind the first, which is free.
  ghost predicate Affords(m: seq<Request>, a: seq<bool>, i: nat, rpm: int, burst: int)
    requires i < |a| == |m|
  {
    forall j: nat :: 1 <= j <= i ==>
      1000 * Count(a[j..i]) + 1000 <= 1000 * burst + Earned(rpm, m[i].now - m[j].now)
  }

  predicate TimesRise(m: seq<Request>) {
    forall i, j :: 0 <= i <= j < |m| ==> m[i].now <= m[j].now
  }

  lemma {:induction false} FirstNew(es: map<string, Entry>, reqs: seq<Request>, ip: string, rpm: int, burst: int)
    requires rpm > 0 && ip !in es && Mine(reqs, ip) != []
    ensures Own(es, reqs, ip, rpm, burst) != [] && Own(es, reqs, ip, rpm, burst)[0].evicted
    decreases |reqs|
  {
    hide Checked, Kept;
    var q := reqs[0];
    CheckedEntry(es, q, ip, rpm, burst);
    if q.ip != ip {
      FirstNew(Checked(es, q.ip, rpm, burst, q.now, q.weak).1, reqs[1..], ip, rpm, burst);
    }
  }

  lemma Smaller(a: set<string>, b: set<string>)
    requires a <= b
    ensures |a| <= |b|
  {
    assert b == a + (b - a);
  }

  // With few addresses nobody is ever removed.
  lemma {:induction false} NeverEvicted(es: map<string, Entry>, reqs: seq<Request>, ip: string, all: set<string>,
                                        rpm: int, burst: int)
    requires rpm > 0 && es.Keys <= all && Addresses(reqs) <= all && |all| <= 50_000
    ensures var hits := Own(es, reqs, ip, rpm, burst);
            forall k :: 0 <= k < |hits| && (k > 0 || ip in es) ==> !hits[k].evicted
    decreases |reqs|
  {
    hide Checked, Kept, Hit;
    if reqs != [] {
      var q := reqs[0];
      Smaller(es.Keys, all);
      assert |es| == |es.Keys|;
      assert q.ip in Addresses(reqs);
      assert Addresses(reqs[1..]) <= all by {
        assert forall i :: 0 <= i < |reqs[1..]| ==> reqs[1..][i] == reqs[i + 1];
      }
      CheckedEntry(es, q, ip, rpm, burst);
      var next := Checked(es, q.ip, rpm, burst, q.now, q.weak).1;
      NeverEvicted(next, reqs[1..], ip, all, rpm, burst);
      OwnStep(es, reqs, ip, rpm, burst);
    }
  }

  lemma OwnStep(es: map<string, Entry>, reqs: seq<Request>, ip: string, rpm: int, burst: int)
    requires rpm > 0 && reqs != [] && |es| <= 50_000
    requires var q := reqs[0];
             var next := Checked(es, q.ip, rpm, burst, q.now, q.weak).1;
             var rest := Own(next, reqs[1..], ip, rpm, burst);
             forall k :: 0 <= k < |rest| && (k > 0 || ip in next) ==> !rest[k].evicted
    ensures var hits := Own(es, reqs, ip, rpm, burst);
            forall k :: 0 <= k < |hits| && (k > 0 || ip in es) ==> !hits[k].evicted
  {
    hide Checked, Kept, Hit, Own;
    var q := reqs[0];
    CheckedEntry(es, q, ip, rpm, burst);
    OwnFirst(es, reqs, ip, rpm, burst);
    var next := Checked(es, q.ip, rpm, burst, q.now, q.weak).1;
    var hits, rest := Own(es, reqs, ip, rpm, burst), Own(next, reqs[1..], ip, rpm, burst);
    if q.ip == ip {
      forall k | 0 <= k < |hits| && (k > 0 || ip in es)
        ensures !hits[k].evicted
      {
        assert k > 0 ==> hits[k] == rest[k - 1];
      }
    }
  }

  lemma {:induction false} OwnFirst(es: map<string, Entry>, reqs: seq<Request>, ip: string, rpm: int, burst: int)
    requires rpm > 0 && reqs != []
    ensures var q, hits := reqs[0], Own(es, reqs, ip, rpm, burst);
            var rest := Own(Checked(es, q.ip, rpm, burst, q.now, q.weak).1, reqs[1..], ip, rpm, burst);
            && (q.ip == ip ==> hits == [OwnEvent(es, q, ip)] + rest)
            && (q.ip != ip ==> hits == rest)
  {
    hide Checked, Kept;
  }

  // The hits behind the first, from a full bucket.
  lemma Behind(hits: seq<Event>, rpm: int, burst: int) returns (e1: Entry)
    requires rpm > 0 && burst > 0 && |hits| > 1 && hits[0].evicted && InOrder(Times(hits))
    ensures Replies(None, hits, rpm, burst) == [true] + Replies(Some(e1), hits[1..], rpm, burst)
    ensures Sound(e1.bucket, hits[0].now, rpm, burst) && Sound(e1.bucket, hits[1].now, rpm, burst)
    ensures Credit(e1.bucket, hits[1].now) == 1000 * burst && e1.seen == e1.bucket.last == hits[0].now
    ensures e1 == Hit(None, rpm, burst, hits[0].now, false).1
  {
    e1 := Hit(None, rpm, burst, hits[0].now, hits[0].weak).1;
    assert Times(hits)[0] <= Times(hits)[1];
    Rates(rpm);
    NonNegative(e1.bucket, hits[1].now);
  }

  lemma FitsAffords(m: seq<Request>, a: seq<bool>, at: seq<int>, i: nat, rpm: int, burst: int)
    requires 1 <= i < |a| == |m| == |at| + 1 && forall k :: 0 <= k < |at| ==> at[k] == m[k + 1].now
    ensures Fits(a[1..], at, i - 1, 1000 * burst, rpm, burst) <==> Affords(m, a, i, rpm, burst)
  {
    hide Count, Earned, Covered;
    var b, h := a[1..], i - 1;
    if Affords(m, a, i, rpm, burst) {
      forall j: nat | j <= h
        ensures Covered(b, at, j, h, 1000 * burst, rpm)
      {
        CoveredShift(m, a, at, j + 1, i, 1000 * burst, rpm);
      }
    }
    if Fits(b, at, h, 1000 * burst, rpm, burst) {
      forall j: nat | 1 <= j <= i
        ensures 1000 * Count(a[j..i]) + 1000 <= 1000 * burst + Earned(rpm, m[i].now - m[j].now)
      {
        CoveredShift(m, a, at, j, i, 1000 * burst, rpm);
      }
    }
  }

  lemma CoveredShift(m: seq<Request>, a: seq<bool>, at: seq<int>, j: nat, i: nat, have: int, rpm: int)
    requires 1 <= j <= i < |a| == |m| == |at| + 1 && forall k :: 0 <= k < |at| ==> at[k] == m[k + 1].now
    ensures Covered(a[1..], at, j - 1, i - 1, have, rpm)
       <==> 1000 * Count(a[j..i]) + 1000 <= have + Earned(rpm, m[i].now - m[j].now)
  {
    var rest := a[1..];
    assert forall k :: 0 <= k < i - j ==> rest[j - 1..i - 1][k] == a[j..i][k];
    assert a[j..i] == rest[j - 1..i - 1];
  }

  // What the limiter owes its clients: a request whose exchange does not fail is let in
  // whenever what the client took before leaves room for it, whoever else comes, and even if
  // its entry was removed meanwhile. With no failed exchange and no more than fifty thousand
  // addresses these are exactly the requests let in.
  lemma AdmittedExact(reqs: seq<Request>, ip: string, i: nat, rpm: int, burst: int)
    requires rpm > 0 && burst > 0 && 1 <= i < |Mine(reqs, ip)| && TimesRise(Mine(reqs, ip))
    ensures |Told(reqs, Serve(map[], reqs, rpm, burst), ip)| == |Mine(reqs, ip)|
    ensures var m, a := Mine(reqs, ip), Told(reqs, Serve(map[], reqs, rpm, burst), ip);
            && (!m[i].weak && Affords(m, a, i, rpm, burst) ==> a[i])
            && ((forall k :: 1 <= k <= i ==> !m[k].weak) && |Addresses(reqs)| <= 50_000 ==>
                  (a[i] <==> Affords(m, a, i, rpm, burst)))
  {
    hide Serve, Own, Told, Mine, Replies, Fits, Affords, Sound, Credit, Hit, Addresses;
    var m, a := Mine(reqs, ip), Told(reqs, Serve(map[], reqs, rpm, burst), ip);
    var hits := Own(map[], reqs, ip, rpm, burst);
    OwnMine(map[], reqs, ip, rpm, burst);
    Project(map[], reqs, ip, None, rpm, burst);
    FirstNew(map[], reqs, ip, rpm, burst);
    var e1 := Behind(hits, rpm, burst);
    var rest := hits[1..];
    assert InOrder(Times(rest));
    Admission(e1, rest, i - 1, rpm, burst);
    assert a[1..] == Replies(Some(e1), rest, rpm, burst);
    FitsAffords(m, a, Times(rest), i, rpm, burst);
    if |Addresses(reqs)| <= 50_000 {
      NeverEvicted(map[], reqs, ip, Addresses(reqs), rpm, burst);
    }
  }

  // ---------- and no more ----------

  // An entry is removed only after two minutes without a request of its client.
  lemma {:induction false} OwnPossible(es: map<string, Entry>, reqs: seq<Request>, ip: string, e: Entry, clock: int,
                                       rpm: int, burst: int)
    requires rpm > 0 && TimesRise(reqs) && (reqs != [] ==> clock <= reqs[0].now)
    requires if ip in es then es[ip] == e && e.seen <= clock else clock - e.seen > 120_000
    ensures Possible(e, Own(es, reqs, ip, rpm, burst), rpm, burst)
    decreases |reqs|
  {
    hide Checked, Kept, Hit;
    if reqs != [] {
      var q := reqs[0];
      var next := Checked(es, q.ip, rpm, burst, q.now, q.weak).1;
      CheckedEntry(es, q, ip, rpm, burst);
      CheckedHit(es, q, rpm, burst);
      assert forall i :: 0 <= i < |reqs[1..]| ==> reqs[1..][i] == reqs[i + 1];
      if q.ip == ip {
        HitSeen(if ip in Kept(es, q.now) then Some(e) else None, q.now, q.weak, rpm, burst);
      }
      OwnPossible(next, reqs[1..], ip, if q.ip == ip then next[ip] else e, q.now, rpm, burst);
      var hits, rest := Own(es, reqs, ip, rpm, burst), Own(next, reqs[1..], ip, rpm, burst);
      if q.ip == ip {
        assert hits[0] == OwnEvent(es, q, ip) && hits[1..] == rest;
        assert HitBy(e, hits[0], rpm, burst).1 == next[ip];
      } else {
        assert hits == rest;
      }
    }
  }

  lemma HitSeen(e: Option<Entry>, now: int, weak: bool, rpm: int, burst: int)
    requires rpm > 0
    ensures Hit(e, rpm, burst, now, weak).1.seen == now
  {
  }

  // Requests of the client, from `j` up to `k`, that may cost the limiter one: an exchange
  // failed, or the client came back after more than two minutes.
  function Slips(m: seq<Request>, j: nat, k: nat): nat
    requires 1 <= j && k <= |m|
    decreases k - j
  {
    if j >= k then 0
    else (if m[j].weak || m[j].now - m[j - 1].now > 120_000 then 1 else 0) + Slips(m, j + 1, k)
  }

  lemma {:induction false} RepliesFrom(e: Entry, hits: seq<Event>, p: nat, q: nat, rpm: int, burst: int)
    requires rpm > 0 && p <= q <= |hits|
    ensures Count(Replies(Some(e), hits, rpm, burst)[p..q])
         == Allowed(EntryAfter(e, hits[..p], rpm, burst), hits[p..q], rpm, burst)
    decreases q
  {
    hide Hit, Replies, Allowed, Count, EntryAfter;
    var a := Replies(Some(e), hits, rpm, burst);
    if q == 0 {
      NothingYet(e, rpm, burst);
      assert a[0..0] == [] && hits[0..0] == [] && hits[..0] == [];
    } else {
      var rest := hits[1..];
      var (ok, e1) := HitBy(e, hits[0], rpm, burst);
      var b := Replies(Some(e1), rest, rpm, burst);
      RepliesFirst(e, hits, rpm, burst);
      if p > 0 {
        RepliesFrom(e1, rest, p - 1, q - 1, rpm, burst);
        Behead(a, b, ok, p, q);
        AfterFirst(e, hits, p, q, rpm, burst);
      } else {
        RepliesFrom(e1, rest, 0, q - 1, rpm, burst);
        AllFirst(a, b, ok, e, hits, q, rpm, burst);
      }
    }
  }

  lemma NothingYet(e: Entry, rpm: int, burst: int)
    requires rpm > 0
    ensures Count([]) == 0 && Allowed(e, [], rpm, burst) == 0 && EntryAfter(e, [], rpm, burst) == e
  {
  }

  lemma RepliesFirst(e: Entry, hits: seq<Event>, rpm: int, burst: int)
    requires rpm > 0 && hits != []
    ensures var (ok, e1) := HitBy(e, hits[0], rpm, burst);
            Replies(Some(e), hits, rpm, burst) == [ok] + Replies(Some(e1), hits[1..], rpm, burst)
  {
    hide Hit;
  }

  lemma Behead(a: seq<bool>, b: seq<bool>, ok: bool, p: nat, q: nat)
    requires a == [ok] + b && 1 <= p <= q <= |a|
    ensures a[p..q] == b[p - 1..q - 1]
  {
    assert forall k :: 0 <= k < q - p ==> a[p..q][k] == b[p - 1..q - 1][k];
  }

  lemma AfterFirst(e: Entry, hits: seq<Event>, p: nat, q: nat, rpm: int, burst: int)
    requires rpm > 0 && 1 <= p <= q <= |hits|
    ensures hits[p..q] == hits[1..][p - 1..q - 1]
    ensures EntryAfter(e, hits[..p], rpm, burst)
         == EntryAfter(HitBy(e, hits[0], rpm, burst).1, hits[1..][..p - 1], rpm, burst)
  {
    hide Hit, EntryAfter;
    FromRest(hits, p, q);
    assert hits[..p] != [] && hits[..p][0] == hits[0];
    EntryFirst(e, hits[..p], rpm, burst);
  }

  lemma EntryFirst(e: Entry, hits: seq<Event>, rpm: int, burst: int)
    requires rpm > 0 && hits != []
    ensures EntryAfter(e, hits, rpm, burst) == EntryAfter(HitBy(e, hits[0], rpm, burst).1, hits[1..], rpm, burst)
  {
    hide Hit;
  }

  lemma FromRest<T>(s: seq<T>, p: nat, q: nat)
    requires 1 <= p <= q <= |s|
    ensures s[p..q] == s[1..][p - 1..q - 1] && s[..p][1..] == s[1..][..p - 1]
  {
    var rest := s[1..];
    assert forall k :: 0 <= k < q - p ==> s[p..q][k] == rest[p - 1..q - 1][k];
    assert forall k :: 0 <= k < p - 1 ==> s[..p][1..][k] == rest[..p - 1][k];
  }

  lemma AllFirst(a: seq<bool>, b: seq<bool>, ok: bool, e: Entry, hits: seq<Event>, q: nat, rpm: int, burst: int)
    requires rpm > 0 && 1 <= q <= |hits| == |a| && a == [ok] + b && ok == HitBy(e, hits[0], rpm, burst).0
    requires var e1, rest := HitBy(e, hits[0], rpm, burst).1, hits[1..];
             Count(b[0..q - 1]) == Allowed(EntryAfter(e1, rest[..0], rpm, burst), rest[0..q - 1], rpm, burst)
    ensures Count(a[0..q]) == Allowed(EntryAfter(e, hits[..0], rpm, burst), hits[0..q], rpm, burst)
  {
    hide Hit;
    var w := a[0..q];
    assert forall k :: 0 <= k < q - 1 ==> b[0..q - 1][k] == w[1..][k];
    assert w[1..] == b[0..q - 1] && hits[0..q][1..] == hits[1..][0..q - 1];
    CountFirst(w);
    assert hits[..0] == [] && hits[1..][..0] == [];
  }

  lemma {:induction false} PossibleFront(e: Entry, hits: seq<Event>, n: nat, rpm: int, burst: int)
    requires rpm > 0 && n <= |hits| && Possible(e, hits, rpm, burst)
    ensures Possible(e, hits[..n], rpm, burst)
    ensures forall i :: 0 <= i < |hits| && hits[i].evicted ==>
              hits[i].now - (if i == 0 then e.seen else hits[i - 1].now) > 120_000
    decreases |hits|
  {
    hide Consumed;
    if hits != [] {
      var e1 := HitBy(e, hits[0], rpm, burst).1;
      var rest := hits[1..];
      PossibleFront(e1, rest, if n > 0 then n - 1 else 0, rpm, burst);
      if n > 0 {
        assert hits[..n][1..] == rest[..n - 1];
      }
      forall i | 1 <= i < |hits| && hits[i].evicted
        ensures hits[i].now - hits[i - 1].now > 120_000
      {
        assert rest[i - 1] == hits[i];
      }
    }
  }

  lemma {:induction false} FaultsSlip(hits: seq<Event>, m: seq<Request>, j: nat, k: nat)
    requires 1 <= j <= k <= |m| == |hits|
    requires forall i :: 0 <= i < |m| ==> hits[i].now == m[i].now && hits[i].weak == m[i].weak
    requires forall i :: 1 <= i < |m| && hits[i].evicted ==> hits[i].now - hits[i - 1].now > 120_000
    ensures Faults(hits[j..k]) <= Slips(m, j, k)
    decreases k - j
  {
    if j < k {
      FaultsSlip(hits, m, j + 1, k);
      assert hits[j..k][1..] == hits[j + 1..k];
    }
  }

  // And no more than that: in any window, from request `j` up to `k`, one client gets at most
  // the burst and what the time earned, plus one for each slip.
  lemma ServedBound(reqs: seq<Request>, ip: string, j: nat, k: nat, rpm: int, burst: int)
    requires rpm > 0 && burst > 0 && 1 <= j < k <= |Mine(reqs, ip)| && TimesRise(reqs)
    requires burst <= Earned(rpm, 120) || |Addresses(reqs)| <= 50_000
    ensures |Told(reqs, Serve(map[], reqs, rpm, burst), ip)| == |Mine(reqs, ip)|
    ensures var m, a := Mine(reqs, ip), Told(reqs, Serve(map[], reqs, rpm, burst), ip);
            1000 * Count(a[j..k]) <= 1000 * burst + Earned(rpm, m[k - 1].now - m[j].now) + 1000 * Slips(m, j, k)
  {
    hide Serve, Own, Told, Mine, Replies, Sound, Credit, Hit, Possible, TimesRise, Earned, Faults, Slips, Allowed;
    hide Addresses, Count;
    var m, a := Mine(reqs, ip), Told(reqs, Serve(map[], reqs, rpm, burst), ip);
    var hits := Own(map[], reqs, ip, rpm, burst);
    OwnMine(map[], reqs, ip, rpm, burst);
    MineRise(reqs, ip);
    Project(map[], reqs, ip, None, rpm, burst);
    FirstNew(map[], reqs, ip, rpm, burst);
    Rising(hits, m);
    var e1 := Behind(hits, rpm, burst);
    RunPossible(reqs, ip, e1, rpm, burst);
    var rest := hits[1..];
    PossibleFront(e1, rest, k - 1, rpm, burst);
    var past, window := rest[..j - 1], rest[j - 1..k - 1];
    assert rest[..k - 1] == past + window;
    WindowTimes(hits, m, j, k, past, window);
    if |Addresses(reqs)| <= 50_000 {
      NeverEvicted(map[], reqs, ip, Addresses(reqs), rpm, burst);
      NoneEvicted(hits, j, k, window);
    }
    EarnedIs(rpm, 120);
    EarnedIs(rpm, m[k - 1].now - m[j].now);
    RateBound(past, window, hits[0].now, m[j].now, m[k - 1].now, rpm, burst);
    RepliesFrom(e1, rest, j - 1, k - 1, rpm, burst);
    TailSlice(a, Replies(Some(e1), rest, rpm, burst), j, k);
    assert window == hits[j..k];
    FaultsSlip(hits, m, j, k);
  }

  lemma WindowTimes(hits: seq<Event>, m: seq<Request>, j: nat, k: nat, past: seq<Event>, window: seq<Event>)
    requires 1 <= j < k <= |m| == |hits| && TimesRise(m) && forall i :: 0 <= i < |m| ==> hits[i].now == m[i].now
    requires past == hits[1..][..j - 1] && window == hits[1..][j - 1..k - 1]
    ensures hits[0].now <= m[j].now <= m[k - 1].now
    ensures forall i :: 0 <= i < |past| ==> past[i].now <= m[j].now
    ensures forall i :: 0 <= i < |window| ==> m[j].now <= window[i].now <= m[k - 1].now
  {
  }

  lemma NoneEvicted(hits: seq<Event>, j: nat, k: nat, window: seq<Event>)
    requires 1 <= j < k <= |hits| && window == hits[1..][j - 1..k - 1]
    requires forall i :: 0 <= i < |hits| && i > 0 ==> !hits[i].evicted
    ensures forall i :: 0 <= i < |window| ==> !window[i].evicted
  {
    forall i | 0 <= i < |window|
      ensures !window[i].evicted
    {
      assert window[i] == hits[j + i];
    }
  }

  lemma TailSlice(a: seq<bool>, b: seq<bool>, j: nat, k: nat)
    requires a == [true] + b && 1 <= j <= k <= |a|
    ensures a[j..k] == b[j - 1..k - 1]
  {
    assert forall i :: 0 <= i < k - j ==> a[j..k][i] == b[j - 1..k - 1][i];
  }

  lemma Rising(hits: seq<Event>, m: seq<Request>)
    requires |hits| == |m| && TimesRise(m) && forall i :: 0 <= i < |m| ==> hits[i].now == m[i].now
    ensures InOrder(Times(hits))
  {
  }

  lemma {:induction false} MineRise(reqs: seq<Request>, ip: string)
    requires TimesRise(reqs)
    ensures TimesRise(Mine(reqs, ip))
    ensures forall i :: 0 <= i < |Mine(reqs, ip)| ==> reqs != [] && reqs[0].now <= Mine(reqs, ip)[i].now
    decreases |reqs|
  {
    if reqs != [] {
      var rest := reqs[1..];
      assert forall i :: 0 <= i < |rest| ==> rest[i] == reqs[i + 1];
      MineRise(rest, ip);
    }
  }

  lemma RunPossible(reqs: seq<Request>, ip: string, e1: Entry, rpm: int, burst: int)
    requires rpm > 0 && TimesRise(reqs) && Own(map[], reqs, ip, rpm, burst) != []
    requires var hits := Own(map[], reqs, ip, rpm, burst);
             hits[0].evicted && e1 == Hit(None, rpm, burst, hits[0].now, false).1
    ensures Possible(e1, Own(map[], reqs, ip, rpm, burst)[1..], rpm, burst)
    ensures forall i :: 1 <= i < |Own(map[], reqs, ip, rpm, burst)| && Own(map[], reqs, ip, rpm, burst)[i].evicted ==>
              var hits := Own(map[], reqs, ip, rpm, burst); hits[i].now - hits[i - 1].now > 120_000
  {
    hide Own, Consumed, Kept, Checked;
    var hits := Own(map[], reqs, ip, rpm, burst);
    SomeReqs(reqs, ip, rpm, burst);
    var clock := reqs[0].now;
    var e0 := Entry(Bucket(0, 0, 0, 0), clock - 120_001);
    OwnPossible(map[], reqs, ip, e0, clock, rpm, burst);
    PossibleFront(e0, hits, 0, rpm, burst);
  }

  lemma SomeReqs(reqs: seq<Request>, ip: string, rpm: int, burst: int)
    requires rpm > 0 && Own(map[], reqs, ip, rpm, burst) != []
    ensures reqs != []
  {
  }
}
