/** The merge sort of `array::sort` under a comparator nobody vouches for: it may answer the
    same question differently on every call. */
module MergeSort {

  // The comparator: the answer to its `c`-th call, asked whether `a` goes before `b`.
  type Less<!T> = (nat, T, T) -> bool

  // ---------- what is computed ----------

  // Two runs merged; the right one goes first only if the comparator says so. The second
  // result counts the calls.
  function Merge<T>(a: seq<T>, b: seq<T>, less: Less<T>, c: nat): (seq<T>, nat)
    decreases |a| + |b|
  {
    if a == [] then (b, c)
    else if b == [] then (a, c)
    else if less(c, b[0], a[0]) then
      var (r, c1) := Merge(a, b[1..], less, c + 1);
      ([b[0]] + r, c1)
    else
      var (r, c1) := Merge(a[1..], b, less, c + 1);
      ([a[0]] + r, c1)
  }

  // One pass: neighbouring runs of width `w` are merged; a last run without a neighbour stays.
  function Pass<T>(s: seq<T>, w: nat, less: Less<T>, c: nat): (seq<T>, nat)
    requires w > 0
    decreases |s|
  {
    if |s| <= w then (s, c)
    else
      var hi := if 2 * w <= |s| then 2 * w else |s|;
      var (m, c1) := Merge(s[..w], s[w..hi], less, c);
      var (rest, c2) := Pass(s[hi..], w, less, c1);
      (m + rest, c2)
  }

  function Passes<T>(s: seq<T>, w: nat, less: Less<T>, c: nat): seq<T>
    requires w > 0
    decreases |s| - w
  {
    if w >= |s| then s
    else
      var (r, c1) := Pass(s, w, less, c);
      PassLength(s, w, less, c);
      Passes(r, 2 * w, less, c1)
  }

  lemma {:induction false} MergeLength<T>(a: seq<T>, b: seq<T>, less: Less<T>, c: nat)
    ensures |Merge(a, b, less, c).0| == |a| + |b|
    decreases |a| + |b|
  {
    if a != [] && b != [] {
      if less(c, b[0], a[0]) {
        MergeLength(a, b[1..], less, c + 1);
      } else {
        MergeLength(a[1..], b, less, c + 1);
      }
    }
  }

  lemma {:induction false} PassLength<T>(s: seq<T>, w: nat, less: Less<T>, c: nat)
    requires w > 0
    ensures |Pass(s, w, less, c).0| == |s|
    decreases |s|
  {
    if |s| > w {
      var hi := if 2 * w <= |s| then 2 * w else |s|;
      MergeLength(s[..w], s[w..hi], less, c);
      PassLength(s[hi..], w, less, Merge(s[..w], s[w..hi], less, c).1);
    }
  }

  // ---------- the algorithm in place ----------

  // One element moved by the first inner loop.
  lemma MergeStep<T>(s: seq<T>, i: nat, mid: nat, j: nat, hi: nat, less: Less<T>, c: nat)
    requires i < mid <= j < hi <= |s|
    ensures var (r, c1) := Merge(s[i..mid], s[j..hi], less, c);
            if less(c, s[j], s[i]) then
              var (r2, c2) := Merge(s[i..mid], s[j + 1..hi], less, c + 1); r == [s[j]] + r2 && c1 == c2
            else
              var (r2, c2) := Merge(s[i + 1..mid], s[j..hi], less, c + 1); r == [s[i]] + r2 && c1 == c2
  {
    assert s[j..hi][1..] == s[j + 1..hi] && s[i..mid][1..] == s[i + 1..mid];
  }

  lemma MergeRest<T>(s: seq<T>, i: nat, mid: nat, j: nat, hi: nat, less: Less<T>, c: nat)
    requires i <= mid <= j <= hi <= |s| && (i == mid || j == hi)
    ensures Merge(s[i..mid], s[j..hi], less, c) == (s[i..mid] + s[j..hi], c)
  {
    if i == mid {
      assert s[i..mid] == [] && s[i..mid] + s[j..hi] == s[j..hi];
    } else {
      assert s[j..hi] == [] && s[i..mid] + s[j..hi] == s[i..mid];
    }
  }

  // The inner loops: the runs `v[lo..mid]` and `v[mid..hi]` merged into `buf` and copied back.
  method MergeRuns<T>(v: array<T>, buf: array<T>, lo: nat, mid: nat, hi: nat, less: Less<T>, calls: nat)
    returns (calls1: nat)
    requires v != buf && lo <= mid <= hi <= v.Length == buf.Length
    modifies v, buf
    ensures v[lo..hi] == Merge(old(v[lo..mid]), old(v[mid..hi]), less, calls).0
    ensures calls1 == Merge(old(v[lo..mid]), old(v[mid..hi]), less, calls).1
    ensures v[..lo] == old(v[..lo]) && v[hi..] == old(v[hi..])
  {
    hide Merge;
    ghost var s := v[..];
    assert s[lo..mid] == v[lo..mid] && s[mid..hi] == v[mid..hi];
    MergeLength(s[lo..mid], s[mid..hi], less, calls);
    ghost var goal := Merge(s[lo..mid], s[mid..hi], less, calls);
    var i, j, k := lo, mid, lo;
    calls1 := calls;
    while i < mid && j < hi
      invariant lo <= i <= mid <= j <= hi && k == i + j - mid
      invariant v[..] == s
      invariant buf[lo..k] + Merge(s[i..mid], s[j..hi], less, calls1).0 == goal.0
      invariant Merge(s[i..mid], s[j..hi], less, calls1).1 == goal.1
      decreases mid - i + hi - j
    {
      ghost var before := buf[lo..k];
      MergeStep(s, i, mid, j, hi, less, calls1);
      if less(calls1, v[j], v[i]) {
        buf[k] := v[j];
        j := j + 1;
      } else {
        buf[k] := v[i];
        i := i + 1;
      }
      k := k + 1;
      assert buf[lo..k] == before + [buf[k - 1]];
      calls1 := calls1 + 1;
    }
    MergeRest(s, i, mid, j, hi, less, calls1);
    Finish(v, buf, lo, i, mid, j, hi, k);
  }

  // What is left of either run, and the copy back.
  method Finish<T>(v: array<T>, buf: array<T>, lo: nat, i: nat, mid: nat, j: nat, hi: nat, k: nat)
    requires v != buf && lo <= i <= mid <= j <= hi <= v.Length == buf.Length && k == i + j - mid
    modifies v, buf
    ensures v[lo..hi] == old(buf[lo..k]) + (old(v[i..mid]) + old(v[j..hi]))
    ensures v[..lo] == old(v[..lo]) && v[hi..] == old(v[hi..])
  {
    var k1 := Drain(v, buf, i, mid, lo, k);
    k1 := Drain(v, buf, j, hi, lo, k1);
    CopyBack(v, buf, lo, hi);
  }

  // The second and third inner loops: what is left of one run.
  method Drain<T>(v: array<T>, buf: array<T>, from: nat, to: nat, lo: nat, k0: nat) returns (k: nat)
    requires v != buf && from <= to <= v.Length && lo <= k0 && k0 + (to - from) <= buf.Length
    modifies buf
    ensures k == k0 + (to - from) && buf[lo..k] == old(buf[lo..k0]) + v[from..to]
  {
    var i := from;
    k := k0;
    while i < to
      invariant from <= i <= to && k == k0 + (i - from)
      invariant buf[lo..k] == old(buf[lo..k0]) + v[from..i]
    {
      ghost var before := buf[lo..k];
      buf[k] := v[i];
      i := i + 1;
      k := k + 1;
      assert buf[lo..k] == before + [v[i - 1]];
      assert v[from..i] == v[from..i - 1] + [v[i - 1]];
    }
  }

  // `std::copy` of the merged stretch.
  method CopyBack<T>(v: array<T>, buf: array<T>, lo: nat, hi: nat)
    requires v != buf && lo <= hi <= v.Length == buf.Length
    modifies v
    ensures v[lo..hi] == buf[lo..hi] && v[..lo] == old(v[..lo]) && v[hi..] == old(v[hi..])
  {
    var k := lo;
    while k < hi
      invariant lo <= k <= hi
      invariant forall m :: 0 <= m < v.Length ==> v[m] == if lo <= m < k then buf[m] else old(v[m])
    {
      v[k] := buf[k];
      k := k + 1;
    }
  }

  // One step of a pass, at the start of what is left.
  lemma PassStep<T>(s: seq<T>, lo: nat, w: nat, less: Less<T>, c: nat)
    requires w > 0 && lo + w < |s|
    ensures var mid := lo + w;
            var hi := if lo + 2 * w <= |s| then lo + 2 * w else |s|;
            var (m, c1) := Merge(s[lo..mid], s[mid..hi], less, c);
            var (rest, c2) := Pass(s[hi..], w, less, c1);
            Pass(s[lo..], w, less, c) == (m + rest, c2)
  {
    hide Merge;
    var hi := if lo + 2 * w <= |s| then lo + 2 * w else |s|;
    assert s[lo..][..w] == s[lo..lo + w] && s[lo..][w..hi - lo] == s[lo + w..hi] && s[lo..][hi - lo..] == s[hi..];
  }

  method OnePass<T>(v: array<T>, buf: array<T>, w: nat, less: Less<T>, calls: nat) returns (calls1: nat)
    requires v != buf && v.Length == buf.Length && w > 0
    modifies v, buf
    ensures v[..] == Pass(old(v[..]), w, less, calls).0
    ensures calls1 == Pass(old(v[..]), w, less, calls).1
  {
    hide Merge, Pass;
    var lo := 0;
    var n := v.Length;
    calls1 := calls;
    ghost var goal := Pass(v[..], w, less, calls);
    ghost var at := 0;
    assert v[..][0..] == v[..];
    while lo + w < n
      invariant at == if lo <= n then lo else n
      invariant v[..at] + Pass(v[at..], w, less, calls1).0 == goal.0
      invariant Pass(v[at..], w, less, calls1).1 == goal.1
      decreases n - lo
    {
      var mid := lo + w;
      var hi := if lo + 2 * w <= n then lo + 2 * w else n;
      ghost var s := v[..];
      PassStep(s, lo, w, less, calls1);
      assert s[lo..] == v[lo..] && s[lo..mid] == v[lo..mid] && s[mid..hi] == v[mid..hi] && s[hi..] == v[hi..];
      calls1 := MergeRuns(v, buf, lo, mid, hi, less, calls1);
      assert v[..hi] == s[..lo] + v[lo..hi];
      lo := lo + 2 * w;
      at := hi;
    }
    PassDone(v[at..], w, less, calls1);
    assert v[..at] + v[at..] == v[..];
  }

  lemma PassDone<T>(s: seq<T>, w: nat, less: Less<T>, c: nat)
    requires w > 0 && |s| <= w
    ensures Pass(s, w, less, c) == (s, c)
  {
  }

  // `array::sort` with a comparator.
  method Sort<T(0)>(v: array<T>, less: Less<T>)
    modifies v
    ensures v[..] == Passes(old(v[..]), 1, less, 0)
    ensures multiset(v[..]) == multiset(old(v[..]))
  {
    SortPermutes(v[..], 1, less, 0);
    var n := v.Length;
    if n > 1 {
      var buf := new T[n];
      var w, calls := 1, 0;
      while w < n
        invariant w > 0
        invariant Passes(v[..], w, less, calls) == Passes(old(v[..]), 1, less, 0)
        decreases n - w
      {
        calls := OnePass(v, buf, w, less, calls);
        w := 2 * w;
      }
    }
  }

  // ---------- any comparator: a permutation ----------

  lemma {:induction false} MergePermutes<T>(a: seq<T>, b: seq<T>, less: Less<T>, c: nat)
    ensures multiset(Merge(a, b, less, c).0) == multiset(a) + multiset(b)
    decreases |a| + |b|
  {
    if a != [] && b != [] {
      if less(c, b[0], a[0]) {
        MergePermutes(a, b[1..], less, c + 1);
        assert b == [b[0]] + b[1..];
      } else {
        MergePermutes(a[1..], b, less, c + 1);
        assert a == [a[0]] + a[1..];
      }
    }
  }

  lemma {:induction false} PassPermutes<T>(s: seq<T>, w: nat, less: Less<T>, c: nat)
    requires w > 0
    ensures multiset(Pass(s, w, less, c).0) == multiset(s)
    decreases |s|
  {
    if |s| > w {
      var hi := if 2 * w <= |s| then 2 * w else |s|;
      MergePermutes(s[..w], s[w..hi], less, c);
      PassPermutes(s[hi..], w, less, Merge(s[..w], s[w..hi], less, c).1);
      assert s == s[..w] + s[w..hi] + s[hi..];
    }
  }

  // Whatever the comparator answers, call by call, the result is a permutation.
  lemma {:induction false} SortPermutes<T>(s: seq<T>, w: nat, less: Less<T>, c: nat)
    requires w > 0
    ensures multiset(Passes(s, w, less, c)) == multiset(s) && |Passes(s, w, less, c)| == |s|
    decreases |s| - w
  {
    if w < |s| {
      PassPermutes(s, w, less, c);
      PassLength(s, w, less, c);
      SortPermutes(Pass(s, w, less, c).0, 2 * w, less, Pass(s, w, less, c).1);
    }
  }

  // ---------- a strict weak order: sorted and stable ----------

  ghost predicate StrictWeak<T(!new)>(lt: (T, T) -> bool) {
    && (forall a :: !lt(a, a))
    && (forall a, b, c :: lt(a, b) && lt(b, c) ==> lt(a, c))
    && (forall a, b, c :: !lt(a, b) && !lt(b, c) ==> !lt(a, c))
  }

  // The comparator answers by `lt` on every call.
  ghost predicate Answers<T(!new)>(less: Less<T>, lt: (T, T) -> bool) {
    forall c, a, b :: less(c, a, b) == lt(a, b)
  }

  predicate Sorted<T>(s: seq<T>, lt: (T, T) -> bool) {
    forall i, j :: 0 <= i < j < |s| ==> !lt(s[j], s[i])
  }

  // The elements equivalent to `x`, in order.
  function Alike<T>(s: seq<T>, x: T, lt: (T, T) -> bool): seq<T> {
    if s == [] then []
    else (if !lt(s[0], x) && !lt(x, s[0]) then [s[0]] else []) + Alike(s[1..], x, lt)
  }

  lemma {:induction false} AlikeCat<T>(a: seq<T>, b: seq<T>, x: T, lt: (T, T) -> bool)
    ensures Alike(a + b, x, lt) == Alike(a, x, lt) + Alike(b, x, lt)
    decreases |a|
  {
    if a == [] {
      assert a + b == b;
    } else {
      assert (a + b)[1..] == a[1..] + b;
      AlikeCat(a[1..], b, x, lt);
    }
  }

  lemma {:induction false} AlikeNone<T>(s: seq<T>, x: T, lt: (T, T) -> bool)
    requires forall i :: 0 <= i < |s| ==> lt(x, s[i])
    ensures Alike(s, x, lt) == []
    decreases |s|
  {
    if s != [] {
      AlikeNone(s[1..], x, lt);
    }
  }

  // No element goes before `x`.
  predicate Above<T>(s: seq<T>, x: T, lt: (T, T) -> bool) {
    forall i :: 0 <= i < |s| ==> !lt(s[i], x)
  }

  lemma SortedCons<T>(x: T, r: seq<T>, lt: (T, T) -> bool)
    requires Sorted(r, lt) && Above(r, x, lt)
    ensures Sorted([x] + r, lt)
  {
  }

  lemma AboveCons<T>(y: T, r: seq<T>, x: T, lt: (T, T) -> bool)
    requires !lt(y, x) && Above(r, x, lt)
    ensures Above([y] + r, x, lt)
  {
  }

  // What does not go before the head of a sorted run goes before none of it.
  lemma AboveRun<T(!new)>(s: seq<T>, x: T, lt: (T, T) -> bool)
    requires StrictWeak(lt) && Sorted(s, lt) && s != [] && !lt(s[0], x)
    ensures Above(s, x, lt)
  {
    forall i | 0 <= i < |s|
      ensures !lt(s[i], x)
    {
      assert i > 0 ==> !lt(s[i], s[0]);
    }
  }

  // Merging two sorted runs: sorted, and of equivalent elements the left ones first.
  lemma {:induction false} MergeSorts<T(!new)>(a: seq<T>, b: seq<T>, less: Less<T>, c: nat, lt: (T, T) -> bool)
    requires StrictWeak(lt) && Answers(less, lt) && Sorted(a, lt) && Sorted(b, lt)
    ensures Sorted(Merge(a, b, less, c).0, lt)
    decreases |a| + |b|
  {
    if a != [] && b != [] {
      if less(c, b[0], a[0]) {
        MergeSorts(a, b[1..], less, c + 1, lt);
        AboveRun(a, b[0], lt);
        MergeAbove(a, b[1..], less, c + 1, b[0], lt);
        SortedCons(b[0], Merge(a, b[1..], less, c + 1).0, lt);
      } else {
        MergeSorts(a[1..], b, less, c + 1, lt);
        AboveRun(b, a[0], lt);
        MergeAbove(a[1..], b, less, c + 1, a[0], lt);
        SortedCons(a[0], Merge(a[1..], b, less, c + 1).0, lt);
      }
    }
  }

  lemma {:induction false} MergeAbove<T(!new)>(a: seq<T>, b: seq<T>, less: Less<T>, c: nat, x: T, lt: (T, T) -> bool)
    requires Above(a, x, lt) && Above(b, x, lt)
    ensures Above(Merge(a, b, less, c).0, x, lt)
    decreases |a| + |b|
  {
    if a != [] && b != [] {
      if less(c, b[0], a[0]) {
        MergeAbove(a, b[1..], less, c + 1, x, lt);
        AboveCons(b[0], Merge(a, b[1..], less, c + 1).0, x, lt);
      } else {
        MergeAbove(a[1..], b, less, c + 1, x, lt);
        AboveCons(a[0], Merge(a[1..], b, less, c + 1).0, x, lt);
      }
    }
  }

  lemma {:induction false} MergeStable<T(!new)>(a: seq<T>, b: seq<T>, less: Less<T>, c: nat, x: T, lt: (T, T) -> bool)
    requires StrictWeak(lt) && Answers(less, lt) && Sorted(a, lt) && Sorted(b, lt)
    ensures Alike(Merge(a, b, less, c).0, x, lt) == Alike(a, x, lt) + Alike(b, x, lt)
    decreases |a| + |b|
  {
    if a == [] || b == [] {
      assert a == [] ==> Alike(a, x, lt) == [];
    } else if less(c, b[0], a[0]) {
      var r := Merge(a, b[1..], less, c + 1).0;
      MergeStable(a, b[1..], less, c + 1, x, lt);
      assert ([b[0]] + r)[1..] == r;
      if !lt(b[0], x) && !lt(x, b[0]) {
        forall i | 0 <= i < |a|
          ensures lt(x, a[i])
        {
          LessAll(b[0], a, x, i, lt);
        }
        AlikeNone(a, x, lt);
      }
    } else {
      var r := Merge(a[1..], b, less, c + 1).0;
      MergeStable(a[1..], b, less, c + 1, x, lt);
      assert ([a[0]] + r)[1..] == r;
    }
  }

  // `y` comes before a sorted run, and `x` is equivalent to `y`: so does `x`.
  lemma LessAll<T(!new)>(y: T, a: seq<T>, x: T, i: nat, lt: (T, T) -> bool)
    requires StrictWeak(lt) && Sorted(a, lt) && i < |a| && lt(y, a[0]) && !lt(y, x) && !lt(x, y)
    ensures lt(x, a[i])
  {
    assert lt(x, a[0]);
    if i > 0 {
      assert !lt(a[i], a[0]);
    }
  }

  // Every stretch of `w` elements, from the first on, is sorted.
  ghost predicate Runs<T>(s: seq<T>, w: nat, lt: (T, T) -> bool)
    requires w > 0
    decreases |s|
  {
    if |s| <= w then Sorted(s, lt) else Sorted(s[..w], lt) && Runs(s[w..], w, lt)
  }

  lemma {:induction false} PassSorts<T(!new)>(s: seq<T>, w: nat, less: Less<T>, c: nat, lt: (T, T) -> bool)
    requires w > 0 && StrictWeak(lt) && Answers(less, lt) && Runs(s, w, lt)
    ensures Runs(Pass(s, w, less, c).0, 2 * w, lt)
    decreases |s|
  {
    if |s| > w {
      var hi := if 2 * w <= |s| then 2 * w else |s|;
      var (m, c1) := Merge(s[..w], s[w..hi], less, c);
      RunsSplit(s, w, hi, lt);
      MergeSorts(s[..w], s[w..hi], less, c, lt);
      MergeLength(s[..w], s[w..hi], less, c);
      PassSorts(s[hi..], w, less, c1, lt);
      PassLength(s[hi..], w, less, c1);
      var rest := Pass(s[hi..], w, less, c1).0;
      if |s| > 2 * w {
        assert (m + rest)[..2 * w] == m && (m + rest)[2 * w..] == rest;
      } else {
        assert rest == [] && m + rest == m;
      }
    }
  }

  lemma RunsSplit<T>(s: seq<T>, w: nat, hi: nat, lt: (T, T) -> bool)
    requires w > 0 && Runs(s, w, lt) && |s| > w && hi == if 2 * w <= |s| then 2 * w else |s|
    ensures Sorted(s[..w], lt) && Sorted(s[w..hi], lt) && Runs(s[hi..], w, lt)
  {
    var t := s[w..];
    if |t| > w {
      assert t[..w] == s[w..hi] && t[w..] == s[hi..];
    } else {
      assert t == s[w..hi] && s[hi..] == [];
    }
  }

  lemma {:induction false} PassStable<T(!new)>(s: seq<T>, w: nat, less: Less<T>, c: nat, x: T, lt: (T, T) -> bool)
    requires w > 0 && StrictWeak(lt) && Answers(less, lt) && Runs(s, w, lt)
    ensures Alike(Pass(s, w, less, c).0, x, lt) == Alike(s, x, lt)
    decreases |s|
  {
    hide Alike, Merge, Sorted, Runs;
    if |s| > w {
      var hi := if 2 * w <= |s| then 2 * w else |s|;
      var (m, c1) := Merge(s[..w], s[w..hi], less, c);
      RunsSplit(s, w, hi, lt);
      MergeStable(s[..w], s[w..hi], less, c, x, lt);
      PassStable(s[hi..], w, less, c1, x, lt);
      AlikeCat(m, Pass(s[hi..], w, less, c1).0, x, lt);
      assert s == s[..w] + s[w..hi] + s[hi..];
      AlikeCat(s[..w], s[w..hi], x, lt);
      AlikeCat(s[..w] + s[w..hi], s[hi..], x, lt);
    }
  }

  lemma {:induction false} RunsOfOne<T>(s: seq<T>, lt: (T, T) -> bool)
    ensures Runs(s, 1, lt)
    decreases |s|
  {
    if |s| > 1 {
      RunsOfOne(s[1..], lt);
    }
  }

  lemma {:induction false} PassesSort<T(!new)>(s: seq<T>, w: nat, less: Less<T>, c: nat, lt: (T, T) -> bool)
    requires w > 0 && StrictWeak(lt) && Answers(less, lt) && Runs(s, w, lt)
    ensures Sorted(Passes(s, w, less, c), lt)
    ensures forall x :: Alike(Passes(s, w, less, c), x, lt) == Alike(s, x, lt)
    decreases |s| - w
  {
    if w < |s| {
      var (r, c1) := Pass(s, w, less, c);
      PassLength(s, w, less, c);
      PassSorts(s, w, less, c, lt);
      PassesSort(r, 2 * w, less, c1, lt);
      forall x
        ensures Alike(r, x, lt) == Alike(s, x, lt)
      {
        PassStable(s, w, less, c, x, lt);
      }
    }
  }

  // For a comparator that is a strict weak order the result is sorted, and elements the
  // order does not tell apart keep their order.
  lemma SortStable<T(!new)>(s: seq<T>, less: Less<T>, lt: (T, T) -> bool)
    requires StrictWeak(lt) && Answers(less, lt)
    ensures Sorted(Passes(s, 1, less, 0), lt)
    ensures forall x :: Alike(Passes(s, 1, less, 0), x, lt) == Alike(s, x, lt)
  {
    RunsOfOne(s, lt);
    PassesSort(s, 1, less, 0, lt);
  }
}
