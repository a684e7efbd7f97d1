/** What the IMAP session's parts mean: numbers, flags, what a STORE and a scan of the mailbox
    change, and who may do it. */
module ImapMeanings {
  import opened Options
  import opened Strings
  import opened Imap

  const DIGITS := "0123456789"

  // ---------- numbers ----------

  // A numeral of base 10 of `n`: its last digit stands for the remainder, the digits before it
  // for the quotient. Zeros in front are allowed.
  predicate Decimal(s: string, n: nat)
    decreases |s|
  {
    && s != "" && s[|s| - 1] == DIGITS[n % 10]
    && (if |s| == 1 then n < 10 else Decimal(s[..|s| - 1], n / 10))
  }

  lemma DigitIs(c: char, d: nat)
    requires d < 10
    ensures IsDigit(c) && c as int == 48 + d <==> c == DIGITS[d]
  {
    if
    case d == 0 =>
    case d == 1 =>
    case d == 2 =>
    case d == 3 =>
    case d == 4 =>
    case d == 5 =>
    case d == 6 =>
    case d == 7 =>
    case d == 8 =>
    case d == 9 =>
  }

  lemma {:induction false} NumberLast(s: string, c: char, acc: nat)
    requires (forall i :: 0 <= i < |s| ==> IsDigit(s[i])) && IsDigit(c)
    ensures Number(s + [c], acc) == 10 * Number(s, acc) + (c as int - 48)
    decreases |s|
  {
    if s == "" {
      assert s + [c] == [c] && [c][1..] == "";
      assert Number("", 10 * acc + (c as int - 48)) == 10 * acc + (c as int - 48);
    } else {
      assert (s + [c])[1..] == s[1..] + [c];
      NumberLast(s[1..], c, 10 * acc + (s[0] as int - 48));
    }
  }

  // A text of digits is read as the number it is a numeral of.
  lemma {:induction false} NumberExact(s: string, n: nat)
    ensures Decimal(s, n) <==> s != "" && (forall i :: 0 <= i < |s| ==> IsDigit(s[i])) && Number(s, 0) == n
    decreases |s|
  {
    hide Number;
    if s != "" {
      var front, c := s[..|s| - 1], s[|s| - 1];
      assert s == front + [c];
      DigitIs(c, n % 10);
      if |s| == 1 {
        OneDigit(c, n);
        assert s == [c];
      } else {
        NumberExact(front, n / 10);
        if forall i :: 0 <= i < |s| ==> IsDigit(s[i]) {
          assert forall i :: 0 <= i < |front| ==> front[i] == s[i];
          NumberLast(front, c, 0);
          Divided(Number(front, 0), c as int - 48, n);
        }
      }
    }
  }

  lemma OneDigit(c: char, n: nat)
    ensures IsDigit(c) ==> Number([c], 0) == c as int - 48
    ensures n < 10 ==> n % 10 == n
  {
    assert [c][1..] == "";
  }

  lemma Divided(q: nat, d: nat, n: nat)
    requires d < 10
    ensures 10 * q + d == n <==> q == n / 10 && d == n % 10
  {
  }

  // So a number of a sequence set means what its digits say.
  lemma MeantExact(s: string, count: nat, n: nat)
    requires WellFormed(s) && s != "*"
    ensures Meant(s, count) == n <==> Decimal(s, n)
    ensures Meant("*", count) == count
  {
    hide Number;
    assert forall i :: 0 <= i < |s| ==> s[i] in s;
    NumberExact(s, n);
  }

  const BLANKS := " \t\n\U{0B}\U{0C}\r"

  // The parts of a text with a number at its front: blanks, a sign, all its digits, the rest.
  predicate Splits(blanks: string, sign: string, digits: string, tail: string, n: nat) {
    && (forall i :: 0 <= i < |blanks| ==> blanks[i] in BLANKS)
    && (sign == "" || sign == "+" || sign == "-")
    && Decimal(digits, n) && (tail != "" ==> tail[0] !in DIGITS)
  }

  // A text so composed is read as its number, if that is a signed number of 64 bits.
  lemma StolReads(blanks: string, sign: string, digits: string, tail: string, n: nat)
    requires Splits(blanks, sign, digits, tail, n)
    ensures Stol(blanks + sign + digits + tail)
         == if n > 0x7fff_ffff_ffff_ffff + (if sign == "-" then 1 else 0) then None
            else if sign == "-" then Some(0 - n) else Some(n)
  {
    hide Decimal, Number, Unspaced, IsDigit, Space;
    var u := digits + tail;
    var t := sign + u;
    assert blanks + sign + digits + tail == blanks + t;
    NumberExact(digits, n);
    assert u[0] == digits[0];
    DigitNot(digits[0]);
    assert t[0] == if sign != "" then sign[0] else u[0];
    assert sign != "" ==> t[1..] == u;
    assert sign == "" ==> t == u;
    UnspacedAt(blanks, t);
    NumberStop(digits, tail, 0);
  }

  lemma DigitNot(c: char)
    ensures IsDigit(c) ==> !Space(c) && c != '-' && c != '+'
    ensures !Space('-') && !Space('+')
    ensures IsDigit(c) <==> c in DIGITS
    ensures Space(c) <==> c in BLANKS
  {
    if IsDigit(c) {
      DigitIs(c, c as int - 48);
    }
    if c in DIGITS {
      var d: nat :| d < 10 && DIGITS[d] == c;
      DigitIs(c, d);
    }
    assert BLANKS[0] == ' ' && BLANKS[1] == '\t' && BLANKS[2] == '\n' && BLANKS[3] == '\U{0B}' && BLANKS[4] == '\U{0C}'
        && BLANKS[5] == '\r';
  }

  lemma {:induction false} UnspacedAt(blanks: string, t: string)
    requires (forall i :: 0 <= i < |blanks| ==> blanks[i] in BLANKS) && t != "" && !Space(t[0])
    ensures Unspaced(blanks + t) == t
    decreases |blanks|
  {
    hide Space;
    if blanks == "" {
      assert blanks + t == t;
    } else {
      DigitNot(blanks[0]);
      assert (blanks + t)[1..] == blanks[1..] + t;
      UnspacedAt(blanks[1..], t);
    }
  }

  lemma {:induction false} NumberStop(s: string, tail: string, acc: nat)
    requires (forall i :: 0 <= i < |s| ==> IsDigit(s[i])) && (tail != "" ==> tail[0] !in DIGITS)
    ensures Number(s + tail, acc) == Number(s, acc)
    decreases |s|
  {
    if s == "" {
      assert s + tail == tail;
      if tail != "" {
        DigitNot(tail[0]);
      }
    } else {
      assert (s + tail)[1..] == s[1..] + tail;
      NumberStop(s[1..], tail, 10 * acc + (s[0] as int - 48));
    }
  }

  // And every text that is read at all is so composed.
  lemma StolSplits(s: string) returns (blanks: string, sign: string, digits: string, tail: string, n: nat)
    requires Stol(s).Some?
    ensures s == blanks + sign + digits + tail && Splits(blanks, sign, digits, tail, n)
  {
    hide Decimal, Number, Unspaced, IsDigit, Space, Stol;
    blanks := BlanksOf(s);
    var u;
    sign, u := SignOf(s);
    digits, tail := LongestNumber(u);
    n := Number(digits, 0);
    NumberExact(digits, n);
    assert blanks + (sign + (digits + tail)) == blanks + sign + digits + tail;
  }

  lemma SignOf(s: string) returns (sign: string, u: string)
    requires Stol(s).Some?
    ensures Unspaced(s) == sign + u && (sign == "" || sign == "+" || sign == "-") && u != "" && IsDigit(u[0])
  {
    hide Number, Unspaced;
    var t := Unspaced(s);
    sign := if t[0] == '-' || t[0] == '+' then t[..1] else "";
    u := t[|sign|..];
  }

  lemma {:induction false} BlanksOf(s: string) returns (blanks: string)
    ensures s == blanks + Unspaced(s) && forall i :: 0 <= i < |blanks| ==> blanks[i] in BLANKS
    decreases |s|
  {
    hide Space;
    if s != "" && Space(s[0]) {
      var rest := BlanksOf(s[1..]);
      DigitNot(s[0]);
      blanks := [s[0]] + rest;
    } else {
      blanks := "";
    }
  }

  lemma {:induction false} LongestNumber(u: string) returns (digits: string, tail: string)
    ensures u == digits + tail && (forall i :: 0 <= i < |digits| ==> IsDigit(digits[i]))
    ensures tail != "" ==> tail[0] !in DIGITS
    ensures u != "" && IsDigit(u[0]) ==> digits != ""
    decreases |u|
  {
    hide IsDigit;
    if u != "" && IsDigit(u[0]) {
      var d, r := LongestNumber(u[1..]);
      digits, tail := [u[0]] + d, r;
    } else {
      digits, tail := "", u;
      if u != "" {
        DigitNot(u[0]);
      }
    }
  }

  // ---------- flags ----------

  // The flags of a name written anew: each of the six letters that occurs, once, in order.
  lemma NormalizedExact(s: string)
    ensures var n := Normalized(s);
            && (forall c :: c in n <==> c in "DFPRST" && c in s)
            && (forall i, j :: 0 <= i < j < |n| ==> n[i] < n[j])
  {
    hide Picked;
    PickedLetters(FLAG_LETTERS, s);
    SixAscend();
    PickedAscends(FLAG_LETTERS, s);
  }

  predicate Ascends(s: string) {
    forall i, j :: 0 <= i < j < |s| ==> s[i] < s[j]
  }

  lemma SixAscend()
    ensures Ascends(FLAG_LETTERS)
  {
  }

  lemma {:induction false} PickedAscends(order: string, s: string)
    requires Ascends(order)
    ensures Ascends(Picked(order, s))
    decreases |order|
  {
    if order != "" {
      var rest := order[1..];
      assert forall i :: 0 <= i < |rest| ==> rest[i] == order[i + 1];
      PickedAscends(rest, s);
      PickedLetters(rest, s);
      if order[0] in s {
        var p := Picked(rest, s);
        forall i | 0 <= i < |p|
          ensures order[0] < p[i]
        {
          assert p[i] in p;
        }
      }
    }
  }

  // ---------- what a STORE changes ----------

  predicate Stores(f: File, op: Op, want: string, i: int, lo: nat, hi: nat, failing: set<nat>) {
    lo <= i <= hi && !(StoredFile(f, op, want) != f && i in failing)
  }

  // Each response names a message stored, with the flags its file then has.
  ghost predicate Right(rs: seq<Response>, was: seq<File>, ms: seq<File>, op: Op, want: string, lo: nat, hi: nat,
                        failing: set<nat>)
    requires |was| == |ms|
  {
    forall r :: r in rs ==>
      && r.Fetched? && 1 <= r.i <= |ms| && Stores(was[r.i - 1], op, want, r.i, lo, hi, failing)
      && r.flags == Flags(ms[r.i - 1].name)
  }

  ghost predicate Rising(rs: seq<Response>) {
    forall a, b :: 0 <= a < b < |rs| ==> rs[a].Fetched? && rs[b].Fetched? && rs[a].i < rs[b].i
  }

  ghost predicate Told(rs: seq<Response>, i: int) {
    exists k :: 0 <= k < |rs| && rs[k].Fetched? && rs[k].i == i
  }

  ghost predicate AllTold(rs: seq<Response>, was: seq<File>, op: Op, want: string, lo: nat, hi: nat,
                          failing: set<nat>) {
    forall k :: 0 <= k < |was| && Stores(was[k], op, want, k + 1, lo, hi, failing) ==> Told(rs, k + 1)
  }

  // The responses name exactly the messages stored, each once and in order.
  ghost predicate Reports(rs: seq<Response>, was: seq<File>, ms: seq<File>, op: Op, want: string, lo: nat, hi: nat,
                          failing: set<nat>)
    requires |was| == |ms|
  {
    && Right(rs, was, ms, op, want, lo, hi, failing) && Rising(rs) && AllTold(rs, was, op, want, lo, hi, failing)
  }

  // A STORE renames exactly the messages of its range whose rename does not fail, and, unless
  // silent, reports exactly these.
  lemma {:induction false} StoreExact(messages: seq<File>, lo: nat, hi: nat, op: Op, want: string, silent: bool,
                                      failing: set<nat>)
    requires 1 <= lo && hi <= |messages|
    ensures var (rs, ms) := StoreRange(messages, lo, hi, op, want, silent, failing);
            && |ms| == |messages|
            && (forall k :: 0 <= k < |ms| ==>
                  ms[k] == if Stores(messages[k], op, want, k + 1, lo, hi, failing)
                           then StoredFile(messages[k], op, want) else messages[k])
            && (forall k :: 0 <= k < |ms| && Stores(messages[k], op, want, k + 1, lo, hi, failing) ==>
                  !ms[k].isNew && Base(ms[k].name) == Base(messages[k].name))
            && (if silent then rs == [] else Reports(rs, messages, ms, op, want, lo, hi, failing))
    decreases hi + 1 - lo
  {
    hide StoredFile, Reports, Normalized, NewFlags, Flags, Base;
    if lo > hi {
      NothingReported(messages, op, want, lo, hi, failing);
    } else {
      var f := messages[lo - 1];
      StoredReads(f, op, want);
      var skip := Skipped(f, op, want, lo, failing);
      var next := if skip then messages else messages[lo - 1 := StoredFile(f, op, want)];
      StoreExact(next, lo + 1, hi, op, want, silent, failing);
      var (rs, ms) := StoreRange(next, lo + 1, hi, op, want, silent, failing);
      if !silent {
        if skip {
          ReportSkip(rs, messages, ms, op, want, lo, hi, failing);
        } else {
          ReportMore(rs, messages, next, ms, op, want, lo, hi, failing);
        }
      }
    }
  }

  lemma NothingReported(was: seq<File>, op: Op, want: string, lo: nat, hi: nat, failing: set<nat>)
    requires lo > hi
    ensures Reports([], was, was, op, want, lo, hi, failing)
  {
  }

  lemma StoredReads(f: File, op: Op, want: string)
    ensures Flags(StoredFile(f, op, want).name) == Normalized(NewFlags(op, Flags(f.name), want))
    ensures !StoredFile(f, op, want).isNew && Base(StoredFile(f, op, want).name) == Base(f.name)
  {
    hide Flags, Normalized, NewFlags, Base;
    RenamedReads(f, NewFlags(op, Flags(f.name), want));
  }

  lemma ReportSkip(rs: seq<Response>, was: seq<File>, ms: seq<File>, op: Op, want: string, lo: nat, hi: nat,
                   failing: set<nat>)
    requires |was| == |ms| && 1 <= lo <= hi <= |was| && !Stores(was[lo - 1], op, want, lo, lo, hi, failing)
    requires Reports(rs, was, ms, op, want, lo + 1, hi, failing)
    ensures Reports(rs, was, ms, op, want, lo, hi, failing)
  {
    hide StoredFile, Flags, Rising, Told;
  }

  lemma ReportMore(rs: seq<Response>, was: seq<File>, next: seq<File>, ms: seq<File>, op: Op, want: string, lo: nat,
                   hi: nat, failing: set<nat>)
    requires |was| == |next| == |ms| && 1 <= lo <= hi <= |was| && Stores(was[lo - 1], op, want, lo, lo, hi, failing)
    requires forall k :: 0 <= k < |was| && k != lo - 1 ==> next[k] == was[k]
    requires Reports(rs, next, ms, op, want, lo + 1, hi, failing)
    ensures Reports([Fetched(lo, Flags(ms[lo - 1].name))] + rs, was, ms, op, want, lo, hi, failing)
  {
    hide Rising, Right, AllTold, Stores, Flags;
    var r := Fetched(lo, Flags(ms[lo - 1].name));
    RightMore(r, rs, was, next, ms, op, want, lo, hi, failing);
    RisingMore(r, rs, next, ms, op, want, lo, hi, failing);
    ToldMore(r, rs, was, next, op, want, lo, hi, failing);
  }

  lemma RightMore(r: Response, rs: seq<Response>, was: seq<File>, next: seq<File>, ms: seq<File>, op: Op, want: string,
                  lo: nat, hi: nat, failing: set<nat>)
    requires |was| == |next| == |ms| && 1 <= lo <= hi <= |was| && Stores(was[lo - 1], op, want, lo, lo, hi, failing)
    requires forall k :: 0 <= k < |was| && k != lo - 1 ==> next[k] == was[k]
    requires r == Fetched(lo, Flags(ms[lo - 1].name)) && Right(rs, next, ms, op, want, lo + 1, hi, failing)
    ensures Right([r] + rs, was, ms, op, want, lo, hi, failing)
  {
    hide StoredFile, Flags;
    forall q | q in [r] + rs
      ensures q.Fetched? && 1 <= q.i <= |ms| && Stores(was[q.i - 1], op, want, q.i, lo, hi, failing)
      ensures q.flags == Flags(ms[q.i - 1].name)
    {
      if q != r {
        assert q in rs;
      }
    }
  }

  lemma RisingMore(r: Response, rs: seq<Response>, next: seq<File>, ms: seq<File>, op: Op, want: string, lo: nat,
                   hi: nat, failing: set<nat>)
    requires r.Fetched? && r.i == lo && Rising(rs) && |next| == |ms|
    requires Right(rs, next, ms, op, want, lo + 1, hi, failing)
    ensures Rising([r] + rs)
  {
    hide StoredFile, Flags;
    var all := [r] + rs;
    forall a, b | 0 <= a < b < |all|
      ensures all[a].Fetched? && all[b].Fetched? && all[a].i < all[b].i
    {
      assert all[b] == rs[b - 1] && rs[b - 1] in rs;
      assert a > 0 ==> all[a] == rs[a - 1];
    }
  }

  lemma ToldMore(r: Response, rs: seq<Response>, was: seq<File>, next: seq<File>, op: Op, want: string, lo: nat,
                 hi: nat, failing: set<nat>)
    requires |was| == |next| && 1 <= lo <= hi <= |was| && r.Fetched? && r.i == lo
    requires forall k :: 0 <= k < |was| && k != lo - 1 ==> next[k] == was[k]
    requires AllTold(rs, next, op, want, lo + 1, hi, failing)
    ensures AllTold([r] + rs, was, op, want, lo, hi, failing)
  {
    hide StoredFile;
    var all := [r] + rs;
    assert all[0] == r;
    forall k | 0 <= k < |was| && Stores(was[k], op, want, k + 1, lo, hi, failing)
      ensures Told(all, k + 1)
    {
      if k + 1 > lo {
        assert Stores(next[k], op, want, k + 1, lo + 1, hi, failing);
        var j :| 0 <= j < |rs| && rs[j].Fetched? && rs[j].i == k + 1;
        assert all[j + 1] == rs[j];
      }
    }
  }

  // ---------- counts and scans ----------

  // RECENT counts the files in `new`, one each.
  lemma {:induction false} RecentExact(a: seq<File>, b: seq<File>, f: File)
    ensures RecentCount(a + b) == RecentCount(a) + RecentCount(b)
    ensures RecentCount([f]) == (if f.isNew then 1 else 0) && RecentCount([]) == 0
    decreases |a|
  {
    assert [f][1..] == [];
    if a == [] {
      assert a + b == b;
    } else {
      assert (a + b)[1..] == a[1..] + b;
      RecentExact(a[1..], b, f);
    }
  }

  // A scan appends, in the order listed, exactly the files the snapshot does not hold.
  lemma {:induction false} UnknownExact(messages: seq<File>, a: seq<File>, b: seq<File>, f: File)
    ensures Unknown(messages, a + b) == Unknown(messages, a) + Unknown(messages, b)
    ensures Unknown(messages, [f]) == (if f in messages then [] else [f]) && Unknown(messages, []) == []
    decreases |a|
  {
    hide Unknown;
    UnknownOne(messages, f);
    if a == [] {
      assert a + b == b && [] + Unknown(messages, b) == Unknown(messages, b);
    } else {
      assert (a + b)[1..] == a[1..] + b && (a + b)[0] == a[0];
      UnknownExact(messages, a[1..], b, f);
      UnknownFirst(messages, a);
      UnknownFirst(messages, a + b);
      var first := if a[0] in messages then [] else [a[0]];
      ThreeParts(first, Unknown(messages, a[1..]), Unknown(messages, b));
    }
  }

  lemma ThreeParts<T>(a: seq<T>, b: seq<T>, c: seq<T>)
    ensures a + (b + c) == (a + b) + c
  {
  }

  lemma UnknownFirst(messages: seq<File>, a: seq<File>)
    requires a != []
    ensures Unknown(messages, a) == (if a[0] in messages then [] else [a[0]]) + Unknown(messages, a[1..])
  {
  }

  lemma UnknownOne(messages: seq<File>, f: File)
    ensures Unknown(messages, [f]) == (if f in messages then [] else [f]) && Unknown(messages, []) == []
  {
    assert [f][1..] == [];
  }

  // ---------- who may do what ----------

  // The last login that succeeded has not been undone by STARTTLS.
  ghost predicate LoggedIn(cs: seq<Command>) {
    exists i :: LoginAt(cs, i)
  }

  predicate LoginAt(cs: seq<Command>, i: int) {
    0 <= i < |cs| && cs[i] == Login(true) && forall j :: i < j < |cs| ==> !cs[j].StartTls?
  }

  lemma {:induction false} RunLast(st: State, cs: seq<Command>, c: Command)
    ensures Run(st, cs + [c]) == Step(Run(st, cs), c).1
    decreases |cs|
  {
    hide Step;
    if cs == [] {
      assert [c][1..] == [] && cs + [c] == [c];
      assert Run(st, [c]) == Run(Step(st, c).1, []);
    } else {
      assert (cs + [c])[1..] == cs[1..] + [c] && (cs + [c])[0] == cs[0];
      RunLast(Step(st, cs[0]).1, cs[1..], c);
    }
  }

  // Over every session: it is authenticated exactly after a successful login behind the last
  // STARTTLS, a mailbox is selected only then, and nobody else sees or changes a message.
  lemma {:induction false} AuthExact(cs: seq<Command>)
    ensures var st := Run(START, cs);
            && (st.authenticated <==> LoggedIn(cs))
            && (st.selected || st.messages != [] ==> st.authenticated)
            && (!st.selected ==> st.messages == [])
    decreases |cs|
  {
    hide Step, Run;
    if cs == [] {
      NoSession();
    } else {
      var front, c := cs[..|cs| - 1], cs[|cs| - 1];
      assert cs == front + [c];
      AuthExact(front);
      RunLast(START, front, c);
      StepAuth(Run(START, front), c);
      LoginLast(front, c);
    }
  }

  lemma NoSession()
    ensures Run(START, []) == START && !LoggedIn([])
  {
  }

  lemma StepAuth(st: State, c: Command)
    ensures var (rs, next) := Step(st, c);
            && (next.authenticated <==> c == Login(true) || (st.authenticated && !c.StartTls?))
            && (next.selected <==> !c.StartTls? && (st.selected || (c.Select? && c.known && st.authenticated)))
            && (c.StartTls? ==> next.messages == [])
            && (c.Select? && c.known && st.authenticated ==>
                  next.messages == c.files && rs == [Exists(|c.files|), Recent(RecentCount(c.files))])
            && (next.messages != st.messages || rs != [] ==>
                  c.StartTls? || (st.authenticated && (st.selected || (c.Select? && c.known))))
            && (next.messages != st.messages && !st.selected ==> c.StartTls? || next.selected)
  {
    hide StoreRange, ExpungeFrom, ParseSeqset, Unknown, RecentCount;
  }

  lemma LoginLast(cs: seq<Command>, c: Command)
    ensures LoggedIn(cs + [c]) <==> c == Login(true) || (LoggedIn(cs) && !c.StartTls?)
  {
    var all := cs + [c];
    if c == Login(true) {
      assert LoginAt(all, |cs|);
    }
    if LoggedIn(cs) && !c.StartTls? {
      var i :| LoginAt(cs, i);
      assert LoginAt(all, i);
    }
    if LoggedIn(all) {
      var i :| LoginAt(all, i);
      if i < |cs| {
        assert all[|cs|] == c;
        assert forall j :: i < j < |cs| ==> all[j] == cs[j];
        assert LoginAt(cs, i);
      }
    }
  }
}
