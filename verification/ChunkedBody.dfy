/** The HTTP client's decoding of a chunked body: incrementally, as bytes arrive, and in one go. */
module ChunkedBodies {

  import opened Options
  import opened Strings

  const CRLF := "\r\n"

  // ---------- chunk sizes ----------

  predicate IsSpace(c: char) {
    c == ' ' || '\t' <= c <= '\r'
  }

  function Digit(c: char): Option<nat> {
    if '0' <= c <= '9' then Some(c as int - '0' as int)
    else if 'a' <= c <= 'f' then Some(c as int - 'a' as int + 10)
    else if 'A' <= c <= 'F' then Some(c as int - 'A' as int + 10)
    else None
  }

  function SkipSpaces(s: string): string {
    if s != "" && IsSpace(s[0]) then SkipSpaces(s[1..]) else s
  }

  // The value of the leading digits after `acc`.
  function Digits(s: string, acc: nat): nat {
    if s != "" && Digit(s[0]).Some? then Digits(s[1..], 16 * acc + Digit(s[0]).value) else acc
  }

  const WORD := 0x1_0000_0000_0000_0000

  function Unprefixed(s: string): string {
    if |s| > 2 && s[0] == '0' && (s[1] == 'x' || s[1] == 'X') && Digit(s[2]).Some? then s[2..] else s
  }

  // `std::stoul` with base 16, where it throws: None. Leading blanks, a sign and `0x` are
  // accepted, whatever follows the digits is ignored, and a minus sign negates modulo 2^64.
  function Stoul(s: string): Option<nat> {
    var t := SkipSpaces(s);
    var neg := t != "" && t[0] == '-';
    var u := Unprefixed(if t != "" && (t[0] == '-' || t[0] == '+') then t[1..] else t);
    if u == "" || Digit(u[0]).None? then None
    else
      var n := Digits(u, 0);
      if n >= WORD then None else Some(if neg && n > 0 then WORD - n else n)
  }

  function Trimmed(s: string): string {
    if s != "" && (s[|s| - 1] == ' ' || s[|s| - 1] == '\t') then Trimmed(s[..|s| - 1]) else s
  }

  // The size line without its extension.
  function Plain(line: string): string {
    match Find(line, ";") case None => line case Some(i) => if i <= |line| then line[..i] else line
  }

  // A trailing blank does not change a size.
  lemma {:induction false} DigitsBlank(s: string, c: char, acc: nat)
    requires Digit(c).None?
    ensures Digits(s + [c], acc) == Digits(s, acc)
    decreases |s|
  {
    if s != "" && Digit(s[0]).Some? {
      assert (s + [c])[1..] == s[1..] + [c];
      DigitsBlank(s[1..], c, 16 * acc + Digit(s[0]).value);
    }
  }

  lemma {:induction false} SkipBlank(s: string, c: char)
    requires IsSpace(c)
    ensures SkipSpaces(s + [c]) == if SkipSpaces(s) == "" then "" else SkipSpaces(s) + [c]
    decreases |s|
  {
    if s != "" && IsSpace(s[0]) {
      assert (s + [c])[1..] == s[1..] + [c];
      SkipBlank(s[1..], c);
    } else if s == "" {
      assert "" + [c] == [c] && [c][1..] == "";
      assert SkipSpaces([c]) == SkipSpaces("");
    }
  }

  lemma UnprefixedBlank(s: string, c: char)
    requires Digit(c).None? && c != 'x' && c != 'X'
    ensures Unprefixed(s + [c]) == Unprefixed(s) + [c]
  {
    if |s| == 2 {
      assert (s + [c])[2] == c;
    }
    if |s| > 2 {
      assert (s + [c])[2..] == s[2..] + [c];
    }
  }

  lemma StoulBlank(s: string, c: char)
    requires c == ' ' || c == '\t'
    ensures Stoul(s + [c]) == Stoul(s)
  {
    SkipBlank(s, c);
    var t := SkipSpaces(s);
    if t != "" {
      var signed := t[0] == '-' || t[0] == '+';
      var body := if signed then t[1..] else t;
      assert signed ==> (t + [c])[1..] == t[1..] + [c];
      UnprefixedBlank(body, c);
      var u := Unprefixed(body);
      DigitsBlank(u, c, 0);
      if u == "" {
        assert u + [c] == [c];
      } else {
        assert (u + [c])[0] == u[0];
      }
    }
  }

  lemma {:induction false} StoulTrimmed(s: string)
    ensures Stoul(Trimmed(s)) == Stoul(s)
    decreases |s|
  {
    if s != "" && (s[|s| - 1] == ' ' || s[|s| - 1] == '\t') {
      StoulTrimmed(s[..|s| - 1]);
      StoulBlank(s[..|s| - 1], s[|s| - 1]);
      assert s[..|s| - 1] + [s[|s| - 1]] == s;
    }
  }

  // The size announced by a line, as the incremental decoder reads it.
  function Size(line: string): Option<nat> {
    Stoul(Trimmed(Plain(line)))
  }

  lemma SizeLines(line: string)
    ensures Size(line) == Stoul(Plain(line))
  {
    StoulTrimmed(Plain(line));
  }

  // ---------- the incremental decoder ----------

  // `done` is set by the last chunk or a bad size; `hung` says that a feed never returns,
  // because the chunk at the front is emitted again and again.
  datatype Decoder = Decoder(buf: string, done: bool, hung: bool)

  const START := Decoder("", false, false)

  // What stands at the front of a chunked body: no complete size line, a line without a
  // size, the last chunk, or a chunk of `sz` bytes from `at` on.
  datatype Front = NoLine | Bad | Last | Chunk(at: nat, sz: nat)

  function FrontOf(b: string): (f: Front)
    ensures f.Chunk? ==> 2 <= f.at <= |b| && 0 < f.sz < WORD
  {
    match Find(b, CRLF)
    case None => NoLine
    case Some(cr) =>
      FindSpec(b, CRLF);
      match Size(b[..cr])
      case None => Bad
      case Some(sz) => if sz == 0 then Last else Chunk(cr + 2, sz)
  }

  // The bytes of a chunk with its size line and the line break behind it, counted in 64 bits.
  function Taken(at: nat, sz: nat): (taken: nat)
    ensures taken < WORD
  {
    (at + sz + 2) % WORD
  }

  predicate Fits(at: nat, sz: nat) {
    at + sz + 2 < WORD
  }

  // `std::string::substr`: as much of it as there is.
  function Cut(b: string, at: nat, sz: nat): string
    requires at <= |b|
  {
    b[at..if at + sz <= |b| then at + sz else |b|]
  }

  // What a round of the loop does: return and wait for more, set `done`, emit a chunk and
  // drop the bytes it took, or emit one and drop nothing.
  datatype Round = Wait | Stop | Spin | Take(chunk: string, len: nat)

  function RoundOf(b: string): (r: Round)
    ensures r.Take? ==> 0 < r.len <= |b|
  {
    match FrontOf(b)
    case NoLine => Wait
    case Bad => Stop
    case Last => Stop
    case Chunk(at, sz) =>
      if |b| < Taken(at, sz) then Wait
      else if Taken(at, sz) == 0 then Spin
      else Take(Cut(b, at, sz), Taken(at, sz))
  }

  // The chunks a feed emits from this buffer, and the decoder afterwards.
  function Drain(b: string): (seq<string>, Decoder)
    decreases |b|
  {
    match RoundOf(b)
    case Wait => ([], Decoder(b, false, false))
    case Stop => ([], Decoder(b, true, false))
    case Spin => ([], Decoder(b, false, true))
    case Take(chunk, len) => var (chunks, d) := Drain(b[len..]); ([chunk] + chunks, d)
  }

  function FeedStep(d: Decoder, data: string): (seq<string>, Decoder) {
    if d.done then ([], d.(buf := d.buf + data))
    else if d.hung then ([], d)
    else Drain(d.buf + data)
  }

  // The loop cut off after `n` chunks: what it has emitted, and whether it has ended.
  datatype Loop = Loop(emitted: seq<string>, buf: string, done: bool, ended: bool)

  function Rounds(b: string, n: nat): Loop
    decreases n
  {
    match RoundOf(b)
    case Wait => Loop([], b, false, true)
    case Stop => Loop([], b, true, true)
    case Spin => if n == 0 then Loop([], b, false, false) else Again(SpinChunk(b), Rounds(b, n - 1))
    case Take(chunk, len) => if n == 0 then Loop([], b, false, false) else Again(chunk, Rounds(b[len..], n - 1))
  }

  function Again(chunk: string, l: Loop): Loop {
    Loop([chunk] + l.emitted, l.buf, l.done, l.ended)
  }

  function SpinChunk(b: string): string {
    match FrontOf(b) case Chunk(at, sz) => Cut(b, at, sz) case _ => ""
  }

  // The loop ends exactly when the decoder does not hang, after the chunks `Drain` gives;
  // else it emits without end.
  lemma {:induction false} DrainRounds(b: string, n: nat)
    ensures var (cs, d) := Drain(b);
            && (!d.hung && n >= |cs| ==> Rounds(b, n) == Loop(cs, d.buf, d.done, true))
            && (d.hung || n < |cs| ==> !Rounds(b, n).ended && |Rounds(b, n).emitted| == n)
    decreases n
  {
    hide RoundOf, SpinChunk;
    match RoundOf(b) {
      case Take(chunk, len) =>
        if n > 0 {
          DrainRounds(b[len..], n - 1);
        }
      case Spin =>
        if n > 0 {
          DrainRounds(b, n - 1);
        }
      case _ =>
    }
  }

  class ChunkedDecoder {
    var buf: string
    var done: bool

    ghost function Model(): Decoder
      reads this
    {
      Decoder(buf, done, false)
    }

    constructor ()
      ensures Model() == START
    {
      buf, done := "", false;
    }

    // The original has no limit on the rounds.
    method Feed(data: string, limit: nat) returns (emitted: seq<string>, ended: bool)
      modifies this
      ensures old(done) ==> ended && emitted == [] && done && buf == old(buf) + data
      ensures !old(done) ==> Loop(emitted, buf, done, ended) == Rounds(old(buf) + data, limit)
      ensures ended ==> (emitted, Model()) == FeedStep(old(Model()), data)
      ensures FeedStep(old(Model()), data).1.hung ==> !ended
      ensures limit >= |FeedStep(old(Model()), data).0| && !FeedStep(old(Model()), data).1.hung ==> ended
    {
      hide FrontOf, RoundOf, Rounds, Drain, Find, Taken, Cut;
      buf := buf + data;
      if done {
        return [], true;
      }
      emitted := [];
      DrainRounds(buf, limit);
      ghost var goal := Rounds(buf, limit);
      var n := 0;
      while !done
        invariant n <= limit && !old(done)
        invariant !done ==> emitted + Rounds(buf, limit - n).emitted == goal.emitted
        invariant !done ==> var l := Rounds(buf, limit - n);
                  l.buf == goal.buf && l.done == goal.done && l.ended == goal.ended
        invariant done ==> Loop(emitted, buf, done, true) == goal
        decreases if done then 0 else 1 + limit - n
      {
        var cr := Find(buf, CRLF);
        var sz := ReadSize(buf, cr);
        RoundIs(buf);
        RoundsStep(buf, limit - n);
        assert emitted + [] == emitted;
        if cr.None? {
          return emitted, true;
        }
        if sz.None? || sz.value == 0 {
          done := true;
        } else {
          var at := cr.value + 2;
          var len := Taken(at, sz.value);
          if |buf| < len {
            return emitted, true;
          }
          if n == limit {
            return emitted, false;
          }
          emitted := emitted + [Cut(buf, at, sz.value)];
          buf := buf[len..];
          n := n + 1;
        }
      }
      ended := true;
    }
  }

  lemma RoundIs(b: string)
    ensures RoundOf(b) == match FrontOf(b)
            case NoLine => Wait
            case Bad => Stop
            case Last => Stop
            case Chunk(at, sz) =>
              if |b| < Taken(at, sz) then Wait else if Taken(at, sz) == 0 then Spin
              else Take(Cut(b, at, sz), Taken(at, sz))
    ensures FrontOf(b).Chunk? ==> SpinChunk(b) == Cut(b, FrontOf(b).at, FrontOf(b).sz)
  {
    hide FrontOf;
  }

  lemma RoundsStep(b: string, n: nat)
    ensures Rounds(b, n) == match RoundOf(b)
            case Wait => Loop([], b, false, true)
            case Stop => Loop([], b, true, true)
            case Spin => if n == 0 then Loop([], b, false, false) else Again(SpinChunk(b), Rounds(b[0..], n - 1))
            case Take(chunk, len) =>
              if n == 0 then Loop([], b, false, false) else Again(chunk, Rounds(b[len..], n - 1))
  {
    hide RoundOf, SpinChunk;
    assert b[0..] == b;
  }

  // The size line: cut at its extension, trailing blanks removed, read as hexadecimal.
  method ReadSize(b: string, cr: Option<nat>) returns (sz: Option<nat>)
    requires cr == Find(b, CRLF)
    ensures cr.Some? ==> cr.value + 2 <= |b|
    ensures FrontOf(b)
         == if cr.None? then NoLine else if sz.None? then Bad else if sz.value == 0 then Last
            else Chunk(cr.value + 2, sz.value)
  {
    if cr.None? {
      return None;
    }
    FindSpec(b, CRLF);
    var hex := b[..cr.value];
    var semi := Find(hex, ";");
    if semi.Some? {
      FindSpec(hex, ";");
      hex := hex[..semi.value];
    }
    while hex != "" && (hex[|hex| - 1] == ' ' || hex[|hex| - 1] == '\t')
      invariant Trimmed(hex) == Trimmed(Plain(b[..cr.value]))
      decreases |hex|
    {
      hex := hex[..|hex| - 1];
    }
    sz := Stoul(hex);
  }

  // ---------- when splitting does not matter ----------

  // Every announced length fits 64 bits; one that does not may only be the end of the
  // stream, and the loop must end on it.
  predicate Steady(b: string)
    decreases |b|
  {
    match FrontOf(b)
    case Chunk(at, sz) =>
      if Fits(at, sz) then at + sz + 2 <= |b| ==> Steady(b[at + sz + 2..])
      else (|b| <= at || |b| <= Taken(at, sz)) && !Drain(b).1.hung
    case _ => true
  }

  // Every announced length fits.
  predicate AllFit(b: string)
    decreases |b|
  {
    match FrontOf(b)
    case Chunk(at, sz) => Fits(at, sz) && (at + sz + 2 <= |b| ==> AllFit(b[at + sz + 2..]))
    case _ => true
  }

  lemma {:induction false} AllFitSteady(b: string)
    ensures AllFit(b) ==> Steady(b)
    decreases |b|
  {
    hide FrontOf;
    var f := FrontOf(b);
    if f.Chunk? && f.at + f.sz + 2 <= |b| {
      AllFitSteady(b[f.at + f.sz + 2..]);
    }
  }

  // A complete size line is not changed by what follows.
  lemma FrontExtends(b: string, t: string)
    requires FrontOf(b) != NoLine
    ensures FrontOf(b + t) == FrontOf(b)
  {
    FindSpec(b, CRLF);
    FindExtends(b, t, CRLF);
    var cr := Find(b, CRLF).value;
    assert (b + t)[..cr] == b[..cr];
  }

  lemma DrainStep(b: string)
    ensures var r := RoundOf(b);
            && (r.Wait? ==> Drain(b) == ([], Decoder(b, false, false)))
            && (r.Stop? ==> Drain(b) == ([], Decoder(b, true, false)))
            && (r.Spin? ==> Drain(b) == ([], Decoder(b, false, true)))
            && (r.Take? ==> Drain(b) == ([r.chunk] + Drain(b[r.len..]).0, Drain(b[r.len..]).1))
  {
    hide RoundOf;
  }

  lemma SteadyStep(b: string)
    ensures Steady(b) <==> match FrontOf(b)
            case Chunk(at, sz) =>
              if Fits(at, sz) then at + sz + 2 <= |b| ==> Steady(b[at + sz + 2..])
              else (|b| <= at || |b| <= Taken(at, sz)) && !Drain(b).1.hung
            case _ => true
  {
    hide FrontOf, Drain;
  }

  lemma TakenFits(at: nat, sz: nat)
    requires sz < WORD
    ensures Fits(at, sz) ==> Taken(at, sz) == at + sz + 2
    ensures !Fits(at, sz) ==> Taken(at, sz) <= at + 1
  {
    var x := at + sz + 2;
    if x >= WORD {
      assert x % WORD == (x - WORD) % WORD;
      Remainder(x - WORD);
    }
  }

  lemma Remainder(x: nat)
    ensures x % WORD <= x
  {
  }

  // A buffer that waits is steady, and stays as it is.
  lemma WaitSteady(b: string)
    requires RoundOf(b) == Wait
    ensures Steady(b) && Drain(b) == ([], Decoder(b, false, false))
  {
    hide FrontOf, Drain, Steady, RoundOf;
    RoundIs(b);
    DrainStep(b);
    SteadyStep(b);
    var f := FrontOf(b);
    if f.Chunk? {
      TakenFits(f.at, f.sz);
    }
  }

  // No feed is under way: none hangs, and nothing complete is in the buffer.
  predicate Idle(d: Decoder) {
    !d.hung && (d.done || RoundOf(d.buf) == Wait)
  }

  lemma {:induction false} Settled(b: string)
    ensures Drain(b).1.hung || Idle(Drain(b).1)
    decreases |b|
  {
    hide RoundOf;
    var r := RoundOf(b);
    if r.Take? {
      Settled(b[r.len..]);
    }
  }

  // Feeding more continues where the decoder stands.
  ghost predicate Continues(b: string, t: string) {
    var (cs, d) := Drain(b);
    && !d.hung && (d.done || Steady(d.buf + t))
    && Drain(b + t) == (cs + FeedStep(d, t).0, FeedStep(d, t).1)
  }

  lemma {:induction false} DrainExtends(b: string, t: string)
    requires Steady(b + t)
    ensures Continues(b, t)
    decreases |b|
  {
    hide FrontOf, RoundOf, Drain, Steady, Fits, Taken, FeedStep, Continues;
    var f := FrontOf(b);
    RoundIs(b);
    if RoundOf(b) == Wait {
      WaitsOn(b, t);
    } else if !f.Chunk? {
      StaysDone(b, t);
    } else {
      FrontExtends(b, t);
      SteadyStep(b + t);
      TakenFits(f.at, f.sz);
      if Fits(f.at, f.sz) {
        var n := f.at + f.sz + 2;
        assert (b + t)[n..] == b[n..] + t;
        DrainExtends(b[n..], t);
        DrainChunk(b, t, f.at, f.sz);
      } else {
        assert t == "" && b + t == b;
        NothingMore(b);
      }
    }
  }

  lemma WaitsOn(b: string, t: string)
    requires RoundOf(b) == Wait && Steady(b + t)
    ensures Continues(b, t)
  {
    hide RoundOf, Drain, Steady;
    DrainStep(b);
    assert [] + Drain(b + t).0 == Drain(b + t).0;
  }

  lemma StaysDone(b: string, t: string)
    requires FrontOf(b) == Bad || FrontOf(b) == Last
    ensures Continues(b, t)
  {
    hide FrontOf, RoundOf, Drain, Steady;
    FrontExtends(b, t);
    RoundIs(b);
    RoundIs(b + t);
    DrainStep(b);
    DrainStep(b + t);
    var none: seq<string> := [];
    assert none + none == none;
  }

  lemma NothingMore(b: string)
    requires !Drain(b).1.hung
    ensures Continues(b, "")
  {
    hide RoundOf, Drain, Steady;
    Settled(b);
    var (cs, d) := Drain(b);
    assert b + "" == b && d.buf + "" == d.buf && cs + [] == cs;
    if !d.done {
      WaitSteady(d.buf);
      DrainFlags(b);
    }
  }

  lemma {:induction false} DrainFlags(b: string)
    ensures var d := Drain(b).1; !(d.done && d.hung)
    decreases |b|
  {
    hide RoundOf;
    var r := RoundOf(b);
    if r.Take? {
      DrainFlags(b[r.len..]);
    }
  }

  lemma DrainChunk(b: string, t: string, at: nat, sz: nat)
    requires FrontOf(b) == Chunk(at, sz) && Fits(at, sz) && |b| >= at + sz + 2
    requires Continues(b[at + sz + 2..], t)
    ensures Continues(b, t)
  {
    hide FrontOf, RoundOf, Drain, Steady, FeedStep;
    var n := at + sz + 2;
    FrontExtends(b, t);
    TakenFits(at, sz);
    RoundIs(b);
    RoundIs(b + t);
    DrainStep(b);
    DrainStep(b + t);
    assert (b + t)[n..] == b[n..] + t;
    assert (b + t)[at..at + sz] == b[at..at + sz];
    var (cs, d) := Drain(b[n..]);
    Regroup(b[at..at + sz], cs, FeedStep(d, t).0);
  }

  lemma Regroup(c: string, x: seq<string>, y: seq<string>)
    ensures [c] + (x + y) == ([c] + x) + y
  {
  }

  // Two feeds are one feed of both pieces.
  lemma FeedTwice(d: Decoder, x: string, y: string)
    requires Idle(d) && (d.done || Steady(d.buf + (x + y)))
    ensures var (cs, d1) := FeedStep(d, x);
            && Idle(d1) && (d1.done || Steady(d1.buf + y))
            && FeedStep(d, x + y) == (cs + FeedStep(d1, y).0, FeedStep(d1, y).1)
  {
    hide RoundOf, Drain, Steady;
    assert d.buf + (x + y) == (d.buf + x) + y;
    var none: seq<string> := [];
    assert none + none == none;
    if !d.done {
      DrainExtends(d.buf + x, y);
      Settled(d.buf + x);
    }
  }

  function FeedAll(d: Decoder, pieces: seq<string>): (seq<string>, Decoder)
    decreases |pieces|
  {
    if pieces == [] then ([], d)
    else
      var (cs, d1) := FeedStep(d, pieces[0]);
      var (rest, d2) := FeedAll(d1, pieces[1..]);
      (cs + rest, d2)
  }

  function Concat(pieces: seq<string>): string {
    if pieces == [] then "" else pieces[0] + Concat(pieces[1..])
  }

  // However the network cut the bytes, the decoder emits the chunks, and ends in the state,
  // of one feed of the whole; and every feed ends.
  lemma {:induction false} SplitIndependent(d: Decoder, pieces: seq<string>)
    requires Idle(d) && (d.done || Steady(d.buf + Concat(pieces)))
    ensures FeedAll(d, pieces) == FeedStep(d, Concat(pieces)) && Idle(FeedAll(d, pieces).1)
    decreases |pieces|
  {
    hide RoundOf, Drain, Steady;
    if pieces == [] {
      assert d.buf + "" == d.buf;
      if !d.done {
        WaitSteady(d.buf);
      }
    } else {
      FeedTwice(d, pieces[0], Concat(pieces[1..]));
      SplitIndependent(FeedStep(d, pieces[0]).1, pieces[1..]);
    }
  }

  // ---------- and only then ----------

  // The longest string there is: a length is a signed 64-bit difference.
  const MAX_STRING := 0x7fff_ffff_ffff_ffff

  // One feed of the stream ends, and every splitting gives what it gives.
  ghost predicate SplitsAgree(s: string) {
    && !Drain(s).1.hung
    && forall pieces :: Concat(pieces) == s ==> FeedAll(START, pieces) == Drain(s)
  }

  // A shorter string that still holds what is found.
  lemma TakeFind(s: string, pat: string, n: nat, k: nat)
    requires pat != "" && Find(s, pat) == Some(k) && k + |pat| <= n <= |s|
    ensures Find(s[..n], pat) == Some(k)
  {
    hide Find;
    FindSpec(s, pat);
    var t := s[..n];
    assert t[k..k + |pat|] == s[k..k + |pat|];
    forall j | 0 <= j < k
      ensures !At(t, pat, j)
    {
      if j + |pat| <= n {
        assert t[j..j + |pat|] == s[j..j + |pat|];
      }
      assert !At(s, pat, j);
    }
    FindIs(t, pat, k);
  }

  lemma FrontTake(s: string, m: nat)
    requires FrontOf(s).Chunk? && FrontOf(s).at <= m <= |s|
    ensures FrontOf(s[..m]) == FrontOf(s)
  {
    hide Find, Size;
    FindSpec(s, CRLF);
    var k := Find(s, CRLF).value;
    TakeFind(s, CRLF, m, k);
    assert s[..m][..k] == s[..k];
  }

  lemma FeedPair(x: string, y: string)
    ensures FeedAll(START, [x, y]).0 == Drain(x).0 + FeedStep(Drain(x).1, y).0
  {
    hide Drain;
    assert [x, y][1..] == [y] && [y][1..] == [];
    assert "" + x == x;
    var d := Drain(x).1;
    assert FeedAll(d, [y]) == FeedStep(d, y) by {
      assert FeedStep(d, y).0 + [] == FeedStep(d, y).0;
    }
  }

  lemma PairConcat(x: string, y: string)
    ensures Concat([x, y]) == x + y
  {
    assert [x, y][1..] == [y] && [y][1..] == [];
    assert Concat([y]) == y + "" == y;
  }

  // Where a stream whose length wraps is cut so that the difference shows.
  lemma {:induction false} SplitsDiffer(s: string) returns (m: nat)
    requires |s| <= MAX_STRING && !Steady(s) && !Drain(s).1.hung
    ensures 0 < m < |s| && FeedAll(START, [s[..m], s[m..]]).0 != Drain(s).0
    decreases |s|
  {
    hide FrontOf, RoundOf, Drain, Steady, Fits, Taken, FeedAll;
    var f := FrontOf(s);
    SteadyStep(s);
    RoundIs(s);
    DrainStep(s);
    TakenFits(f.at, f.sz);
    if Fits(f.at, f.sz) {
      var n := f.at + f.sz + 2;
      var k := SplitsDiffer(s[n..]);
      m := n + k;
      DifferBehind(s, f.at, f.sz, k);
    } else {
      m := if f.at < Taken(f.at, f.sz) then Taken(f.at, f.sz) else f.at;
      DifferHere(s, f.at, f.sz, m);
    }
  }

  lemma DifferBehind(s: string, at: nat, sz: nat, k: nat)
    requires FrontOf(s) == Chunk(at, sz) && Fits(at, sz) && at + sz + 2 <= |s|
    requires var r := s[at + sz + 2..]; k < |r| && FeedAll(START, [r[..k], r[k..]]).0 != Drain(r).0
    ensures var m := at + sz + 2 + k; FeedAll(START, [s[..m], s[m..]]).0 != Drain(s).0
  {
    hide FrontOf, RoundOf, Drain, FeedAll, FeedStep;
    var n := at + sz + 2;
    var r, m := s[n..], n + k;
    var x := s[..m];
    assert x[n..] == r[..k] && s[m..] == r[k..];
    assert x[at..at + sz] == s[at..at + sz];
    FrontTake(s, m);
    TakenFits(at, sz);
    RoundIs(s);
    RoundIs(x);
    DrainStep(s);
    DrainStep(x);
    FeedPair(x, s[m..]);
    FeedPair(r[..k], r[k..]);
    Regroup(s[at..at + sz], Drain(r[..k]).0, FeedStep(Drain(r[..k]).1, r[k..]).0);
    SameTail(s[at..at + sz], FeedAll(START, [r[..k], r[k..]]).0, Drain(r).0);
  }

  lemma SameTail(c: string, x: seq<string>, y: seq<string>)
    ensures [c] + x == [c] + y ==> x == y
  {
    assert ([c] + x)[1..] == x && ([c] + y)[1..] == y;
  }

  lemma DifferHere(s: string, at: nat, sz: nat, m: nat)
    requires FrontOf(s) == Chunk(at, sz) && !Fits(at, sz) && |s| <= MAX_STRING
    requires 0 < Taken(at, sz) <= m && at <= m <= at + 1 && m < |s|
    ensures FeedAll(START, [s[..m], s[m..]]).0 != Drain(s).0
  {
    hide FrontOf, RoundOf, Drain, FeedAll, FeedStep, Taken;
    var x := s[..m];
    FrontTake(s, m);
    RoundIs(s);
    RoundIs(x);
    DrainStep(s);
    DrainStep(x);
    FeedPair(x, s[m..]);
    assert |Cut(x, at, sz)| <= m - at && |Cut(s, at, sz)| == |s| - at;
    assert Drain(x).0[0] == Cut(x, at, sz) && Drain(s).0[0] == Cut(s, at, sz);
  }

  // The decoder is independent of the splitting, and ends, exactly on the steady streams.
  lemma SplitExact(s: string)
    requires |s| <= MAX_STRING
    ensures SplitsAgree(s) <==> Steady(s)
  {
    hide FrontOf, RoundOf, Drain, Steady, FeedAll, Concat;
    assert START.buf + s == s;
    StartIdle();
    if Steady(s) {
      forall pieces | Concat(pieces) == s
        ensures FeedAll(START, pieces) == Drain(s)
      {
        SplitIndependent(START, pieces);
      }
      OnePiece(s);
      SplitIndependent(START, [s]);
    } else if !Drain(s).1.hung {
      var m := SplitsDiffer(s);
      PairConcat(s[..m], s[m..]);
      assert s[..m] + s[m..] == s;
    }
  }

  lemma StartIdle()
    ensures Idle(START)
  {
  }

  lemma OnePiece(s: string)
    ensures Concat([s]) == s && FeedAll(START, [s]) == Drain(s)
  {
    hide Drain;
    assert [s][1..] == [];
    assert s + "" == s && "" + s == s;
    assert Drain(s).0 + [] == Drain(s).0;
  }

  // ---------- the batch loop ----------

  // A round of the batch loop at place `p`: what it puts out, and the next place, counted in
  // 64 bits from the start of the body.
  function BatchRound(b: string, p: nat): Option<(string, nat)>
    requires p <= |b|
  {
    match FrontOf(b[p..])
    case Chunk(at, sz) => Some((Cut(b[p..], at, sz), Taken(p + at, sz)))
    case _ => None
  }

  // What the loop puts out from `p` on in at most `n` rounds, and whether it has ended.
  function BatchRun(b: string, p: nat, n: nat): (string, bool)
    decreases n
  {
    if p >= |b| then ("", true)
    else
      match BatchRound(b, p)
      case None => ("", true)
      case Some(r) =>
        if n == 0 then ("", false)
        else
          var rest := BatchRun(b, r.1, n - 1);
          (r.0 + rest.0, rest.1)
  }

  // The loop, started at `p`, ends with `body`.
  ghost predicate Yields(b: string, p: nat, body: string) {
    exists n: nat :: BatchRun(b, p, n) == (body, true)
  }

  // The loop of `parse_response` over a chunked body, which has no limit on its rounds. It
  // does not trim the size line.
  method DecodeBatch(b: string, limit: nat) returns (body: string, ended: bool)
    ensures (body, ended) == BatchRun(b, 0, limit)
    ensures ended ==> Yields(b, 0, body)
  {
    hide FrontOf, Cut, Find, Stoul, Taken;
    var p: nat, n := 0, 0;
    body := "";
    ghost var goal := BatchRun(b, 0, limit);
    while p < |b|
      invariant n <= limit
      invariant body + BatchRun(b, p, limit - n).0 == goal.0 && BatchRun(b, p, limit - n).1 == goal.1
      decreases limit - n
    {
      var cr, sz := ReadUntrimmed(b[p..]);
      assert body + "" == body;
      if cr.None? || sz.None? || sz.value == 0 {
        return body, true;
      }
      if n == limit {
        return body, false;
      }
      var at := cr.value + 2;
      body := body + Cut(b[p..], at, sz.value);
      p := Taken(p + at, sz.value);
      n := n + 1;
    }
    assert body + "" == body;
    ended := true;
  }

  method ReadUntrimmed(b: string) returns (cr: Option<nat>, sz: Option<nat>)
    ensures cr == Find(b, CRLF) && (cr.Some? ==> cr.value + 2 <= |b|)
    ensures FrontOf(b)
         == if cr.None? then NoLine else if sz.None? then Bad else if sz.value == 0 then Last
            else Chunk(cr.value + 2, sz.value)
  {
    cr := Find(b, CRLF);
    if cr.None? {
      return cr, None;
    }
    FindSpec(b, CRLF);
    SizeLines(b[..cr.value]);
    sz := Stoul(Plain(b[..cr.value]));
  }

  lemma {:induction false} RunMore(b: string, p: nat, n: nat, m: nat)
    requires n <= m && BatchRun(b, p, n).1
    ensures BatchRun(b, p, m) == BatchRun(b, p, n)
    decreases n
  {
    hide BatchRound;
    if p < |b| && BatchRound(b, p).Some? {
      RunMore(b, BatchRound(b, p).value.1, n - 1, m - 1);
    }
  }

  // The loop ends with one body.
  lemma YieldsOnce(b: string, p: nat, x: string, y: string)
    requires Yields(b, p, x) && Yields(b, p, y)
    ensures x == y
  {
    hide BatchRun;
    var n: nat :| BatchRun(b, p, n) == (x, true);
    var m: nat :| BatchRun(b, p, m) == (y, true);
    RunMore(b, p, n, n + m);
    RunMore(b, p, m, n + m);
  }

  lemma YieldsRound(b: string, p: nat, rest: string)
    requires p < |b| && BatchRound(b, p).Some?
    ensures Yields(b, p, BatchRound(b, p).value.0 + rest) <==> Yields(b, BatchRound(b, p).value.1, rest)
  {
    hide BatchRound;
    var r := BatchRound(b, p).value;
    if Yields(b, p, r.0 + rest) {
      var n: nat :| BatchRun(b, p, n) == (r.0 + rest, true);
      assert n > 0;
      var more := BatchRun(b, r.1, n - 1);
      assert (r.0 + rest)[|r.0|..] == rest && (r.0 + more.0)[|r.0|..] == more.0;
      assert BatchRun(b, r.1, n - 1) == (rest, true);
    }
    if Yields(b, r.1, rest) {
      var n: nat :| BatchRun(b, r.1, n) == (rest, true);
      assert BatchRun(b, p, n + 1) == (r.0 + rest, true);
    }
  }

  lemma YieldsHere(b: string, p: nat, y: string)
    requires p >= |b| || BatchRound(b, p).None?
    ensures Yields(b, p, y) <==> y == ""
  {
    hide BatchRound;
    assert BatchRun(b, p, 0) == ("", true);
    if Yields(b, p, y) {
      YieldsOnce(b, p, y, "");
    }
  }

  lemma {:induction false} Spinning(b: string, p: nat, n: nat)
    requires p < |b| && BatchRound(b, p).Some? && BatchRound(b, p).value.1 == p
    ensures !BatchRun(b, p, n).1
    decreases n
  {
    hide BatchRound;
    if n > 0 {
      Spinning(b, p, n - 1);
    }
  }

  // ---------- incremental and batch ----------

  // Where the loop is sent back to: from the first chunk whose length fits 64 bits by itself
  // but not counted from the start of the body.
  function Back(b: string, p: nat): Option<nat>
    requires p <= |b|
    decreases |b| - p
  {
    match FrontOf(b[p..])
    case Chunk(at, sz) =>
      var len := Taken(at, sz);
      if p + len >= WORD then Some(p + len - WORD)
      else if 0 < len <= |b| - p then Back(b, p + len)
      else None
    case _ => None
  }

  lemma BackStep(b: string, p: nat)
    requires p <= |b|
    ensures var f := FrontOf(b[p..]);
            && (!f.Chunk? ==> Back(b, p) == None)
            && (f.Chunk? ==> Back(b, p) == var len := Taken(f.at, f.sz);
                  if p + len >= WORD then Some(p + len - WORD)
                  else if 0 < len <= |b| - p then Back(b, p + len)
                  else None)
  {
    hide FrontOf, Taken;
  }

  // What the batch decoding takes of a chunk that is not complete.
  function Partial(rest: string): string {
    match FrontOf(rest)
    case Chunk(at, sz) => Cut(rest, at, sz)
    case _ => ""
  }

  // The body of a decoder's run: the chunks, and the part of an incomplete last one.
  function Whole(r: (seq<string>, Decoder)): string {
    Concat(r.0) + (if r.1.done then "" else Partial(r.1.buf))
  }

  // The batch loop from `p` on, against the decoder fed with the rest from `p` on. It is
  // endless where the decoder hangs; else it puts out the same body and ends there, unless it
  // is sent back, which the decoder is not: then it goes on from that place.
  ghost predicate Agrees(b: string, p: nat)
    requires p <= |b|
  {
    var r := Drain(b[p..]);
    && (r.1.hung ==> forall n: nat :: !BatchRun(b, p, n).1)
    && (!r.1.hung && Back(b, p).None? ==> Yields(b, p, Whole(r)))
    && (Back(b, p).Some? ==> !r.1.hung && !r.1.done && Back(b, p).value < |b|)
    && (Back(b, p).Some? ==> forall y :: Yields(b, p, Whole(r) + y) <==> Yields(b, Back(b, p).value, y))
  }

  lemma TakenFrom(p: nat, at: nat, sz: nat)
    requires p < WORD
    ensures Taken(p + at, sz) == (if p + Taken(at, sz) >= WORD then p + Taken(at, sz) - WORD else p + Taken(at, sz))
  {
    var x := at + sz + 2;
    var k := x / WORD;
    assert x == k * WORD + x % WORD;
    var y := p + x % WORD;
    assert p + x == k * WORD + y;
    AddMultiple(y, k);
    if y >= WORD {
      assert y % WORD == y - WORD;
    }
  }

  lemma {:induction false} AddMultiple(y: nat, k: nat)
    ensures (k * WORD + y) % WORD == y % WORD
  {
    if k > 0 {
      AddMultiple(y, k - 1);
      assert k * WORD + y == (k - 1) * WORD + y + WORD;
    }
  }

  lemma {:induction false} BatchIsDrain(b: string, p: nat)
    requires p <= |b| <= MAX_STRING
    ensures Agrees(b, p)
    decreases |b| - p
  {
    hide FrontOf, RoundOf, Drain, Back, Taken, BatchRound, Whole, Agrees;
    var f := FrontOf(b[p..]);
    var round := RoundOf(b[p..]);
    RoundIs(b[p..]);
    if f.Chunk? {
      RoundAt(b, p);
      TakenFrom(p, f.at, f.sz);
      if round.Take? {
        BatchIsDrain(b, p + round.len);
        AgreesTake(b, p);
      } else if round.Spin? {
        AgreesSpin(b, p);
      } else {
        AgreesWait(b, p);
      }
    } else {
      AgreesEnd(b, p);
    }
  }

  lemma RoundAt(b: string, p: nat)
    requires p <= |b| && FrontOf(b[p..]).Chunk?
    ensures var f := FrontOf(b[p..]); BatchRound(b, p) == Some((Cut(b[p..], f.at, f.sz), Taken(p + f.at, f.sz)))
    ensures p < |b|
  {
    hide FrontOf;
    assert FrontOf(b[p..]).at <= |b[p..]|;
  }

  lemma AgreesEnd(b: string, p: nat)
    requires p <= |b| && !FrontOf(b[p..]).Chunk?
    ensures Agrees(b, p)
  {
    hide FrontOf, RoundOf, Drain, Back;
    RoundIs(b[p..]);
    DrainStep(b[p..]);
    BackStep(b, p);
    YieldsHere(b, p, "");
    ConcatNone();
    assert Whole(Drain(b[p..])) == "";
  }

  lemma AgreesSpin(b: string, p: nat)
    requires p < |b| <= MAX_STRING && RoundOf(b[p..]) == Spin
    requires BatchRound(b, p).Some? && BatchRound(b, p).value.1 == p
    ensures Agrees(b, p)
  {
    hide FrontOf, RoundOf, Drain, Back, BatchRound, Taken;
    RoundIs(b[p..]);
    DrainStep(b[p..]);
    BackStep(b, p);
    forall n: nat
      ensures !BatchRun(b, p, n).1
    {
      Spinning(b, p, n);
    }
  }

  lemma AgreesWait(b: string, p: nat)
    requires p < |b| <= MAX_STRING && RoundOf(b[p..]) == Wait && FrontOf(b[p..]).Chunk?
    requires var f := FrontOf(b[p..]); BatchRound(b, p) == Some((Cut(b[p..], f.at, f.sz), Taken(p + f.at, f.sz)))
    requires var f := FrontOf(b[p..]);
             var q := p + Taken(f.at, f.sz);
             Taken(p + f.at, f.sz) == if q >= WORD then q - WORD else q
    ensures Agrees(b, p)
  {
    hide FrontOf, RoundOf, Drain, Back, BatchRound, Taken, Yields, Cut;
    RoundIs(b[p..]);
    DrainStep(b[p..]);
    BackStep(b, p);
    ConcatNone();
    var f, r := FrontOf(b[p..]), BatchRound(b, p).value;
    assert Whole(Drain(b[p..])) == r.0 by {
      assert "" + r.0 == r.0;
    }
    if Back(b, p).None? {
      YieldsHere(b, r.1, "");
      YieldsRound(b, p, "");
      assert r.0 + "" == r.0;
    } else {
      forall y
        ensures Yields(b, p, r.0 + y) <==> Yields(b, r.1, y)
      {
        YieldsRound(b, p, y);
      }
    }
  }

  lemma AgreesTake(b: string, p: nat)
    requires p < |b| <= MAX_STRING && RoundOf(b[p..]).Take?
    requires var round := RoundOf(b[p..]); p + round.len <= |b| && Agrees(b, p + round.len)
    requires var round := RoundOf(b[p..]); BatchRound(b, p) == Some((round.chunk, p + round.len))
    ensures Agrees(b, p)
  {
    hide FrontOf, RoundOf, Drain, Back, BatchRound, Taken, Yields, Cut, BatchRun, Whole;
    var round := RoundOf(b[p..]);
    var q := p + round.len;
    assert b[p..][round.len..] == b[q..];
    RoundIs(b[p..]);
    DrainStep(b[p..]);
    BackStep(b, p);
    WholeTake(round.chunk, Drain(b[q..]));
    var w := Whole(Drain(b[q..]));
    YieldsRound(b, p, w);
    if Back(b, p).Some? {
      forall y
        ensures Yields(b, p, (round.chunk + w) + y) <==> Yields(b, Back(b, p).value, y)
      {
        YieldsRound(b, p, w + y);
        assert (round.chunk + w) + y == round.chunk + (w + y);
      }
    }
    if Drain(b[q..]).1.hung {
      forall n: nat
        ensures !BatchRun(b, p, n).1
      {
        EndlessTake(b, p, q, n);
      }
    }
  }

  lemma EndlessTake(b: string, p: nat, q: nat, n: nat)
    requires p < |b| && BatchRound(b, p).Some? && BatchRound(b, p).value.1 == q
    requires forall n: nat :: !BatchRun(b, q, n).1
    ensures !BatchRun(b, p, n).1
  {
    hide BatchRound;
  }

  lemma WholeTake(c: string, r: (seq<string>, Decoder))
    ensures Whole(([c] + r.0, r.1)) == c + Whole(r)
  {
    hide Partial, Concat;
    ConcatCons(c, r.0);
  }

  lemma ConcatCons(x: string, rest: seq<string>)
    ensures Concat([x] + rest) == x + Concat(rest)
  {
    assert ([x] + rest)[1..] == rest;
  }

  lemma {:induction false} ConcatCat(a: seq<string>, b: seq<string>)
    ensures Concat(a + b) == Concat(a) + Concat(b)
    decreases |a|
  {
    if a == [] {
      assert a + b == b;
    } else {
      assert (a + b)[1..] == a[1..] + b;
      ConcatCat(a[1..], b);
    }
  }

  lemma ConcatNone()
    ensures Concat([]) == ""
  {
  }

  // The batch decoding of a body, if it ends.
  ghost function Batch(b: string): Option<string> {
    if exists body :: Yields(b, 0, body) then
      var body :| Yields(b, 0, body);
      Some(body)
    else None
  }

  lemma BatchIs(b: string, body: string)
    ensures Batch(b) == Some(body) <==> Yields(b, 0, body)
  {
    hide Yields;
    if Yields(b, 0, body) {
      var z := Batch(b).value;
      assert Yields(b, 0, z);
      YieldsOnce(b, 0, body, z);
    }
  }

  // The batch decoding is what the incremental decoder emits, plus the part of an incomplete
  // last chunk that has arrived, if and only if the decoder does not hang, and the loop is
  // not sent back or finds nothing there.
  lemma BatchExact(b: string)
    requires |b| <= MAX_STRING
    ensures Batch(b) == Some(Whole(Drain(b)))
       <==> !Drain(b).1.hung && (Back(b, 0).None? || Yields(b, Back(b, 0).value, ""))
    ensures Drain(b).1.hung ==> Batch(b) == None
  {
    hide Drain, Back, Whole, BatchRun, Batch;
    assert b[0..] == b;
    BatchIsDrain(b, 0);
    var w := Whole(Drain(b));
    BatchIs(b, w);
    assert w + "" == w;
    if Drain(b).1.hung {
      NeverYields(b);
    }
  }

  lemma NeverYields(b: string)
    requires forall n: nat :: !BatchRun(b, 0, n).1
    ensures Batch(b) == None
  {
  }

  // ---------- inputs on which they part ----------

  function Fill(acc: nat, n: nat): nat
    decreases n
  {
    if n == 0 then acc else Fill(16 * acc + 15, n - 1)
  }

  lemma {:induction false} FillDigits(s: string, n: nat, acc: nat)
    requires n <= |s| && forall i :: 0 <= i < n ==> s[i] == 'f'
    ensures Digits(s, acc) == Digits(s[n..], Fill(acc, n))
    decreases n
  {
    if n == 0 {
      assert s[0..] == s;
    } else {
      FillDigits(s[1..], n - 1, 16 * acc + 15);
      assert s[1..][n - 1..] == s[n..];
    }
  }

  lemma TwoDigits(t: string, acc: nat)
    requires |t| == 2 && Digit(t[0]).Some? && Digit(t[1]).Some?
    ensures Digits(t, acc) == 16 * (16 * acc + Digit(t[0]).value) + Digit(t[1]).value
  {
    var rest := t[1..];
    assert Digits(t, acc) == Digits(rest, 16 * acc + Digit(t[0]).value);
    assert Digits(rest, 16 * acc + Digit(t[0]).value) == 16 * (16 * acc + Digit(t[0]).value) + Digit(rest[0]).value by {
      assert rest[1..] == "";
    }
  }

  lemma AtHead(s: string, pat: string, i: nat)
    ensures At(s, pat, i) && pat != "" ==> i < |s| && s[i] == pat[0]
  {
    if At(s, pat, i) && pat != "" {
      assert s[i] == s[i..i + |pat|][0];
    }
  }

  // A line of fourteen `f` and two more digits.
  lemma WideLine(line: string)
    requires |line| == 16 && Digit(line[14]).Some? && Digit(line[15]).Some?
    requires forall i :: 0 <= i < 14 ==> line[i] == 'f'
    ensures Size(line) == Some(WORD - 256 + 16 * Digit(line[14]).value + Digit(line[15]).value)
  {
    hide Digits, Digit, Trimmed, Find, Plain, Stoul, SkipSpaces, Unprefixed, Size, Fill, IsSpace;
    FillDigits(line, 14, 0);
    FillValue();
    TwoDigits(line[14..], Fill(0, 14));
    IsDigit(line[14]);
    IsDigit(line[15]);
    NoSemicolon(line);
    SizeLines(line);
    assert line[0] == 'f';
    StoulDigits(line);
  }

  lemma IsDigit(c: char)
    ensures Digit(c).Some? ==> c != ';' && Digit(c).value < 16
  {
  }

  lemma FillValue()
    ensures Fill(0, 14) == 0xff_ffff_ffff_ffff
  {
  }

  lemma StoulDigits(s: string)
    requires s != "" && 'a' <= s[0] <= 'f'
    ensures Stoul(s) == if Digits(s, 0) >= WORD then None else Some(Digits(s, 0))
  {
    hide Digits;
    assert SkipSpaces(s) == s;
  }

  lemma NoSemicolon(line: string)
    requires forall i :: 0 <= i < |line| ==> line[i] != ';'
    ensures Plain(line) == line
  {
    hide Find;
    FindSpec(line, ";");
    var f := Find(line, ";");
    AtHead(line, ";", if f.Some? then f.value else 0);
  }

  lemma WideFront(line: string, t: string)
    requires |line| == 16 && Digit(line[14]).Some? && Digit(line[15]).Some?
    requires forall i :: 0 <= i < 14 ==> line[i] == 'f'
    ensures FrontOf(line + CRLF + t)
         == Chunk(18, WORD - 256 + 16 * Digit(line[14]).value + Digit(line[15]).value)
  {
    hide Find, Size;
    var b := line + CRLF + t;
    assert b[16..18] == CRLF && b[..16] == line;
    forall j | 0 <= j < 16
      ensures !At(b, CRLF, j)
    {
      assert b[j] == line[j];
      assert b[j..j + 2][0] == b[j];
    }
    FindIs(b, CRLF, 16);
    WideLine(line);
  }

  lemma LetterF()
    ensures Digit('f') == Some(15)
  {
  }

  lemma WrapFront(t: string)
    requires 1 <= |t| <= 4
    ensures var b := "ffffffffffffffff\r\n" + t;
            && Drain(b).0 == [t] + Drain(t[1..]).0 && Drain(b).1 == Drain(t[1..]).1
            && (Steady(b) ==> |t| <= 1)
  {
    hide FrontOf, RoundOf, Drain, Steady, Digit;
    var line := "ffffffffffffffff";
    var b := line + CRLF + t;
    assert line + CRLF == "ffffffffffffffff\r\n";
    LetterF();
    WideFront(line, t);
    RoundIs(b);
    DrainStep(b);
    SteadyStep(b);
    assert |b| == 18 + |t|;
    assert Taken(18, WORD - 1) == 19;
    assert b[18..] == t && b[19..] == t[1..];
    assert Cut(b, 18, WORD - 1) == t;
  }

  // With a size of 2^64 - 1 one feed emits four bytes, and two feeds one.
  lemma WrapDiffers()
    ensures var line := "ffffffffffffffff\r\n";
            && Drain(line + "ABCD").0 == ["ABCD"]
            && FeedAll(START, [line + "A", "BCD"]).0 == ["A"]
            && !Steady(line + "ABCD")
  {
    hide FrontOf, RoundOf, Drain, FeedStep, FeedAll, Steady;
    WrapFront("A");
    WrapFront("ABCD");
    assert "A"[1..] == "" && "ABCD"[1..] == "BCD";
    DrainShort("");
    DrainShort("BCD");
    FeedPair("ffffffffffffffff\r\n" + "A", "BCD");
    FeedShort("BCD");
  }

  // Nothing comes out of a few bytes without a line break.
  lemma DrainShort(b: string)
    requires b == "" || b == "BCD"
    ensures Drain(b) == ([], Decoder(b, false, false))
  {
    hide Find;
    FindSpec(b, CRLF);
    var f := Find(b, CRLF);
    AtHead(b, CRLF, if f.Some? then f.value else 0);
  }

  lemma FeedShort(b: string)
    requires b == "BCD"
    ensures FeedStep(Decoder("", false, false), b).0 == []
  {
    DrainShort(b);
    assert "" + b == b;
  }

  // With a size of 2^64 - 20 neither loop ever ends, whatever follows.
  lemma WrapHangs(t: string)
    requires |t| < MAX_STRING - 18
    ensures var b := "ffffffffffffffec\r\n" + t;
            && Drain(b).1.hung && Batch(b) == None
            && forall n: nat :: !Rounds(b, n).ended && |Rounds(b, n).emitted| == n
  {
    hide FrontOf, RoundOf, Drain, Rounds, Batch;
    var line := "ffffffffffffffec";
    var b := line + CRLF + t;
    WideFront(line, t);
    RoundIs(b);
    DrainStep(b);
    BatchExact(b);
    forall n: nat
      ensures !Rounds(b, n).ended && |Rounds(b, n).emitted| == n
    {
      DrainRounds(b, n);
    }
    assert line + CRLF == "ffffffffffffffec\r\n";
  }

  // Behind a chunk of one byte, a size of 2^64 - 26 leaves the decoder waiting and sends the
  // batch loop to the start of the body, for ever.
  lemma BatchGoesBack()
    ensures var b := "1\r\nA\r\nffffffffffffffe6\r\n";
            && Drain(b).0 == ["A"] && !Drain(b).1.hung && AllFit(b)
            && Back(b, 0) == Some(0) && Batch(b) == None
  {
    hide FrontOf, RoundOf, Drain, Back, Batch, BatchRun, AllFit;
    var rest := "ffffffffffffffe6\r\n";
    var b := "1\r\nA\r\n" + rest;
    assert b == "1\r\nA\r\nffffffffffffffe6\r\n";
    assert b[6..] == rest && b[0..] == b;
    OneFront(rest);
    LastFront();
    GoesBack(b, rest);
    forall n: nat
      ensures !BatchRun(b, 0, n).1
    {
      TwoRounds(b, n);
    }
    NeverYields(b);
  }

  lemma LastFront()
    ensures FrontOf("ffffffffffffffe6\r\n") == Chunk(18, WORD - 26)
  {
    hide FrontOf;
    var line := "ffffffffffffffe6";
    WideFront(line, "");
    assert line + CRLF + "" == "ffffffffffffffe6\r\n";
  }

  lemma GoesBack(b: string, rest: string)
    requires |b| == 24 && b[6..] == rest && b[3] == 'A'
    requires FrontOf(b) == Chunk(3, 1) && FrontOf(rest) == Chunk(18, WORD - 26)
    ensures Drain(b).0 == ["A"] && !Drain(b).1.hung && AllFit(b) && Back(b, 0) == Some(0)
  {
    hide FrontOf, RoundOf, Drain, Back, AllFit;
    assert b[0..] == b && b[3..4] == "A";
    RoundIs(rest);
    RoundIs(b);
    DrainStep(rest);
    DrainStep(b);
    BackStep(b, 6);
    BackStep(b, 0);
    AllFitHere(b, rest);
  }

  lemma OneFront(rest: string)
    ensures FrontOf("1\r\nA\r\n" + rest) == Chunk(3, 1)
  {
    hide Find, Size;
    var b := "1\r\nA\r\n" + rest;
    assert b[1..3] == CRLF && b[..1] == "1";
    assert b[0..2][0] == '1';
    FindIs(b, CRLF, 1);
    OneSize();
  }

  lemma OneSize()
    ensures Size("1") == Some(1)
  {
    NoSemicolon("1");
    StoulTrimmed("1");
    assert "1"[1..] == "";
  }

  lemma AllFitHere(b: string, rest: string)
    requires FrontOf(b) == Chunk(3, 1) && |b| >= 6 && b[6..] == rest
    requires FrontOf(rest) == Chunk(18, WORD - 26) && |rest| == 18
    ensures AllFit(b)
  {
    hide FrontOf;
  }

  lemma {:induction false} TwoRounds(b: string, n: nat)
    requires |b| == 24 && FrontOf(b) == Chunk(3, 1) && FrontOf(b[6..]) == Chunk(18, WORD - 26)
    ensures !BatchRun(b, 0, n).1
    decreases n
  {
    hide FrontOf;
    assert b[0..] == b;
    if n >= 2 {
      TwoRounds(b, n - 2);
    }
  }
}
