/** The HTTP client's reading of a response: streamed through a sink, and in one go. */
module HttpClient {

  import opened Options
  import opened Strings
  import opened ChunkedBodies

  const BLANK := "\r\n\r\n"

  // ---------- the whole response ----------

  // What the header block says: whether its status line is accepted, and whether the body is
  // chunked, by its lines.
  datatype Headers = Headers(valid: string -> bool, chunked: seq<string> -> bool)

  // The header lines up to the blank line, and the body behind it.
  function HeaderLines(s: string): (seq<string>, string)
    decreases |s|
  {
    match Find(s, CRLF)
    case None => ([], s)
    case Some(k) =>
      FindSpec(s, CRLF);
      if k == 0 then ([], s[2..])
      else
        var (lines, body) := HeaderLines(s[k + 2..]);
        ([s[..k]] + lines, body)
  }

  // ---------- the sink ----------

  datatype Sink = Sink(head: string, headersDone: bool, isChunked: bool, dec: Decoder)

  // The lines of a header block: the status line and the fields.
  function Block(head: string): seq<string> {
    match Find(head, CRLF)
    case None => []
    case Some(k) => FindSpec(head, CRLF); [head[..k]] + HeaderLines(head[k + 2..]).0
  }

  // Whether a body behind this block is decoded as chunked: a block that does not parse has
  // no fields.
  predicate ChunkedBlock(h: Headers, head: string) {
    var lines := Block(head);
    lines != [] && h.valid(lines[0]) && h.chunked(lines[1..])
  }

  function EmitStep(s: Sink, bytes: string): (seq<string>, Sink) {
    if bytes == "" then ([], s)
    else if s.isChunked then
      var (cs, d) := FeedStep(s.dec, bytes); (cs, s.(dec := d))
    else ([bytes], s)
  }

  function FeedSink(h: Headers, s: Sink, data: string): (seq<string>, Sink) {
    if s.headersDone then EmitStep(s, data)
    else
      var head := s.head + data;
      match Find(head, BLANK)
      case None => ([], s.(head := head))
      case Some(he) =>
        FindSpec(head, BLANK);
        EmitStep(s.(head := "", headersDone := true, isChunked := ChunkedBlock(h, head[..he + 4])), head[he + 4..])
  }

  const FIRST := Sink("", false, false, START)

  class StreamSink {
    var head: string
    var headersDone: bool
    var isChunked: bool
    const chunked: ChunkedDecoder

    ghost function Model(): Sink
      reads this, chunked
    {
      Sink(head, headersDone, isChunked, chunked.Model())
    }

    constructor ()
      ensures Model() == FIRST && fresh(chunked)
    {
      head, headersDone, isChunked := "", false, false;
      chunked := new ChunkedDecoder();
    }

    // As in the decoder, `limit` bounds the rounds only here.
    method Feed(h: Headers, data: string, limit: nat) returns (emitted: seq<string>, ended: bool)
      modifies this, chunked
      ensures ended ==> (emitted, Model()) == FeedSink(h, old(Model()), data)
      ensures ended <== !FeedSink(h, old(Model()), data).1.dec.hung && limit >= |FeedSink(h, old(Model()), data).0|
      ensures FeedSink(h, old(Model()), data).1.dec.hung ==> !ended
    {
      hide Find, ChunkedBlock, EmitStep;
      if headersDone {
        emitted, ended := Emit(data, limit);
        return;
      }
      head := head + data;
      var he := Find(head, BLANK);
      if he.None? {
        return [], true;
      }
      FindSpec(head, BLANK);
      headersDone := true;
      isChunked := ChunkedBlock(h, head[..he.value + 4]);
      var leftover := head[he.value + 4..];
      head := "";
      emitted, ended := Emit(leftover, limit);
    }

    method Emit(bytes: string, limit: nat) returns (emitted: seq<string>, ended: bool)
      modifies chunked
      ensures ended ==> (emitted, Model()) == EmitStep(old(Model()), bytes)
      ensures ended <== !EmitStep(old(Model()), bytes).1.dec.hung && limit >= |EmitStep(old(Model()), bytes).0|
      ensures EmitStep(old(Model()), bytes).1.dec.hung ==> !ended
    {
      hide FeedStep;
      if bytes == "" {
        return [], true;
      }
      if isChunked {
        emitted, ended := chunked.Feed(bytes, limit);
      } else {
        emitted, ended := [bytes], true;
      }
    }
  }

  function FeedSinkAll(h: Headers, s: Sink, pieces: seq<string>): (seq<string>, Sink)
    decreases |pieces|
  {
    if pieces == [] then ([], s)
    else
      var (cs, s1) := FeedSink(h, s, pieces[0]);
      var (rest, s2) := FeedSinkAll(h, s1, pieces[1..]);
      (cs + rest, s2)
  }

  predicate Fresh(s: Sink) {
    Idle(s.dec) && (!s.headersDone ==> Find(s.head, BLANK).None?)
  }

  predicate SteadyEmit(s: Sink, bytes: string) {
    s.isChunked && !s.dec.done ==> Steady(s.dec.buf + bytes)
  }

  // If these bytes carry on a chunked body, it is steady.
  predicate SteadySink(h: Headers, s: Sink, data: string) {
    if s.headersDone then SteadyEmit(s, data)
    else
      var head := s.head + data;
      match Find(head, BLANK)
      case None => true
      case Some(he) =>
        FindSpec(head, BLANK);
        SteadyEmit(s.(isChunked := ChunkedBlock(h, head[..he + 4])), head[he + 4..])
  }

  // The same state and body, and of a chunked body the same chunks.
  ghost predicate Same(a: (seq<string>, Sink), b: (seq<string>, Sink)) {
    && a.1 == b.1 && Concat(a.0) == Concat(b.0)
    && (a.1.isChunked && a.1.headersDone ==> a.0 == b.0)
  }

  // Two emissions are one.
  ghost predicate Joined(a: (seq<string>, Sink), b: (seq<string>, Sink), c: (seq<string>, Sink)) {
    && c.1 == b.1 && Concat(c.0) == Concat(a.0) + Concat(b.0)
    && (c.1.isChunked && c.1.headersDone ==> c.0 == a.0 + b.0)
  }

  lemma EmitTwice(s: Sink, x: string, y: string)
    requires s.headersDone && Idle(s.dec) && SteadyEmit(s, x + y)
    ensures Joined(EmitStep(s, x), EmitStep(EmitStep(s, x).1, y), EmitStep(s, x + y))
    ensures Fresh(EmitStep(s, x).1) && SteadyEmit(EmitStep(s, x).1, y)
  {
    hide RoundOf, Drain, Find, Steady, FeedStep;
    assert x == "" ==> x + y == y;
    assert y == "" ==> x + y == x;
    if s.isChunked {
      FeedTwice(s.dec, x, y);
      FeedNothing(s.dec);
      FeedNothing(FeedStep(s.dec, x).1);
      ConcatCat(EmitStep(s, x).0, EmitStep(EmitStep(s, x).1, y).0);
      var cs := EmitStep(s, x).0;
      assert cs + [] == cs && [] + EmitStep(s, y).0 == EmitStep(s, y).0;
    } else {
      assert Concat([x + y]) == x + y && Concat([x]) == x && Concat([y]) == y;
    }
  }

  lemma FeedNothing(d: Decoder)
    requires Idle(d)
    ensures FeedStep(d, "") == ([], d)
  {
    hide RoundOf, Drain, Steady;
    assert d.buf + "" == d.buf;
    if !d.done {
      WaitSteady(d.buf);
    }
  }

  lemma SinkTwice(h: Headers, s: Sink, x: string, y: string)
    requires Fresh(s) && SteadySink(h, s, x + y)
    ensures Joined(FeedSink(h, s, x), FeedSink(h, FeedSink(h, s, x).1, y), FeedSink(h, s, x + y))
    ensures Fresh(FeedSink(h, s, x).1) && SteadySink(h, FeedSink(h, s, x).1, y)
  {
    hide Idle, Find, ChunkedBlock, EmitStep, Concat, SteadyEmit;
    if s.headersDone {
      EmitTwice(s, x, y);
      StillDone(s, x);
    } else {
      var head := s.head + x;
      assert s.head + (x + y) == head + y;
      var f := Find(head, BLANK);
      if f.Some? {
        FindSpec(head, BLANK);
        FindExtends(head, y, BLANK);
        var he := f.value;
        assert (head + y)[..he + 4] == head[..he + 4] && (head + y)[he + 4..] == head[he + 4..] + y;
        var s0 := s.(head := "", headersDone := true, isChunked := ChunkedBlock(h, head[..he + 4]));
        SameEmit(s.(isChunked := s0.isChunked), s0, head[he + 4..] + y);
        EmitTwice(s0, head[he + 4..], y);
        StillDone(s0, head[he + 4..]);
      } else {
        var c := FeedSink(h, s, x + y);
        assert head[|s.head|..] == x;
        StillSteady(h, s, head, y);
        assert Concat([]) == "" by {
          ConcatNone();
        }
        assert "" + Concat(c.0) == Concat(c.0);
        assert [] + c.0 == c.0;
      }
    }
  }

  lemma StillSteady(h: Headers, s: Sink, head: string, y: string)
    requires !s.headersDone && s.head <= head
    requires SteadySink(h, s, head[|s.head|..] + y)
    ensures SteadySink(h, s.(head := head), y)
  {
    hide Find, ChunkedBlock, SteadyEmit;
    assert s.head + (head[|s.head|..] + y) == head + y;
    var f := Find(head + y, BLANK);
    if f.Some? {
      FindSpec(head + y, BLANK);
      var c := ChunkedBlock(h, (head + y)[..f.value + 4]);
      SameEmit(s.(isChunked := c), s.(head := head, isChunked := c), (head + y)[f.value + 4..]);
    }
  }

  lemma SameEmit(s: Sink, t: Sink, bytes: string)
    requires s.isChunked == t.isChunked && s.dec == t.dec
    ensures SteadyEmit(s, bytes) <==> SteadyEmit(t, bytes)
  {
  }

  lemma StillDone(s: Sink, x: string)
    requires s.headersDone
    ensures EmitStep(s, x).1.headersDone
  {
  }

  // Through the sink the concatenated body does not depend on the splitting; neither do the
  // chunks of a chunked body.
  lemma {:induction false} SinkSplitIndependent(h: Headers, s: Sink, pieces: seq<string>)
    requires Fresh(s) && SteadySink(h, s, Concat(pieces))
    ensures Same(FeedSinkAll(h, s, pieces), FeedSink(h, s, Concat(pieces)))
    ensures Fresh(FeedSinkAll(h, s, pieces).1)
    decreases |pieces|
  {
    hide Idle, Find, ChunkedBlock, SteadySink;
    if pieces == [] {
      assert s.head + "" == s.head;
    } else {
      var (c, s1) := FeedSink(h, s, pieces[0]);
      SinkTwice(h, s, pieces[0], Concat(pieces[1..]));
      SinkSplitIndependent(h, s1, pieces[1..]);
      ConcatCat(c, FeedSinkAll(h, s1, pieces[1..]).0);
    }
  }

  // One feed of the response ends, and every splitting gives what it gives.
  ghost predicate SinkSplitsAgree(h: Headers, raw: string) {
    && !FeedSink(h, FIRST, raw).1.dec.hung
    && forall pieces :: Concat(pieces) == raw ==> Same(FeedSinkAll(h, FIRST, pieces), FeedSink(h, FIRST, raw))
  }

  lemma StartFresh()
    ensures Fresh(FIRST)
  {
  }

  // The splitting does not matter exactly for the responses whose body is steady, if chunked.
  lemma SinkSplitExact(h: Headers, raw: string)
    requires |raw| <= MAX_STRING
    ensures SinkSplitsAgree(h, raw) <==> SteadySink(h, FIRST, raw)
  {
    hide Idle, Find, ChunkedBlock, SteadySink, FeedSink, FeedSinkAll, Same, Fresh, Concat;
    StartFresh();
    if SteadySink(h, FIRST, raw) {
      forall pieces | Concat(pieces) == raw
        ensures Same(FeedSinkAll(h, FIRST, pieces), FeedSink(h, FIRST, raw))
      {
        SinkSplitIndependent(h, FIRST, pieces);
      }
      SinkEnds(h, raw);
    } else {
      SinkDiffers(h, raw);
    }
  }

  lemma SinkEnds(h: Headers, raw: string)
    requires SteadySink(h, FIRST, raw)
    ensures !FeedSink(h, FIRST, raw).1.dec.hung
  {
    hide Find, ChunkedBlock, SteadySink;
    StartFresh();
    assert raw + "" == raw;
    SinkTwice(h, FIRST, raw, "");
  }

  lemma SinkDiffers(h: Headers, raw: string)
    requires |raw| <= MAX_STRING && !SteadySink(h, FIRST, raw)
    ensures !SinkSplitsAgree(h, raw)
  {
    hide Find, ChunkedBlock, Drain, Steady, FeedAll;
    assert FIRST.head + raw == raw;
    FindSpec(raw, BLANK);
    var he := Find(raw, BLANK).value;
    var body := raw[he + 4..];
    assert START.buf + body == body;
    SinkFeed(h, raw, he);
    if !Drain(body).1.hung {
      var m := SplitsDiffer(body);
      SinkPair(h, raw, he, m);
    } else {
      DrainNone();
    }
  }

  lemma DrainNone()
    ensures !Drain("").1.hung
  {
  }

  // A chunked response in one feed, and cut inside its body.
  lemma SinkFeed(h: Headers, raw: string, he: nat)
    requires Find(raw, BLANK) == Some(he) && he + 4 <= |raw| && ChunkedBlock(h, raw[..he + 4])
    ensures var (cs, d) := Drain(raw[he + 4..]);
            FeedSink(h, FIRST, raw) == (cs, Sink("", true, true, d))
  {
    hide Find, ChunkedBlock, Drain, RoundOf;
    assert FIRST.head + raw == raw;
    var body := raw[he + 4..];
    assert START.buf + body == body;
    if body == "" {
      StartIdle();
      WaitSteady("");
    }
  }

  lemma SinkPair(h: Headers, raw: string, he: nat, m: nat)
    requires Find(raw, BLANK) == Some(he) && he + 4 <= |raw| && ChunkedBlock(h, raw[..he + 4])
    requires 0 < m < |raw| - (he + 4)
    requires var body := raw[he + 4..]; FeedAll(START, [body[..m], body[m..]]).0 != Drain(body).0
    ensures !SinkSplitsAgree(h, raw)
  {
    hide Find, ChunkedBlock, Drain, RoundOf, FeedStep, FeedSink;
    var k := he + 4 + m;
    var x, y, body := raw[..k], raw[k..], raw[he + 4..];
    assert x[..he + 4] == raw[..he + 4] && x[he + 4..] == body[..m] && y == body[m..] && x + y == raw;
    TakeFind(raw, BLANK, k, he);
    SinkFeed(h, raw, he);
    SinkFeed(h, x, he);
    FeedPair(body[..m], body[m..]);
    var (cs, d) := Drain(body[..m]);
    var s1 := Sink("", true, true, d);
    SinkMore(h, s1, y);
    SinkPieces(h, x, y);
    PairConcat(x, y);
    assert Concat([x, y]) == raw;
  }

  lemma SinkMore(h: Headers, s: Sink, y: string)
    requires s.headersDone && s.isChunked && y != ""
    ensures FeedSink(h, s, y).0 == FeedStep(s.dec, y).0
    ensures FeedSink(h, s, y).1.headersDone && FeedSink(h, s, y).1.isChunked
  {
    hide FeedStep;
  }

  lemma SinkPieces(h: Headers, x: string, y: string)
    ensures var r := FeedSink(h, FIRST, x);
            FeedSinkAll(h, FIRST, [x, y]) == (r.0 + FeedSink(h, r.1, y).0, FeedSink(h, r.1, y).1)
  {
    hide FeedSink;
    assert [x, y][1..] == [y] && [y][1..] == [];
    var r := FeedSink(h, FIRST, x);
    var q := FeedSink(h, r.1, y);
    assert FeedSinkAll(h, r.1, [y]) == q by {
      assert q.0 + [] == q.0;
    }
  }

  // ---------- sink and batch ----------

  // No body: the call never returns.
  datatype Response = Malformed | Response(lines: seq<string>, body: Option<string>)

  // `parse_response` before decompression and conversion.
  ghost function ParseResponse(h: Headers, raw: string): Response {
    match Find(raw, CRLF)
    case None => Malformed
    case Some(k) =>
      FindSpec(raw, CRLF);
      if !h.valid(raw[..k]) then Malformed
      else
        var (lines, body) := HeaderLines(raw[k + 2..]);
        Response([raw[..k]] + lines, if h.chunked(lines) then Batch(body) else Some(body))
  }

  // Behind a line break, the lines end at the first blank line, and do not depend on what
  // follows it.
  lemma {:induction false} LinesEnd(s: string, q: nat)
    requires Find(CRLF + s, BLANK) == Some(q)
    ensures q + 2 <= |s| && HeaderLines(s) == (HeaderLines(s[..q + 2]).0, s[q + 2..])
    decreases |s|
  {
    hide Find, HeaderLines, At;
    FirstBreak(s, q);
    var k := Find(s, CRLF).value;
    TakeFind(s, CRLF, q + 2, k);
    LinesStep(s, k);
    LinesStep(s[..q + 2], k);
    if k > 0 {
      NextLine(s, q, k);
      LinesEnd(s[k + 2..], q - (k + 2));
      LineSlices(s, q, k);
    } else {
      assert s[..q + 2][..0] == "";
    }
  }

  lemma LinesStep(s: string, k: nat)
    requires Find(s, CRLF) == Some(k)
    ensures k + 2 <= |s|
    ensures k == 0 ==> HeaderLines(s) == ([], s[2..])
    ensures k > 0 ==> HeaderLines(s) == ([s[..k]] + HeaderLines(s[k + 2..]).0, HeaderLines(s[k + 2..]).1)
  {
    hide Find;
    FindSpec(s, CRLF);
  }

  // The blank line as seen behind the next line.
  lemma NextLine(s: string, q: nat, k: nat)
    requires Find(CRLF + s, BLANK) == Some(q) && Find(s, CRLF) == Some(k) && k + 2 <= q && q + 2 <= |s|
    ensures Find(CRLF + s[k + 2..], BLANK) == Some(q - (k + 2))
  {
    hide Find, At;
    var u := CRLF + s;
    FindSpec(s, CRLF);
    Shift(s, CRLF, k);
    SplitBreak(u, k + 2);
    Behind(s, k);
    FindDrop(u, BLANK, k + 2);
  }

  lemma Behind(s: string, k: nat)
    requires k + 2 <= |s|
    ensures (CRLF + s)[k + 2 + 2..] == s[k + 2..]
  {
  }

  lemma LineSlices(s: string, q: nat, k: nat)
    requires k + 2 <= q && q + 2 <= |s|
    ensures s[..q + 2][k + 2..] == s[k + 2..][..q - (k + 2) + 2]
    ensures s[k + 2..][q - (k + 2) + 2..] == s[q + 2..]
    ensures s[..q + 2][..k] == s[..k]
  {
  }

  // A blank line is two line breaks.
  lemma BlankBreaks(u: string, i: nat)
    ensures At(u, BLANK, i) <==> At(u, CRLF, i) && At(u, CRLF, i + 2)
  {
    if At(u, BLANK, i) {
      assert u[i..i + 2] == u[i..i + 4][..2] && u[i + 2..i + 4] == u[i..i + 4][2..];
    }
    if At(u, CRLF, i) && At(u, CRLF, i + 2) {
      assert u[i..i + 4] == u[i..i + 2] + u[i + 2..i + 4];
    }
  }

  lemma Shift(s: string, pat: string, i: nat)
    ensures At(CRLF + s, pat, i + 2) <==> At(s, pat, i)
  {
    if i + |pat| <= |s| {
      assert (CRLF + s)[i + 2..i + 2 + |pat|] == s[i..i + |pat|];
    }
  }

  // The first line break of the fields: at the start if the blank line is there, else at
  // least one line before it.
  lemma FirstBreak(s: string, q: nat)
    requires Find(CRLF + s, BLANK) == Some(q)
    ensures q + 2 <= |s|
    ensures var f := Find(s, CRLF); f.Some? && (f.value == 0 <==> q == 0) && (q > 0 ==> f.value + 2 <= q)
  {
    hide Find, At;
    var u := CRLF + s;
    FindSpec(u, BLANK);
    FindSpec(s, CRLF);
    BlankBreaks(u, q);
    Shift(s, CRLF, q);
    AtFits(s, CRLF, q);
    assert At(s, CRLF, q);
    if q > 0 {
      NotOne(s, q);
      Shift(s, CRLF, q - 2);
      assert At(s, CRLF, q - 2);
      Shift(s, CRLF, 0);
      StartsWithBreak(s);
      BlankBreaks(u, 0);
      assert !At(u, BLANK, 0);
    }
  }

  lemma StartsWithBreak(s: string)
    ensures At(CRLF + s, CRLF, 0)
  {
    assert (CRLF + s)[0..2] == CRLF;
  }

  lemma NotOne(s: string, q: nat)
    requires At(CRLF + s, CRLF, q)
    ensures q != 1
  {
    var u := CRLF + s;
    assert u[q] == u[q..q + 2][0];
  }

  // The header block of a response: its first line, and the rest as `parse_response` reads it.
  lemma BlockOf(raw: string, k: nat, he: nat)
    requires Find(raw, BLANK) == Some(he) && Find(raw, CRLF) == Some(k)
    requires k <= he && k + 2 <= |raw| && he + 4 <= |raw|
    ensures HeaderLines(raw[k + 2..]).1 == raw[he + 4..]
    ensures Block(raw[..he + 4]) == [raw[..k]] + HeaderLines(raw[k + 2..]).0
  {
    hide Find, HeaderLines, At, Block;
    FieldsEnd(raw, k, he);
    FindInBlock(raw, k, he);
    BlockHead(raw, k, he);
    var s := raw[k + 2..];
    assert HeaderLines(s).1 == s[he - k + 2..];
    BlockSlices(raw, k, he);
  }

  lemma FindInBlock(raw: string, k: nat, he: nat)
    requires Find(raw, CRLF) == Some(k) && k <= he && he + 4 <= |raw|
    ensures Find(raw[..he + 4], CRLF) == Some(k)
  {
    hide Find;
    FirstFits(raw, k, he);
    TakeFind(raw, CRLF, he + 4, k);
  }

  lemma BlockHead(raw: string, k: nat, he: nat)
    requires k <= he && he + 4 <= |raw| && Find(raw[..he + 4], CRLF) == Some(k)
    ensures Block(raw[..he + 4]) == [raw[..k]] + HeaderLines(raw[k + 2..][..he - k + 2]).0
  {
    hide Find, HeaderLines, Block;
    BlockIs(raw[..he + 4], k);
    BlockSlices(raw, k, he);
  }

  // The fields behind the first line.
  lemma FieldsEnd(raw: string, k: nat, he: nat)
    requires Find(raw, BLANK) == Some(he) && Find(raw, CRLF) == Some(k) && k <= he && k + 2 <= |raw| && he + 4 <= |raw|
    ensures var s := raw[k + 2..];
            he - k + 2 <= |s| && HeaderLines(s) == (HeaderLines(s[..he - k + 2]).0, s[he - k + 2..])
  {
    hide Find, HeaderLines, At;
    FindSpec(raw, CRLF);
    SplitBreak(raw, k);
    FindDrop(raw, BLANK, k);
    LinesEnd(raw[k + 2..], he - k);
  }

  lemma FirstFits(raw: string, k: nat, he: nat)
    requires Find(raw, CRLF) == Some(k) && k <= he
    ensures k + 2 <= he + 4
  {
  }

  lemma BlockIs(head: string, k: nat)
    requires Find(head, CRLF) == Some(k)
    ensures k + 2 <= |head| && Block(head) == [head[..k]] + HeaderLines(head[k + 2..]).0
  {
    hide Find, HeaderLines;
    FindSpec(head, CRLF);
  }

  lemma FirstLine(raw: string, he: nat)
    requires Find(raw, BLANK) == Some(he)
    ensures he + 4 <= |raw|
    ensures var f := Find(raw, CRLF); f.Some? && f.value <= he && f.value + 2 <= |raw|
  {
    hide Find, At;
    FindSpec(raw, BLANK);
    FindSpec(raw, CRLF);
    BlankBreaks(raw, he);
    AtFits(raw, BLANK, he);
    AtFits(raw, CRLF, Find(raw, CRLF).value);
  }

  lemma SplitBreak(raw: string, k: nat)
    requires At(raw, CRLF, k)
    ensures CRLF + raw[k + 2..] == raw[k..]
  {
    assert raw[k..] == raw[k..k + 2] + raw[k + 2..];
  }

  lemma BlockSlices(raw: string, k: nat, he: nat)
    requires k <= he && he + 4 <= |raw|
    ensures var s := raw[k + 2..];
            && raw[..he + 4][k + 2..] == s[..he - k + 2]
            && raw[..he + 4][..k] == raw[..k]
            && s[he - k + 2..] == raw[he + 4..]
  {
  }

  // A response whose status line is accepted, in whatever pieces it came. A plain body is the
  // one `parse_response` gives. So is a chunked one, with the part of an incomplete last chunk,
  // if and only if the batch loop is not sent back, or finds nothing there.
  lemma SinkIsBatch(h: Headers, pieces: seq<string>)
    requires |Concat(pieces)| <= MAX_STRING && SteadySink(h, FIRST, Concat(pieces))
    requires Find(Concat(pieces), BLANK).Some?
    requires var raw := Concat(pieces);
             var k := Find(raw, CRLF);
             k.Some? && k.value <= |raw| && h.valid(raw[..k.value])
    ensures var (cs, s) := FeedSinkAll(h, FIRST, pieces);
            var raw := Concat(pieces);
            var r := ParseResponse(h, raw);
            var at := Find(raw, BLANK).value + 4;
            && s.headersDone && r.Response? && r.lines != [] && at <= |raw|
            && s.isChunked == h.chunked(r.lines[1..])
            && (!s.isChunked ==> r.body == Some(Concat(cs)))
            && (s.isChunked ==> (r.body == Some(Whole((cs, s.dec))) <==> Forward(raw[at..])))
  {
    hide Find, FeedSinkAll, Whole, Fresh, Forward, SteadySink, ParseResponse, ChunkedBlock, Idle;
    var raw := Concat(pieces);
    StartFresh();
    SinkSplitIndependent(h, FIRST, pieces);
    assert FIRST.head + raw == raw;
    var he := Find(raw, BLANK).value;
    FirstLine(raw, he);
    ParsedAs(h, raw, Find(raw, CRLF).value, he);
    var body := raw[he + 4..];
    var s1 := FIRST.(headersDone := true, isChunked := ChunkedBlock(h, raw[..he + 4]));
    assert FeedSink(h, FIRST, raw) == EmitStep(s1, body);
    SinkEnds(h, raw);
    EmitBody(s1, body);
    WholeSame(FeedSinkAll(h, FIRST, pieces), EmitStep(s1, body));
  }

  lemma ParsedAs(h: Headers, raw: string, k: nat, he: nat)
    requires Find(raw, BLANK) == Some(he) && Find(raw, CRLF) == Some(k)
    requires k <= he && k + 2 <= |raw| && he + 4 <= |raw| && h.valid(raw[..k])
    ensures var r := ParseResponse(h, raw);
            var body := raw[he + 4..];
            && r.Response? && r.lines != [] && ChunkedBlock(h, raw[..he + 4]) == h.chunked(r.lines[1..])
            && r.body == (if h.chunked(r.lines[1..]) then Batch(body) else Some(body))
  {
    hide Find, HeaderLines, Block, Batch;
    BlockOf(raw, k, he);
    var lines := HeaderLines(raw[k + 2..]).0;
    assert ([raw[..k]] + lines)[1..] == lines;
  }

  // The batch loop is not sent back on this body, or finds nothing there.
  ghost predicate Forward(body: string) {
    Back(body, 0).None? || Yields(body, Back(body, 0).value, "")
  }

  lemma WholeSame(a: (seq<string>, Sink), b: (seq<string>, Sink))
    requires Same(a, b)
    ensures Whole((a.0, a.1.dec)) == Whole((b.0, b.1.dec))
  {
    hide Concat, Partial;
  }

  lemma EmitBody(s: Sink, body: string)
    requires s.headersDone && s.dec == START && |body| <= MAX_STRING
    ensures var (cs, s1) := EmitStep(s, body);
            && s1.isChunked == s.isChunked && s1.headersDone
            && (s.isChunked && !s1.dec.hung ==> (Batch(body) == Some(Whole((cs, s1.dec))) <==> Forward(body)))
            && (!s.isChunked ==> body == Concat(cs))
  {
    hide RoundOf, Drain, Whole, Batch, Back;
    assert START.buf + body == body;
    assert body + "" == body;
    if s.isChunked {
      BatchExact(body);
      if body == "" {
        StartIdle();
        WaitSteady("");
      }
    } else {
      assert Concat([body]) == body;
    }
  }
}
