/** Whole responses: what the client makes of a message composed of its lines and its body. */
module HttpResponses {
  import opened Options
  import opened Strings
  import opened ChunkedBodies
  import opened HexSizes
  import opened ChunkedGrammar
  import opened HttpClient

  // A status or field line.
  predicate IsLine(l: string) {
    l != "" && Find(l, "\r\n").None?
  }

  ghost predicate AreLines(lines: seq<string>) {
    forall i :: 0 <= i < |lines| ==> IsLine(lines[i])
  }

  function LinesText(lines: seq<string>): string {
    if lines == [] then "" else lines[0] + "\r\n" + LinesText(lines[1..])
  }

  // A message: its lines, the blank line, its body.
  function Message(lines: seq<string>, body: string): string {
    LinesText(lines) + "\r\n" + body
  }

  lemma MessageCons(lines: seq<string>, body: string)
    requires lines != []
    ensures Message(lines, body) == lines[0] + CRLF + Message(lines[1..], body)
  {
  }

  lemma MessageNone(body: string)
    ensures Message([], body) == CRLF + body && (CRLF + body)[2..] == body && Find(CRLF + body, CRLF) == Some(0)
  {
  }

  lemma LineFirst(l: string, t: string)
    requires IsLine(l)
    ensures Find(l + CRLF + t, CRLF) == Some(|l|) && (l + CRLF + t)[..|l|] == l && (l + CRLF + t)[|l| + 2..] == t
  {
    hide Find;
    var s := l + CRLF + t;
    FindSpec(l, CRLF);
    forall j: nat | j < |l|
      ensures !At(s, CRLF, j)
    {
      assert !At(l, CRLF, j);
      if j + 2 <= |l| {
        assert s[j..j + 2] == l[j..j + 2];
      } else {
        assert s[j..j + 2][1] == s[j + 1] == '\r';
      }
    }
    assert s[|l|..|l| + 2] == CRLF;
    FindIs(s, CRLF, |l|);
  }

  // The lines are read as they were written, and so is where the body begins.
  lemma {:induction false} HeaderLinesRead(lines: seq<string>, body: string)
    requires AreLines(lines)
    ensures HeaderLines(Message(lines, body)) == (lines, body)
    decreases |lines|
  {
    hide Find, Message, HeaderLines;
    var s := Message(lines, body);
    if lines == [] {
      MessageNone(body);
      assert s == CRLF + body;
      LinesStep(s, 0);
    } else {
      var l := lines[0];
      assert IsLine(l);
      MessageCons(lines, body);
      LineFirst(l, Message(lines[1..], body));
      LinesStep(s, |l|);
      HeaderLinesRead(lines[1..], body);
      assert lines == [l] + lines[1..];
    }
  }

  // Whatever the text, its lines and body are parts of it: joined they give it back, up to
  // the blank line that may be missing.
  lemma {:induction false} HeaderLinesJoin(s: string)
    ensures var (lines, body) := HeaderLines(s);
            && AreLines(lines)
            && (s == Message(lines, body) || (s == LinesText(lines) + body && Find(body, "\r\n").None?))
    decreases |s|
  {
    hide Find, HeaderLines;
    FindSpec(s, CRLF);
    var f := Find(s, CRLF);
    if f.None? {
      NoLines(s);
    } else {
      var k := f.value;
      LinesStep(s, k);
      assert s == s[..k] + CRLF + s[k + 2..];
      if k > 0 {
        HeaderLinesJoin(s[k + 2..]);
        var (lines, body) := HeaderLines(s[k + 2..]);
        FrontLine(s, k);
        LinesCons(s[..k], lines, body);
      } else {
        assert s == Message([], s[2..]);
      }
    }
  }

  lemma NoLines(s: string)
    requires Find(s, CRLF).None?
    ensures HeaderLines(s) == ([], s) && s == LinesText([]) + s
  {
    hide Find;
  }

  lemma FrontLine(s: string, k: nat)
    requires Find(s, CRLF) == Some(k) && 0 < k <= |s|
    ensures IsLine(s[..k])
  {
    hide Find;
    FindSpec(s, CRLF);
    FindSpec(s[..k], CRLF);
    forall j: nat | j + 2 <= k
      ensures !At(s[..k], CRLF, j)
    {
      assert !At(s, CRLF, j);
      assert s[..k][j..j + 2] == s[j..j + 2];
    }
  }

  lemma LinesCons(l: string, lines: seq<string>, body: string)
    requires IsLine(l) && AreLines(lines)
    ensures AreLines([l] + lines)
    ensures l + CRLF + Message(lines, body) == Message([l] + lines, body)
    ensures l + CRLF + (LinesText(lines) + body) == LinesText([l] + lines) + body
  {
    hide IsLine;
    assert ([l] + lines)[1..] == lines;
  }

  // The blank line is the first one.
  lemma {:induction false} BlankFound(lines: seq<string>, body: string)
    requires AreLines(lines) && lines != []
    ensures |LinesText(lines)| >= 2
    ensures Find(Message(lines, body), BLANK) == Some(|LinesText(lines)| - 2)
    decreases |lines|
  {
    hide Find, At, Message;
    var l, rest := lines[0], Message(lines[1..], body);
    var u := l + CRLF + rest;
    assert IsLine(l);
    MessageCons(lines, body);
    LineFirst(l, rest);
    FindSpec(u, CRLF);
    var q: nat := |LinesText(lines)| - 2;
    if |lines| == 1 {
      MessageNone(body);
      assert q == |l|;
    } else {
      BlankFound(lines[1..], body);
      assert q == |l| + 2 + (|LinesText(lines[1..])| - 2);
      assert IsLine(lines[1]);
      MessageCons(lines[1..], body);
      LineFirst(lines[1], Message(lines[1..][1..], body));
    }
    FindSpec(rest, CRLF);
    FindSpec(rest, BLANK);
    BreakHere(l, rest);
    forall j: nat | j < q
      ensures !At(u, BLANK, j)
    {
      BlankBreaks(u, j);
      if j >= |l| + 2 {
        Later(l, rest, BLANK, j - (|l| + 2));
      }
    }
    BlankBreaks(u, q);
    if |lines| > 1 {
      Later(l, rest, BLANK, q - (|l| + 2));
    }
    FindIs(u, BLANK, q);
  }

  lemma BreakHere(l: string, rest: string)
    ensures var u := l + CRLF + rest;
            && At(u, CRLF, |l|) && !At(u, CRLF, |l| + 1)
            && (At(u, CRLF, |l| + 2) <==> At(rest, CRLF, 0))
  {
    var u := l + CRLF + rest;
    assert u[|l|..|l| + 2] == CRLF;
    assert u[|l| + 1] == '\n';
    if |u| >= |l| + 3 {
      assert u[|l| + 1..|l| + 3][0] == '\n';
    }
    Later(l, rest, CRLF, 0);
  }

  lemma Later(l: string, rest: string, pat: string, j: nat)
    ensures At(l + CRLF + rest, pat, |l| + 2 + j) <==> At(rest, pat, j)
  {
    if j + |pat| <= |rest| {
      assert (l + CRLF + rest)[|l| + 2 + j..|l| + 2 + j + |pat|] == rest[j..j + |pat|];
    }
  }

  lemma FirstSlices(status: string, fields: seq<string>, body: string)
    requires IsLine(status) && AreLines(fields)
    ensures AreLines([status] + fields)
    ensures var raw := Message([status] + fields, body);
            && Find(raw, CRLF) == Some(|status|) && |status| + 2 <= |raw| && raw[..|status|] == status
            && raw[|status| + 2..] == Message(fields, body)
  {
    hide Find, Message, IsLine;
    var lines := [status] + fields;
    assert lines[1..] == fields;
    MessageCons(lines, body);
    LineFirst(status, Message(fields, body));
  }

  // What `parse_response` makes of a composed message.
  lemma Composed(h: Headers, status: string, fields: seq<string>, body: string)
    requires IsLine(status) && AreLines(fields) && h.valid(status)
    ensures ParseResponse(h, Message([status] + fields, body))
         == Response([status] + fields, if h.chunked(fields) then Batch(body) else Some(body))
  {
    hide Find, Message, HeaderLines, Batch, IsLine, AreLines;
    FirstSlices(status, fields, body);
    HeaderLinesRead(fields, body);
  }

  lemma SinkBegins(h: Headers, status: string, fields: seq<string>, body: string)
    requires IsLine(status) && AreLines(fields) && h.valid(status)
    ensures var raw := Message([status] + fields, body);
            var he := Find(raw, BLANK);
            && he.Some? && he.value + 4 <= |raw| && raw[he.value + 4..] == body
            && ChunkedBlock(h, raw[..he.value + 4]) == h.chunked(fields)
  {
    hide Find, Message, HeaderLines, IsLine, AreLines, Block;
    var lines := [status] + fields;
    var raw := Message(lines, body);
    FirstSlices(status, fields, body);
    BlankFound(lines, body);
    var he := Find(raw, BLANK).value;
    FirstLine(raw, he);
    BlockOf(raw, |status|, he);
    HeaderLinesRead(fields, body);
    assert ([status] + fields)[1..] == fields;
  }

  // A response in whatever pieces it came: a plain body reaches the callback, and the caller
  // of `parse_response`, whole and unchanged.
  lemma PlainDelivered(h: Headers, status: string, fields: seq<string>, body: string, pieces: seq<string>)
    requires IsLine(status) && AreLines(fields) && h.valid(status) && !h.chunked(fields)
    requires Concat(pieces) == Message([status] + fields, body) && |Concat(pieces)| <= MAX_STRING
    ensures Concat(FeedSinkAll(h, FIRST, pieces).0) == body
    ensures ParseResponse(h, Concat(pieces)) == Response([status] + fields, Some(body))
  {
    hide Find, Message, HeaderLines, IsLine, AreLines, ChunkedBlock, FeedSinkAll, ParseResponse, Whole, Forward;
    Composed(h, status, fields, body);
    SinkBegins(h, status, fields, body);
    FirstSlices(status, fields, body);
    assert FIRST.head + Concat(pieces) == Concat(pieces);
    SinkIsBatch(h, pieces);
    assert ([status] + fields)[1..] == fields;
  }

  // Of a chunked response the callback gets exactly the data of the pieces, one call each, in
  // order, and the caller of `parse_response` the payload.
  lemma ChunkedDelivered(h: Headers, status: string, fields: seq<string>, cs: seq<Piece>, last: Piece, t: string,
                         pieces: seq<string>)
    requires IsLine(status) && AreLines(fields) && h.valid(status) && h.chunked(fields) && ValidBody(cs, last)
    requires Concat(pieces) == Message([status] + fields, Encoded(cs, last) + t) && |Concat(pieces)| <= MAX_STRING
    ensures FeedSinkAll(h, FIRST, pieces).0 == Datas(cs)
    ensures FeedSinkAll(h, FIRST, pieces).1.dec.done
    ensures ParseResponse(h, Concat(pieces)) == Response([status] + fields, Some(Payload(cs)))
  {
    hide Find, Message, HeaderLines, IsLine, AreLines, ChunkedBlock, FeedSinkAll, ParseResponse, Drain, Steady, Encoded;
    hide Datas, Batch, Idle, AllFit, ValidBody, FeedAll;
    var body := Encoded(cs, last) + t;
    var raw := Concat(pieces);
    Composed(h, status, fields, body);
    SinkBegins(h, status, fields, body);
    assert FIRST.head + raw == raw && START.buf + body == body;
    OnePiece(body);
    BodyDelivered(cs, last, t, [body]);
    DrainEncoded(cs, last, t);
    AllFitSteady(body);
    StartFresh();
    SinkFeed(h, raw, Find(raw, BLANK).value);
    SinkSplitIndependent(h, FIRST, pieces);
  }
}
