/** The HTTP server's reading of a request body, as bytes arrive in pieces. */
module HttpServer {
  import opened Options
  import opened Strings
  import opened ChunkedBodies
  import opened HexSizes
  import opened ChunkedGrammar

  // One `recv`: some bytes, and whether the deadline or rate check then fails.
  datatype Recv = Recv(data: string, slow: bool)

  datatype Status = Accepted | BadRequest | TooLarge | Timeout

  function Received(input: seq<Recv>): string {
    if input == [] then "" else input[0].data + Received(input[1..])
  }

  lemma {:induction false} ReceivedSplit(input: seq<Recv>, i: nat)
    requires i < |input|
    ensures Received(input[..i + 1]) == Received(input[..i]) + input[i].data
    ensures Received(input) == Received(input[..i]) + input[i].data + Received(input[i + 1..])
    decreases i
  {
    var t := input[1..];
    if i > 0 {
      assert input[..i + 1][1..] == t[..i] && input[..i][1..] == t[..i - 1];
      assert t[i - 1] == input[i] && t[i..] == input[i + 1..];
      ReceivedSplit(t, i - 1);
    } else {
      assert input[..1][1..] == [] && input[..0] == [];
    }
  }

  // ---------- what a chunked body is ----------

  // The strict size line: hexadecimal digits only, before an extension.
  function StrictSize(line: string): Option<nat> {
    var digits := Plain(line);
    if digits == "" || !AllHex(digits) || Digits(digits, 0) >= WORD then None else Some(Digits(digits, 0))
  }

  datatype Parsed = Parsed(body: string, rest: string)

  // The size line at the start: how long it is, and the size it gives.
  function Line(s: string): (r: Option<(nat, nat)>)
    ensures r.Some? ==> r.value.0 + 2 <= |s|
  {
    match Find(s, CRLF)
    case None => None
    case Some(k) =>
      FindSpec(s, CRLF);
      match StrictSize(s[..k])
      case None => None
      case Some(sz) => Some((k, sz))
  }

  // The chunked decoding of section 4.1 of RFC 7230, of a complete message: the body, and
  // what follows the last chunk's line.
  function Parse(s: string): Option<Parsed>
    decreases |s|
  {
    match Line(s)
    case None => None
    case Some((k, sz)) =>
      if sz == 0 then Some(Parsed("", s[k + 2..]))
      else if !At(s, CRLF, k + 2 + sz) then None
      else match Parse(s[k + 2 + sz + 2..])
        case None => None
        case Some(p) => Some(Parsed(s[k + 2..k + 2 + sz] + p.body, p.rest))
  }

  // Every size line up to the last has at most 63 bytes.
  predicate ShortLines(s: string)
    decreases |s|
  {
    && (Find(s, CRLF).Some? ==> Find(s, CRLF).value <= 63)
    && (match Line(s)
        case None => true
        case Some((k, sz)) => sz == 0 || !At(s, CRLF, k + 2 + sz) || ShortLines(s[k + 2 + sz + 2..]))
  }

  // Reading on does not change what has been parsed.
  lemma LineExtends(s: string, t: string)
    requires Find(s, CRLF).Some?
    ensures Line(s + t) == Line(s)
  {
    hide Find, StrictSize;
    FindSpec(s, CRLF);
    FindExtends(s, t, CRLF);
    var k := Find(s, CRLF).value;
    assert (s + t)[..k] == s[..k];
  }

  lemma LineFound(s: string)
    requires Line(s).Some?
    ensures Find(s, CRLF) == Some(Line(s).value.0) && Line(s).value.0 <= |s|
    ensures StrictSize(s[..Line(s).value.0]) == Some(Line(s).value.1)
  {
  }

  lemma AtExtends(s: string, t: string, i: nat)
    requires i + 2 <= |s|
    ensures At(s + t, CRLF, i) <==> At(s, CRLF, i)
    ensures (s + t)[i + 2..] == s[i + 2..] + t
  {
    assert (s + t)[i..i + 2] == s[i..i + 2];
  }

  lemma {:induction false} ParseExtends(s: string, t: string)
    requires Parse(s).Some?
    ensures Parse(s + t) == Some(Parsed(Parse(s).value.body, Parse(s).value.rest + t))
    decreases |s|
  {
    hide Find, Line, At, Parse;
    ParsedLine(s);
    LineFound(s);
    LineExtends(s, t);
    var (k, sz) := Line(s).value;
    if sz == 0 {
      LastParse(s, k);
      LastParse(s + t, k);
      assert (s + t)[k + 2..] == s[k + 2..] + t;
    } else {
      var n := k + 2 + sz;
      ChunkParse(s, k, sz);
      ChunkParse(s + t, k, sz);
      AtExtends(s, t, n);
      assert (s + t)[k + 2..n] == s[k + 2..n];
      ParseExtends(s[n + 2..], t);
    }
  }

  // A strict size line is exactly a numeral, of either case and with any zeros in front, that
  // ends the line or stands before its first semicolon.
  lemma StrictExact(line: string, k: nat, n: nat)
    requires k <= |line| && (forall i :: 0 <= i < k ==> line[i] != ';') && (k == |line| || line[k] == ';')
    ensures StrictSize(line) == Some(n) <==> Means(line[..k], n) && n < 0x1_0000_0000_0000_0000
  {
    hide Means, Digits, AllHex, Find, Plain;
    PlainIs(line, k);
    MeansExact(line[..k], n);
  }

  lemma PlainIs(line: string, k: nat)
    requires k <= |line| && (forall i :: 0 <= i < k ==> line[i] != ';') && (k == |line| || line[k] == ';')
    ensures Plain(line) == line[..k]
  {
    hide Find;
    forall j: nat | j < k
      ensures !At(line, ";", j)
    {
      assert line[j..j + 1][0] == line[j];
    }
    if k < |line| {
      assert line[k..k + 1] == ";";
      FindIs(line, ";", k);
    } else {
      FindSpec(line, ";");
    }
  }

  // ---------- the grammar ----------

  // The line of a chunk is found, and read, as it was written.
  lemma LineRead(digits: string, ext: string, t: string)
    requires digits != "" && AllHex(digits) && ValidExt(ext)
    ensures Find(digits + ext + CRLF + t, CRLF) == Some(|digits + ext|)
    ensures Digits(digits, 0) < WORD ==> Line(digits + ext + CRLF + t) == Some((|digits + ext|, Digits(digits, 0)))
  {
    hide Find;
    var line := digits + ext;
    var s := line + CRLF + t;
    LineEnds(digits, ext, t);
    PlainDigits(digits, ext);
    assert s[..|line|] == line;
  }

  // The decoding accepts what the grammar generates, and yields its payload.
  lemma {:induction false} ParseEncoded(cs: seq<Piece>, last: Piece, t: string)
    requires ValidBody(cs, last)
    ensures Parse(Encoded(cs, last) + t) == Some(Parsed(Payload(cs), t))
    decreases |cs|
  {
    hide Find, AllHex, Digits, Plain, Line, At, ValidExt, StrictSize, Means;
    var s := Encoded(cs, last) + t;
    if cs == [] {
      MeansExact(last.digits, 0);
      LineRead(last.digits, last.ext, t);
      LastSlices(last.digits + last.ext, t);
    } else {
      var c := cs[0];
      var rest := Encoded(cs[1..], last) + t;
      EncodedCons(cs, last, t);
      MeansExact(c.digits, |c.data|);
      LineRead(c.digits, c.ext, c.data + CRLF + rest);
      ParseEncoded(cs[1..], last, t);
      ChunkSlices(c.digits + c.ext, c.data, rest);
    }
  }

  // And only that: whatever it accepts is generated by the grammar.
  lemma {:induction false} ParseGrammar(s: string) returns (cs: seq<Piece>, last: Piece)
    requires Parse(s).Some?
    ensures ValidBody(cs, last)
    ensures s == Encoded(cs, last) + Parse(s).value.rest && Parse(s).value.body == Payload(cs)
    decreases |s|
  {
    hide Find, Digits, Plain, ValidPiece, Line, At;
    var (k, sz) := Line(s).value;
    var digits, ext := SplitLine(s);
    if sz == 0 {
      cs, last := [], Piece(digits, ext, "");
      ValidIs(last);
    } else {
      var n := k + 2 + sz;
      AtFits(s, CRLF, n);
      var c := Piece(digits, ext, s[k + 2..n]);
      ValidIs(c);
      var rest, l := ParseGrammar(s[n + 2..]);
      cs, last := [c] + rest, l;
      Slices(s, k, n);
      assert cs[1..] == rest;
    }
  }

  lemma Slices(s: string, k: nat, n: nat)
    requires k + 2 <= n && n + 2 <= |s| && s[k..k + 2] == CRLF && At(s, CRLF, n)
    ensures s == s[..k] + CRLF + s[k + 2..n] + CRLF + s[n + 2..]
  {
  }

  lemma ValidIs(c: Piece)
    requires c.digits != "" && AllHex(c.digits) && Digits(c.digits, 0) == |c.data| < WORD && ValidExt(c.ext)
    ensures ValidPiece(c)
  {
    hide Means, Digits, AllHex;
    MeansExact(c.digits, |c.data|);
  }

  lemma SplitLine(s: string) returns (digits: string, ext: string)
    requires Line(s).Some?
    ensures var (k, sz) := Line(s).value;
            && s[..k] == digits + ext && s[k..k + 2] == CRLF && digits != "" && AllHex(digits) && ValidExt(ext)
            && sz == Digits(digits, 0) < WORD
  {
    hide Find;
    var k := Line(s).value.0;
    var line := s[..k];
    FindSpec(s, CRLF);
    FindSpec(line, ";");
    digits := Plain(line);
    ext := line[|digits|..];
    assert line == digits + ext;
    if ext != "" {
      assert line[|digits|..|digits| + 1][0] == line[|digits|] == ext[0];
    }
    ExtValid(s, k, |digits|);
  }

  // An extension cut out before the first line break holds none.
  lemma ExtValid(s: string, k: nat, d: nat)
    requires Find(s, CRLF) == Some(k) && d <= k <= |s|
    ensures Find(s[..k][d..], CRLF).None?
  {
    hide Find;
    var ext := s[..k][d..];
    FindSpec(s, CRLF);
    FindSpec(ext, CRLF);
    forall j | 0 <= j && j + 2 <= |ext|
      ensures !At(ext, CRLF, j)
    {
      assert !At(s, CRLF, d + j);
      Inner(s, d, k, j);
    }
  }

  lemma Inner(s: string, d: nat, k: nat, j: nat)
    requires d + j + 2 <= k <= |s|
    ensures s[..k][d..][j..j + 2] == s[d + j..d + j + 2]
  {
    var a, b := s[..k][d..][j..j + 2], s[d + j..d + j + 2];
    assert |a| == |b| && a[0] == b[0] && a[1] == b[1];
  }

  // ---------- reading a chunked body ----------

  const SLACK := 0x10_0000

  // No read fails, none is too slow.
  predicate Quick(input: seq<Recv>) {
    forall i :: 0 <= i < |input| ==> input[i].data != "" && !input[i].slow
  }

  // One more read: at the end of the input, or with nothing to read, the peer has gone.
  datatype Refill = Gone | Late | More(data: string)

  function NextRead(have: nat, input: seq<Recv>, limit: nat): (r: Refill)
    ensures r.More? ==> input != []
  {
    if input == [] || input[0].data == "" || have + |input[0].data| > limit then Gone
    else if input[0].slow then Late
    else More(input[0].data)
  }

  function Failed(r: Refill): Status {
    if r.Late? then Timeout else BadRequest
  }

  // What the bytes at hand ask for: to read on, to refuse, to end, or to take a chunk.
  datatype Todo = ReadOn | Refuse(status: Status) | Finish(at: nat) | TakeChunk(at: nat, sz: nat)

  function TodoOf(s: string, room: nat): (t: Todo)
    ensures t.Finish? ==> t.at <= |s|
    ensures t.TakeChunk? ==> t.at + t.sz + 2 <= |s| && 0 < t.sz <= room
  {
    match Find(s, CRLF)
    case None => if |s| > 64 then Refuse(BadRequest) else ReadOn
    case Some(k) =>
      FindSpec(s, CRLF);
      match StrictSize(s[..k])
      case None => Refuse(BadRequest)
      case Some(sz) =>
        if sz == 0 then Finish(k + 2)
        else if sz > room then Refuse(TooLarge)
        else if |s| < k + 2 + sz + 2 then ReadOn
        else TakeChunk(k + 2, sz)
  }

  // The reader's answer, with `s` at hand behind `used` decoded bytes, and the reads to come.
  function Answer(s: string, used: nat, out: string, input: seq<Recv>, cap: nat): (Status, string)
    requires |out| <= cap
    decreases |input|, |s|
  {
    match TodoOf(s, cap - |out|)
    case ReadOn =>
      var r := NextRead(used + |s|, input, cap + SLACK);
      if r.More? then Answer(s + r.data, used, out, input[1..], cap) else (Failed(r), out)
    case Refuse(status) => (status, out)
    case Finish(at) => (if InTime(s[at..], used + at, input, cap + SLACK) then Accepted else Timeout, out)
    case TakeChunk(at, sz) =>
      var taken := out + s[at..at + sz];
      if s[at + sz..at + sz + 2] != CRLF then (BadRequest, taken)
      else Answer(s[at + sz + 2..], used + at + sz + 2, taken, input, cap)
  }

  // Whether the trailer fields, up to the blank line or the end of the input, come in time.
  predicate InTime(s: string, used: nat, input: seq<Recv>, limit: nat)
    decreases |input|, |s|
  {
    match Find(s, CRLF)
    case None =>
      var r := NextRead(used + |s|, input, limit);
      if r.More? then InTime(s + r.data, used, input[1..], limit) else !r.Late?
    case Some(k) =>
      FindSpec(s, CRLF);
      k == 0 || InTime(s[k + 2..], used + k + 2, input, limit)
  }

  method ReadMore(stream: string, input: seq<Recv>, next: nat, limit: nat)
    returns (ok: bool, timedOut: bool, stream': string, next': nat)
    requires next <= |input|
    ensures var r := NextRead(|stream|, input[next..], limit);
            && ok == r.More? && timedOut == r.Late?
            && (ok ==> next < |input| && next' == next + 1 && stream' == stream + r.data)
            && (!ok ==> next' == next && stream' == stream)
  {
    ok, timedOut, stream', next' := false, false, stream, next;
    if next == |input| || input[next].data == "" || |stream| + |input[next].data| > limit {
      return;
    }
    timedOut := input[next].slow;
    if !timedOut {
      ok, stream', next' := true, stream + input[next].data, next + 1;
    }
  }

  lemma TodoIs(s: string, room: nat)
    ensures var t := TodoOf(s, room);
            var f := Find(s, CRLF);
            && (f.None? ==> t == if |s| > 64 then Refuse(BadRequest) else ReadOn)
            && (f.Some? ==> f.value + 2 <= |s|)
            && (f.Some? ==> var z := StrictSize(s[..f.value]);
                  && (z.None? ==> t == Refuse(BadRequest))
                  && (z.Some? && z.value == 0 ==> t == Finish(f.value + 2))
                  && (z.Some? && z.value > room ==> t == Refuse(TooLarge))
                  && (z.Some? && 0 < z.value <= room ==>
                        t == if |s| < f.value + 2 + z.value + 2 then ReadOn else TakeChunk(f.value + 2, z.value)))
  {
    hide Find, StrictSize;
    FindSpec(s, CRLF);
  }

  // One turn of the reader, in terms of its stream and its place there.
  lemma AnswerStep(stream: string, p: nat, out: string, input: seq<Recv>, next: nat, cap: nat)
    requires p <= |stream| && next <= |input| && |out| <= cap
    ensures var t := TodoOf(stream[p..], cap - |out|);
            var r := NextRead(|stream|, input[next..], cap + SLACK);
            var a := Answer(stream[p..], p, out, input[next..], cap);
            && (t.ReadOn? && r.More? ==>
                  next < |input| && a == Answer((stream + r.data)[p..], p, out, input[next + 1..], cap))
            && (t.ReadOn? && !r.More? ==> a == (if r.Late? then Timeout else BadRequest, out))
            && (t.Refuse? ==> a == (t.status, out))
  {
    hide TodoOf;
    var r := NextRead(|stream|, input[next..], cap + SLACK);
    if r.More? {
      assert input[next..][1..] == input[next + 1..];
      assert stream[p..] + r.data == (stream + r.data)[p..];
    }
  }

  lemma AnswerFinish(stream: string, p: nat, out: string, input: seq<Recv>, next: nat, cap: nat)
    requires p <= |stream| && next <= |input| && |out| <= cap && TodoOf(stream[p..], cap - |out|).Finish?
    ensures var q := p + TodoOf(stream[p..], cap - |out|).at;
            && q <= |stream|
            && Answer(stream[p..], p, out, input[next..], cap)
            == (if InTime(stream[q..], q, input[next..], cap + SLACK) then Accepted else Timeout, out)
  {
    hide TodoOf, InTime;
    var s := stream[p..];
    assert s[TodoOf(s, cap - |out|).at..] == stream[p + TodoOf(s, cap - |out|).at..];
  }

  lemma AnswerChunk(stream: string, p: nat, out: string, input: seq<Recv>, next: nat, cap: nat)
    requires p <= |stream| && next <= |input| && |out| <= cap && TodoOf(stream[p..], cap - |out|).TakeChunk?
    ensures var t := TodoOf(stream[p..], cap - |out|);
            var q, e := p + t.at, p + t.at + t.sz;
            && e + 2 <= |stream|
            && Answer(stream[p..], p, out, input[next..], cap)
            == if stream[e..e + 2] != CRLF then (BadRequest, out + stream[q..e])
               else Answer(stream[e + 2..], e + 2, out + stream[q..e], input[next..], cap)
  {
    hide TodoOf, InTime;
    var s := stream[p..];
    var t := TodoOf(s, cap - |out|);
    var n := t.at + t.sz;
    RestSlice(stream, p, t.at, n);
    RestSlice(stream, p, n, n + 2);
    RestSlice(stream, p, n + 2, |s|);
  }

  lemma RestSlice(s: string, p: nat, a: nat, b: nat)
    requires p <= |s| && a <= b <= |s| - p
    ensures s[p..][a..b] == s[p + a..p + b] && s[p..][a..] == s[p + a..]
  {
  }

  // A size line that is there stays as it is.
  lemma StillFound(s: string, t: string)
    requires Find(s, CRLF).Some?
    ensures Find(s + t, CRLF) == Find(s, CRLF)
    ensures Find(s, CRLF).value <= |s| && (s + t)[..Find(s, CRLF).value] == s[..Find(s, CRLF).value]
  {
    hide Find;
    FindSpec(s, CRLF);
    FindExtends(s, t, CRLF);
  }

  lemma StillThere(before: string, stream: string, p: nat)
    requires p <= |before| && before <= stream && Find(before[p..], CRLF).Some?
    ensures Find(stream[p..], CRLF) == Find(before[p..], CRLF)
    ensures var k := Find(before[p..], CRLF).value;
            k <= |before[p..]| && stream[p..][..k] == before[p..][..k]
  {
    hide Find;
    var t := stream[|before|..];
    assert stream[p..] == before[p..] + t;
    StillFound(before[p..], t);
  }

  // ---------- what the answer is ----------

  // What is accepted is the decoding of the stream, 413 is given only for a body over the
  // cap, and with every size line short and every read in time, being accepted depends only
  // on the stream.
  ghost predicate Sound(s: string, used: nat, out: string, input: seq<Recv>, cap: nat)
    requires |out| <= cap
  {
    var full := s + Received(input);
    var (status, o) := Answer(s, used, out, input, cap);
    var q := Parse(full);
    && (status.Accepted? ==> q.Some? && o == out + q.value.body && |o| <= cap)
    && (status.TooLarge? && q.Some? ==> |out| + |q.value.body| > cap)
    && (Quick(input) && ShortLines(full) && used + |full| <= cap + SLACK ==>
          (status.Accepted? <==> q.Some? && |out| + |q.value.body| <= cap))
  }

  lemma {:induction false} AnswerSound(s: string, used: nat, out: string, input: seq<Recv>, cap: nat)
    requires |out| <= cap
    ensures Sound(s, used, out, input, cap)
    decreases |input|, |s|
  {
    hide Parse, ShortLines, Find, StrictSize, Line, TodoOf, Sound, NextRead, At, Answer;
    var todo := TodoOf(s, cap - |out|);
    if todo.ReadOn? {
      var r := NextRead(used + |s|, input, cap + SLACK);
      if r.More? {
        AnswerSound(s + r.data, used, out, input[1..], cap);
        SoundMore(s, used, out, input, cap);
      } else {
        SoundGone(s, used, out, input, cap);
      }
    } else if todo.TakeChunk? {
      var n := todo.at + todo.sz;
      if s[n..n + 2] == CRLF {
        AnswerSound(s[n + 2..], used + n + 2, out + s[todo.at..n], input, cap);
      }
      SoundChunk(s, used, out, input, cap);
    } else if todo.Finish? {
      SoundFinish(s, used, out, input, cap);
    } else {
      SoundRefuse(s, used, out, input, cap);
    }
  }

  lemma SoundMore(s: string, used: nat, out: string, input: seq<Recv>, cap: nat)
    requires |out| <= cap && TodoOf(s, cap - |out|).ReadOn?
    requires var r := NextRead(used + |s|, input, cap + SLACK);
             r.More? && Sound(s + r.data, used, out, input[1..], cap)
    ensures Sound(s, used, out, input, cap)
  {
    hide Parse, ShortLines, TodoOf;
    var d := input[0].data;
    assert (s + d) + Received(input[1..]) == s + Received(input);
  }

  lemma SoundGone(s: string, used: nat, out: string, input: seq<Recv>, cap: nat)
    requires |out| <= cap && TodoOf(s, cap - |out|).ReadOn?
    requires !NextRead(used + |s|, input, cap + SLACK).More?
    ensures Sound(s, used, out, input, cap)
  {
    hide Parse, ShortLines, TodoOf, Find, StrictSize;
    var full := s + Received(input);
    if Quick(input) && used + |full| <= cap + SLACK {
      GoneEmpty(s, used, input, cap);
      TodoIs(s, cap - |out|);
      NothingParsed(s, cap - |out|);
    }
  }

  lemma GoneEmpty(s: string, used: nat, input: seq<Recv>, cap: nat)
    requires Quick(input) && used + |s + Received(input)| <= cap + SLACK
    requires !NextRead(used + |s|, input, cap + SLACK).More?
    ensures input == [] && s + Received(input) == s
  {
    if input == [] {
      assert s + "" == s;
    }
  }

  lemma NothingParsed(s: string, room: nat)
    requires TodoOf(s, room).ReadOn?
    ensures Parse(s).None?
  {
    hide Find, StrictSize, At;
    TodoIs(s, room);
    if Find(s, CRLF).Some? {
      LineIs(s, Find(s, CRLF).value);
      var (k, sz) := Line(s).value;
      AtFits(s, CRLF, k + 2 + sz);
    }
  }

  lemma LineIs(s: string, k: nat)
    requires Find(s, CRLF) == Some(k) && k <= |s|
    ensures Line(s) == match StrictSize(s[..k]) case None => None case Some(sz) => Some((k, sz))
  {
  }

  lemma SoundRefuse(s: string, used: nat, out: string, input: seq<Recv>, cap: nat)
    requires |out| <= cap && TodoOf(s, cap - |out|).Refuse?
    ensures Sound(s, used, out, input, cap)
  {
    hide Parse, ShortLines, TodoOf, Find, StrictSize, Line;
    var t := Received(input);
    TodoIs(s, cap - |out|);
    if Find(s, CRLF).None? {
      if ShortLines(s + t) {
        FarLine(s, t);
      }
    } else {
      LineIs(s, Find(s, CRLF).value);
      LineExtends(s, t);
      if Line(s).Some? {
        var (k, sz) := Line(s).value;
        ChunkParse(s + t, k, sz);
      } else {
        NoLine(s + t);
      }
    }
  }

  lemma SoundFinish(s: string, used: nat, out: string, input: seq<Recv>, cap: nat)
    requires |out| <= cap && TodoOf(s, cap - |out|).Finish?
    ensures Sound(s, used, out, input, cap)
  {
    hide ShortLines, TodoOf, Find, StrictSize, Line, InTime;
    var t := Received(input);
    TodoIs(s, cap - |out|);
    LineIs(s, Find(s, CRLF).value);
    LineExtends(s, t);
    assert out + "" == out;
    var at := TodoOf(s, cap - |out|).at;
    if Quick(input) {
      QuickInTime(s[at..], used + at, input, cap + SLACK);
    }
  }

  lemma {:induction false} QuickInTime(s: string, used: nat, input: seq<Recv>, limit: nat)
    requires Quick(input)
    ensures InTime(s, used, input, limit)
    decreases |input|, |s|
  {
    hide Find;
    FindSpec(s, CRLF);
    match Find(s, CRLF) {
      case None =>
        var r := NextRead(used + |s|, input, limit);
        if r.More? {
          QuickInTime(s + r.data, used, input[1..], limit);
        }
      case Some(k) =>
        if k > 0 {
          QuickInTime(s[k + 2..], used + k + 2, input, limit);
        }
    }
  }

  lemma SoundChunk(s: string, used: nat, out: string, input: seq<Recv>, cap: nat)
    requires |out| <= cap && TodoOf(s, cap - |out|).TakeChunk?
    requires var todo := TodoOf(s, cap - |out|);
             var n := todo.at + todo.sz;
             s[n..n + 2] == CRLF ==> Sound(s[n + 2..], used + n + 2, out + s[todo.at..n], input, cap)
    ensures Sound(s, used, out, input, cap)
  {
    hide Parse, ShortLines, TodoOf, Find, StrictSize, Line;
    var t := Received(input);
    var todo := TodoOf(s, cap - |out|);
    var n := todo.at + todo.sz;
    TodoIs(s, cap - |out|);
    LineIs(s, Find(s, CRLF).value);
    LineExtends(s, t);
    ChunkParse(s + t, todo.at - 2, todo.sz);
    AtExtends(s, t, n);
    assert (s + t)[todo.at..n] == s[todo.at..n];
    var q := Parse(s[n + 2..] + t);
    assert q.Some? ==> out + (s[todo.at..n] + q.value.body) == out + s[todo.at..n] + q.value.body;
  }

  lemma NoLine(s: string)
    requires Line(s).None?
    ensures Parse(s).None?
  {
  }

  lemma FarLine(s: string, t: string)
    requires Find(s, CRLF).None? && |s| > 64 && ShortLines(s + t)
    ensures Parse(s + t).None?
  {
    hide Find;
    FindSpec(s, CRLF);
    FindSpec(s + t, CRLF);
    forall j: nat | j <= 63
      ensures !At(s + t, CRLF, j)
    {
      assert (s + t)[j..j + 2] == s[j..j + 2];
      assert !At(s, CRLF, j);
    }
  }

  lemma ChunkParse(s: string, k: nat, sz: nat)
    requires Line(s) == Some((k, sz)) && sz > 0
    ensures var n := k + 2 + sz;
            && (!At(s, CRLF, n) ==> Parse(s).None?)
            && (At(s, CRLF, n) ==>
                  && n + 2 <= |s|
                  && (ShortLines(s) ==> ShortLines(s[n + 2..]))
                  && (var q := Parse(s[n + 2..]);
                      Parse(s) == if q.None? then None else Some(Parsed(s[k + 2..n] + q.value.body, q.value.rest))))
  {
    hide Find, Line, StrictSize, At;
    AtFits(s, CRLF, k + 2 + sz);
  }

  lemma AnswerIs(buf: string, input: seq<Recv>, cap: nat)
    ensures var full := buf + Received(input);
            var (status, out) := Answer(buf, 0, "", input, cap);
            && (status.Accepted? ==> Parse(full).Some? && out == Parse(full).value.body && |out| <= cap)
            && (status.TooLarge? && Parse(full).Some? ==> |Parse(full).value.body| > cap)
            && (Quick(input) && ShortLines(full) && |full| <= cap + SLACK ==>
                  (status.Accepted? <==> Parse(full).Some? && |Parse(full).value.body| <= cap))
  {
    hide Answer, Parse, ShortLines, Received;
    AnswerSound(buf, 0, "", input, cap);
    var q := Parse(buf + Received(input));
    assert q.Some? ==> "" + q.value.body == q.value.body;
  }

  // ---------- the reader ----------

  // The reader's loops compute that answer.
  method Decode(buf: string, input: seq<Recv>, cap: nat) returns (status: Status, out: string)
    ensures (status, out) == Answer(buf, 0, "", input, cap)
  {
    hide Answer, InTime, Find, StrictSize, NextRead, TodoOf;
    var limit := cap + SLACK;
    var stream, p: nat, next: nat := buf, 0, 0;
    var ok, timedOut;
    out := "";
    ghost var goal := Answer(buf, 0, "", input, cap);
    assert buf[0..] == buf && input[0..] == input;
    while true
      invariant |out| <= cap && p <= |stream| && next <= |input|
      invariant Answer(stream[p..], p, out, input[next..], cap) == goal
      decreases |input| - next, |stream| - p
    {
      ghost var next0, stream0 := next, stream;
      var nl := Find(stream[p..], CRLF);
      while nl.None?
        invariant next0 <= next && (next == next0 ==> stream == stream0)
        invariant p <= |stream| && next <= |input| && nl == Find(stream[p..], CRLF)
        invariant Answer(stream[p..], p, out, input[next..], cap) == goal
        decreases |input| - next
      {
        TodoIs(stream[p..], cap - |out|);
        AnswerStep(stream, p, out, input, next, cap);
        if |stream| - p > 64 {
          return BadRequest, out;
        }
        ok, timedOut, stream, next := ReadMore(stream, input, next, limit);
        if !ok {
          return if timedOut then Timeout else BadRequest, out;
        }
        nl := Find(stream[p..], CRLF);
      }
      ghost var p0: nat := p;
      TodoIs(stream[p..], cap - |out|);
      AnswerStep(stream, p, out, input, next, cap);
      var line := stream[p..p + nl.value];
      assert line == stream[p..][..nl.value];
      var size := StrictSize(line);
      if size.None? {
        return BadRequest, out;
      }
      p := p + nl.value + 2;
      if size.value == 0 {
        AnswerFinish(stream, p0, out, input, next, cap);
        break;
      }
      if size.value > cap - |out| {
        return TooLarge, out;
      }
      while |stream| < p + size.value + 2
        invariant next0 <= next && (next == next0 ==> stream == stream0)
        invariant next <= |input| && p == p0 + nl.value + 2 <= |stream|
        invariant Answer(stream[p0..], p0, out, input[next..], cap) == goal
        invariant Find(stream[p0..], CRLF) == nl && StrictSize(stream[p0..][..nl.value]) == size
        decreases |input| - next
      {
        TodoIs(stream[p0..], cap - |out|);
        AnswerStep(stream, p0, out, input, next, cap);
        ghost var before := stream;
        ok, timedOut, stream, next := ReadMore(stream, input, next, limit);
        if !ok {
          return if timedOut then Timeout else BadRequest, out;
        }
        StillThere(before, stream, p0);
      }
      TodoIs(stream[p0..], cap - |out|);
      AnswerChunk(stream, p0, out, input, next, cap);
      out := out + stream[p..p + size.value];
      p := p + size.value;
      if stream[p..p + 2] != CRLF {
        return BadRequest, out;
      }
      p := p + 2;
    }
    ok := SkipTrailers(stream, p, input, next, limit);
    status := if ok then Accepted else Timeout;
  }

  method SkipTrailers(stream0: string, p0: nat, input: seq<Recv>, next0: nat, limit: nat) returns (inTime: bool)
    requires p0 <= |stream0| && next0 <= |input|
    ensures inTime == InTime(stream0[p0..], p0, input[next0..], limit)
  {
    hide Find, NextRead;
    var stream, p: nat, next: nat := stream0, p0, next0;
    while true
      invariant p <= |stream| && next <= |input|
      invariant InTime(stream[p..], p, input[next..], limit) == InTime(stream0[p0..], p0, input[next0..], limit)
      decreases |input| - next, |stream| - p
    {
      var nl := Find(stream[p..], CRLF);
      FindSpec(stream[p..], CRLF);
      if nl.None? {
        ghost var before := stream;
        var r := NextRead(|stream|, input[next..], limit);
        assert r.More? ==> input[next..][1..] == input[next + 1..] && stream[p..] + r.data == (stream + r.data)[p..];
        var ok, timedOut;
        ok, timedOut, stream, next := ReadMore(stream, input, next, limit);
        if !ok {
          return !timedOut;
        }
      } else if nl.value == 0 {
        return true;
      } else {
        assert stream[p..][nl.value + 2..] == stream[p + nl.value + 2..];
        p := p + nl.value + 2;
      }
    }
  }

  method ReadChunkedBody(buf: string, input: seq<Recv>, cap: nat) returns (status: Status, out: string)
    ensures (status, out) == Answer(buf, 0, "", input, cap)
    ensures var full := buf + Received(input);
            && (status.Accepted? ==> Parse(full).Some? && out == Parse(full).value.body && |out| <= cap)
            && (status.TooLarge? && Parse(full).Some? ==> |Parse(full).value.body| > cap)
            && (Quick(input) && ShortLines(full) && |full| <= cap + SLACK ==>
                  (status.Accepted? <==> Parse(full).Some? && |Parse(full).value.body| <= cap))
  {
    hide *;
    AnswerIs(buf, input, cap);
    status, out := Decode(buf, input, cap);
  }

  // ---------- how the answer depends on the reads ----------

  // Every way of having the first bytes at hand and reading the others quickly gives one answer.
  ghost predicate OneAnswer(full: string, cap: nat) {
    forall buf, input, buf', input' ::
      && Quick(input) && buf + Received(input) == full && Quick(input') && buf' + Received(input') == full
      ==> Answer(buf, 0, "", input, cap) == Answer(buf', 0, "", input', cap)
  }

  // A complete message that is within the limits gets one answer for all splittings if and
  // only if its size lines have at most 63 bytes.
  lemma AnswerExact(full: string, cap: nat)
    requires Parse(full).Some? && |Parse(full).value.body| <= cap && |full| <= cap + 0x10_0000
    ensures OneAnswer(full, cap) <==> ShortLines(full)
  {
    hide Parse, ShortLines, Answer, Received;
    if ShortLines(full) {
      forall buf, input | Quick(input) && buf + Received(input) == full
        ensures Answer(buf, 0, "", input, cap) == (Accepted, Parse(full).value.body)
      {
        AnswerSound(buf, 0, "", input, cap);
        assert "" + Parse(full).value.body == Parse(full).value.body;
      }
    } else {
      AnswersDiffer(full, cap);
      BytesReceived(full);
      OneReceived(full);
      assert "" + full == full;
    }
  }

  function Bytes(t: string): seq<Recv> {
    if t == "" then [] else [Recv(t[..1], false)] + Bytes(t[1..])
  }

  lemma {:induction false} BytesReceived(t: string)
    ensures Received(Bytes(t)) == t && Quick(Bytes(t))
    decreases |t|
  {
    hide Quick;
    if t != "" {
      BytesReceived(t[1..]);
      var first, rest := Recv(t[..1], false), Bytes(t[1..]);
      assert Bytes(t) == [first] + rest && Bytes(t)[1..] == rest && Bytes(t)[0] == first;
      assert t[..1] + t[1..] == t;
      QuickCons(first, rest);
    } else {
      NoneQuick();
    }
  }

  lemma QuickCons(first: Recv, rest: seq<Recv>)
    requires first.data != "" && !first.slow && Quick(rest)
    ensures Quick([first] + rest)
  {
  }

  lemma NoneQuick()
    ensures Quick([])
  {
  }

  lemma OneReceived(t: string)
    requires t != ""
    ensures Received([Recv(t, false)]) == t && Quick([Recv(t, false)])
  {
    assert [Recv(t, false)][1..] == [];
    assert Received([]) == "" && t + "" == t;
  }

  // In one read such a message is accepted; byte by byte it is refused if a line is long.
  lemma AnswersDiffer(full: string, cap: nat)
    requires Parse(full).Some? && |Parse(full).value.body| <= cap && |full| <= cap + SLACK
    requires !ShortLines(full)
    ensures full != ""
    ensures Answer("", 0, "", [Recv(full, false)], cap) == (Accepted, Parse(full).value.body)
    ensures Answer("", 0, "", Bytes(full), cap).0 == BadRequest
  {
    hide Parse, ShortLines, Answer;
    WholeRead(full, cap);
    BytesRefused(full, 0, "", cap);
  }

  lemma WholeRead(full: string, cap: nat)
    requires Parse(full).Some? && |Parse(full).value.body| <= cap && |full| <= cap + SLACK
    ensures full != "" && Answer("", 0, "", [Recv(full, false)], cap) == (Accepted, Parse(full).value.body)
  {
    hide Parse, Answer, Find;
    NothingEmpty();
    var input := [Recv(full, false)];
    assert input[1..] == [] && "" + full == full && input[0..] == input;
    TodoIs("", cap);
    NotFound("");
    AnswerStep("", 0, "", input, 0, cap);
    WholeAccepted(full, 0, "", cap);
    assert full[0..] == full && ""[0..] == "";
    assert "" + Parse(full).value.body == Parse(full).value.body;
  }

  lemma NothingEmpty()
    ensures Parse("").None?
  {
  }

  lemma NotFound(s: string)
    requires |s| < 2
    ensures Find(s, CRLF).None?
  {
  }

  lemma TakeStep(s: string, used: nat, out: string, input: seq<Recv>, cap: nat)
    requires |out| <= cap && TodoOf(s, cap - |out|).TakeChunk?
    requires var t := TodoOf(s, cap - |out|); s[t.at + t.sz..t.at + t.sz + 2] == CRLF
    ensures var t := TodoOf(s, cap - |out|);
            var n := t.at + t.sz;
            Answer(s, used, out, input, cap) == Answer(s[n + 2..], used + n + 2, out + s[t.at..n], input, cap)
  {
    hide TodoOf;
  }

  lemma FinishStep(s: string, used: nat, out: string, input: seq<Recv>, cap: nat)
    requires |out| <= cap && TodoOf(s, cap - |out|).Finish? && Quick(input)
    ensures Answer(s, used, out, input, cap) == (Accepted, out)
  {
    hide TodoOf, InTime;
    var at := TodoOf(s, cap - |out|).at;
    QuickInTime(s[at..], used + at, input, cap + SLACK);
  }

  lemma LastParse(s: string, k: nat)
    requires Line(s) == Some((k, 0))
    ensures k + 2 <= |s| && Parse(s) == Some(Parsed("", s[k + 2..]))
  {
    hide Line;
  }

  // With the whole message at hand.
  lemma {:induction false} WholeAccepted(s: string, used: nat, out: string, cap: nat)
    requires Parse(s).Some? && |out| + |Parse(s).value.body| <= cap
    ensures Answer(s, used, out, [], cap) == (Accepted, out + Parse(s).value.body)
    decreases |s|
  {
    hide Find, StrictSize, Line, At, TodoOf, Answer, Parse;
    ParsedLine(s);
    LineFound(s);
    var (k, sz) := Line(s).value;
    TodoIs(s, cap - |out|);
    if sz == 0 {
      LastParse(s, k);
      FinishStep(s, used, out, [], cap);
      assert out + "" == out;
    } else {
      var n := k + 2 + sz;
      AtFits(s, CRLF, n);
      ChunkParse(s, k, sz);
      AtIs(s, n);
      TakeStep(s, used, out, [], cap);
      var body := Parse(s[n + 2..]).value.body;
      WholeAccepted(s[n + 2..], used + n + 2, out + s[k + 2..n], cap);
      assert out + s[k + 2..n] + body == out + (s[k + 2..n] + body);
    }
  }

  lemma AtIs(s: string, n: nat)
    requires n + 2 <= |s|
    ensures At(s, CRLF, n) <==> s[n..n + 2] == CRLF
  {
  }

  // Reading byte by byte as long as the bytes at hand ask for more.
  lemma {:induction false} Grow(s: string, t: string, n: nat, used: nat, out: string, cap: nat)
    requires |out| <= cap && n <= |t| && used + |s| + n <= cap + SLACK
    requires forall i :: 0 <= i < n ==> TodoOf(s + t[..i], cap - |out|).ReadOn?
    ensures Answer(s, used, out, Bytes(t), cap) == Answer(s + t[..n], used, out, Bytes(t[n..]), cap)
    decreases n
  {
    hide TodoOf, Answer;
    if n == 0 {
      assert s + t[..0] == s && t[0..] == t;
    } else {
      var c, rest := t[..1], t[1..];
      forall i | 0 <= i < n - 1
        ensures TodoOf((s + c) + rest[..i], cap - |out|).ReadOn?
      {
        GrowSlices(s, t, i + 1);
      }
      assert s + t[..0] == s;
      GrowOne(s, t, used, out, cap);
      Grow(s + c, rest, n - 1, used, out, cap);
      GrowSlices(s, t, n);
    }
  }

  lemma GrowSlices(s: string, t: string, n: nat)
    requires 1 <= n <= |t|
    ensures (s + t[..1]) + t[1..][..n - 1] == s + t[..n] && t[1..][n - 1..] == t[n..]
  {
    assert t[..1] + t[1..][..n - 1] == t[..n];
  }

  lemma GrowOne(s: string, t: string, used: nat, out: string, cap: nat)
    requires |out| <= cap && t != "" && used + |s| + 1 <= cap + SLACK && TodoOf(s, cap - |out|).ReadOn?
    ensures Answer(s, used, out, Bytes(t), cap) == Answer(s + t[..1], used, out, Bytes(t[1..]), cap)
  {
    hide TodoOf, Bytes;
    BytesFirst(t);
    assert |t[..1]| == 1;
    assert NextRead(used + |s|, Bytes(t), cap + SLACK) == More(t[..1]);
  }

  lemma BytesFirst(t: string)
    requires t != ""
    ensures Bytes(t) != [] && Bytes(t)[0] == Recv(t[..1], false) && Bytes(t)[1..] == Bytes(t[1..])
  {
  }

  // The bytes of a line, and of its chunk, ask for more until they are there.
  lemma LineGrows(t: string, k: nat, i: nat, room: nat)
    requires Find(t, CRLF) == Some(k) && i < k + 2 && i <= 64 && i <= |t|
    ensures TodoOf("" + t[..i], room).ReadOn?
  {
    hide Find, StrictSize;
    assert "" + t[..i] == t[..i];
    TodoIs(t[..i], room);
    TakeNone(t, k, i);
  }

  lemma TakeNone(t: string, k: nat, i: nat)
    requires Find(t, CRLF) == Some(k) && i < k + 2 && i <= |t|
    ensures Find(t[..i], CRLF).None?
  {
    hide Find;
    FindSpec(t, CRLF);
    FindSpec(t[..i], CRLF);
    var f := Find(t[..i], CRLF);
    var j: nat := if f.Some? then f.value else 0;
    assert j + 2 <= i ==> t[..i][j..j + 2] == t[j..j + 2];
    assert j < k ==> !At(t, CRLF, j);
  }

  lemma ChunkGrows(t: string, k: nat, sz: nat, i: nat, room: nat)
    requires Find(t, CRLF) == Some(k) && k + 2 <= i <= |t| && StrictSize(t[..k]) == Some(sz) && 0 < sz <= room
    ensures TodoOf(t[..i], room) == if i < k + 2 + sz + 2 then ReadOn else TakeChunk(k + 2, sz)
  {
    hide Find, StrictSize;
    TakeFind(t, CRLF, i, k);
    assert t[..i][..k] == t[..k];
    TodoIs(t[..i], room);
  }

  lemma {:induction false} BytesRefused(t: string, used: nat, out: string, cap: nat)
    requires Parse(t).Some? && |out| + |Parse(t).value.body| <= cap && used + |t| <= cap + SLACK
    requires !ShortLines(t)
    ensures Answer("", used, out, Bytes(t), cap).0 == BadRequest
    decreases |t|
  {
    hide Parse, ShortLines, Find, StrictSize, Line, At, TodoOf, Answer, Bytes;
    ParsedLine(t);
    LineFound(t);
    var (k, sz) := Line(t).value;
    var room: nat := cap - |out|;
    if k > 63 {
      forall i | 0 <= i < 65
        ensures TodoOf("" + t[..i], room).ReadOn?
      {
        LineGrows(t, k, i, room);
      }
      Grow("", t, 65, used, out, cap);
      LongRefused(t, k, used, out, cap);
    } else {
      ShortHere(t);
      var n := k + 2 + sz + 2;
      ChunkParse(t, k, sz);
      forall i | 0 <= i < n
        ensures TodoOf("" + t[..i], room).ReadOn?
      {
        assert "" + t[..i] == t[..i];
        if i < k + 2 {
          LineGrows(t, k, i, room);
        } else {
          ChunkGrows(t, k, sz, i, room);
        }
      }
      Grow("", t, n, used, out, cap);
      ChunkGrows(t, k, sz, n, room);
      Consume(t, k, sz, used, out, cap);
      BytesRefused(t[n..], used + n, out + t[k + 2..k + 2 + sz], cap);
    }
  }

  lemma ParsedLine(t: string)
    requires Parse(t).Some?
    ensures Line(t).Some?
  {
  }

  // The line is short but there is a long one behind it.
  lemma ShortHere(t: string)
    requires !ShortLines(t) && Line(t).Some? && Line(t).value.0 <= 63 && Find(t, CRLF) == Some(Line(t).value.0)
    ensures var (k, sz) := Line(t).value;
            sz > 0 && At(t, CRLF, k + 2 + sz) && k + 2 + sz + 2 <= |t| && !ShortLines(t[k + 2 + sz + 2..])
  {
    hide Find, Line, At;
    var (k, sz) := Line(t).value;
    AtFits(t, CRLF, k + 2 + sz);
  }

  lemma LongRefused(t: string, k: nat, used: nat, out: string, cap: nat)
    requires Find(t, CRLF) == Some(k) && k > 63 && k + 2 <= |t| && |out| <= cap
    ensures Answer("" + t[..65], used, out, Bytes(t[65..]), cap).0 == BadRequest
  {
    hide Find, Bytes;
    assert "" + t[..65] == t[..65];
    TakeNone(t, k, 65);
  }

  lemma Consume(t: string, k: nat, sz: nat, used: nat, out: string, cap: nat)
    requires |out| + sz <= cap && k + 2 + sz + 2 <= |t| && At(t, CRLF, k + 2 + sz)
    requires TodoOf(t[..k + 2 + sz + 2], cap - |out|) == TakeChunk(k + 2, sz)
    ensures var n := k + 2 + sz + 2;
            var input := Bytes(t[n..]);
            Answer("" + t[..n], used, out, input, cap) == Answer("", used + n, out + t[k + 2..n - 2], input, cap)
  {
    hide Find, Bytes, TodoOf, Answer;
    var n := k + 2 + sz + 2;
    var s := t[..n];
    assert "" + s == s && s[n..] == "";
    assert s[k + 2..k + 2 + sz] == t[k + 2..k + 2 + sz];
    assert s[k + 2 + sz..n] == t[k + 2 + sz..n];
    TakeStep(s, used, out, Bytes(t[n..]), cap);
  }


  ghost predicate ShortPieces(cs: seq<Piece>, last: Piece) {
    (forall i :: 0 <= i < |cs| ==> |cs[i].digits + cs[i].ext| <= 63) && |last.digits + last.ext| <= 63
  }

  lemma {:induction false} ShortEncoded(cs: seq<Piece>, last: Piece, t: string)
    requires ValidBody(cs, last) && ShortPieces(cs, last)
    ensures ShortLines(Encoded(cs, last) + t)
    decreases |cs|
  {
    hide Find, AllHex, Digits, Plain, Line, At, ValidExt, StrictSize, Means, ShortLines;
    var s := Encoded(cs, last) + t;
    if cs == [] {
      MeansExact(last.digits, 0);
      LineRead(last.digits, last.ext, t);
      ShortStep(s);
    } else {
      var c := cs[0];
      var rest := Encoded(cs[1..], last) + t;
      EncodedCons(cs, last, t);
      MeansExact(c.digits, |c.data|);
      LineRead(c.digits, c.ext, c.data + CRLF + rest);
      ShortEncoded(cs[1..], last, t);
      ChunkSlices(c.digits + c.ext, c.data, rest);
      ShortStep(s);
    }
  }

  lemma ShortStep(s: string)
    requires Line(s).Some? && Find(s, CRLF).Some? && Find(s, CRLF).value <= 63
    ensures var (k, sz) := Line(s).value;
            (sz > 0 && At(s, CRLF, k + 2 + sz) ==>
               k + 2 + sz + 2 <= |s| && (ShortLines(s[k + 2 + sz + 2..]) ==> ShortLines(s)))
            && (sz == 0 ==> ShortLines(s))
  {
    hide Find, Line, At;
    AtFits(s, CRLF, Line(s).value.0 + 2 + Line(s).value.1);
  }

  // A message of the grammar within the limits, from a peer that does not dawdle, in whatever
  // pieces it comes: it is accepted, and the body is its payload.
  lemma BodyAccepted(cs: seq<Piece>, last: Piece, t: string, buf: string, input: seq<Recv>, cap: nat)
    requires ValidBody(cs, last) && ShortPieces(cs, last) && |Payload(cs)| <= cap && Quick(input)
    requires buf + Received(input) == Encoded(cs, last) + t && |Encoded(cs, last) + t| <= cap + 0x10_0000
    ensures Answer(buf, 0, "", input, cap) == (Accepted, Payload(cs))
  {
    hide Answer, Parse, ShortLines, Encoded, ValidBody;
    ParseEncoded(cs, last, t);
    ShortEncoded(cs, last, t);
    AnswerSound(buf, 0, "", input, cap);
    assert "" + Payload(cs) == Payload(cs);
  }

  // ---------- slow peers ----------

  // The raw stream would pass its limit, one mebibyte over the cap.
  predicate Over(have: nat, d: Recv, cap: nat) {
    have + |d.data| > cap + 0x10_0000
  }

  // While what has come is no complete message, but could still become one that is accepted:
  // a read that is too slow ends it as timed out; the end of the connection, or too long a
  // stream, as a bad request.
  lemma {:induction false} Interrupted(s: string, used: nat, out: string, a: seq<Recv>, d: Recv, b: seq<Recv>,
                                       t: string, cap: nat)
    requires |out| <= cap && Quick(a) && used + |s + Received(a)| <= cap + 0x10_0000
    requires d.slow || d.data == "" || Over(used + |s + Received(a)|, d, cap)
    requires Parse(s + Received(a)).None? && Promising(s + Received(a) + t, cap - |out|)
    ensures Answer(s, used, out, a + [d] + b, cap).0
         == if d.data == "" || Over(used + |s + Received(a)|, d, cap) then BadRequest else Timeout
    decreases |a|, |s|
  {
    hide Parse, ShortLines, Find, StrictSize, Line, At, TodoOf, Answer, Promising, Received, Quick, NextRead, Over;
    var todo := TodoOf(s, cap - |out|);
    var input := a + [d] + b;
    FirstQuick(s, a);
    TodoIs(s, cap - |out|);
    if todo.ReadOn? {
      if a == [] {
        assert input[0] == d;
        LastAnswer(s, used, out, input, cap);
      } else {
        var c := a[0].data;
        assert input[1..] == a[1..] + [d] + b && input[0] == a[0];
        ReadStep(s, used, out, input, cap);
        Interrupted(s + c, used, out, a[1..], d, b, t, cap);
      }
    } else if todo.Finish? {
      FinishParses(s, cap - |out|);
      ParseExtends(s, Received(a));
    } else if todo.Refuse? {
      assert s + Received(a) + t == s + (Received(a) + t);
      RefuseFinal(s, Received(a) + t, cap - |out|);
    } else {
      var n := todo.at + todo.sz;
      BehindChunk(s, Received(a), t, cap - |out|);
      TakeStep(s, used, out, input, cap);
      Interrupted(s[n + 2..], used + n + 2, out + s[todo.at..n], a, d, b, t, cap);
    }
  }

  lemma BehindChunk(s: string, x: string, t: string, room: nat)
    requires TodoOf(s, room).TakeChunk? && Parse(s + x).None? && Promising(s + x + t, room)
    ensures var todo := TodoOf(s, room);
            var n := todo.at + todo.sz;
            && s[n..n + 2] == CRLF && |s + x| == n + 2 + |s[n + 2..] + x|
            && Parse(s[n + 2..] + x).None? && Promising(s[n + 2..] + x + t, room - todo.sz)
  {
    hide Parse, TodoOf, Promising, At, Line;
    var todo := TodoOf(s, room);
    var n := todo.at + todo.sz;
    assert s + x + t == s + (x + t);
    assert s[n + 2..] + x + t == s[n + 2..] + (x + t);
    ChunkOn(s, x, room);
    PromisingOn(s, x + t, room);
  }

  lemma FirstQuick(s: string, a: seq<Recv>)
    requires Quick(a)
    ensures a == [] ==> s + Received(a) == s
    ensures a != [] ==> a[0].data != "" && !a[0].slow && Quick(a[1..])
    ensures a != [] ==> s + Received(a) == (s + a[0].data) + Received(a[1..])
    ensures |s| <= |s + Received(a)| && (a != [] ==> |s| + |a[0].data| <= |s + Received(a)|)
  {
  }

  // A complete message, within the limits on its lines and its body.
  ghost predicate Promising(full: string, room: int) {
    Parse(full).Some? && |Parse(full).value.body| <= room && ShortLines(full)
  }

  lemma LastAnswer(s: string, used: nat, out: string, input: seq<Recv>, cap: nat)
    requires |out| <= cap && TodoOf(s, cap - |out|).ReadOn?
    requires input != [] && (input[0].slow || input[0].data == "" || Over(used + |s|, input[0], cap))
    ensures Answer(s, used, out, input, cap).0
         == if input[0].data == "" || Over(used + |s|, input[0], cap) then BadRequest else Timeout
  {
    hide TodoOf;
  }

  lemma ReadStep(s: string, used: nat, out: string, input: seq<Recv>, cap: nat)
    requires |out| <= cap && TodoOf(s, cap - |out|).ReadOn?
    requires input != [] && !input[0].slow && input[0].data != "" && used + |s| + |input[0].data| <= cap + 0x10_0000
    ensures Answer(s, used, out, input, cap) == Answer(s + input[0].data, used, out, input[1..], cap)
  {
    hide TodoOf;
  }

  lemma FinishParses(s: string, room: nat)
    requires TodoOf(s, room).Finish?
    ensures Parse(s).Some?
  {
    hide Find, StrictSize, At;
    TodoIs(s, room);
    LineIs(s, Find(s, CRLF).value);
  }

  lemma RefuseFinal(s: string, rest: string, room: nat)
    requires TodoOf(s, room).Refuse?
    ensures !Promising(s + rest, room)
  {
    hide Parse, ShortLines, TodoOf, Find, StrictSize, Line;
    TodoIs(s, room);
    if Find(s, CRLF).None? {
      if ShortLines(s + rest) {
        FarLine(s, rest);
      }
    } else {
      LineIs(s, Find(s, CRLF).value);
      LineExtends(s, rest);
      if Line(s).Some? {
        var (k, sz) := Line(s).value;
        ChunkParse(s + rest, k, sz);
      } else {
        NoLine(s + rest);
      }
    }
  }

  // A chunk at the front is one whatever follows.
  lemma ChunkOn(s: string, rest: string, room: nat)
    requires TodoOf(s, room).TakeChunk?
    ensures var todo := TodoOf(s, room);
            var n := todo.at + todo.sz;
            && todo.at >= 2 && Line(s + rest) == Some((todo.at - 2, todo.sz)) && (s + rest)[todo.at..n] == s[todo.at..n]
            && (s[n..n + 2] == CRLF <==> At(s + rest, CRLF, n)) && (s + rest)[n + 2..] == s[n + 2..] + rest
            && (s[n..n + 2] == CRLF && Parse(s + rest).None? ==> Parse(s[n + 2..] + rest).None?)
            && (s[n..n + 2] != CRLF ==> Parse(s + rest).None?)
  {
    hide Parse, ShortLines, TodoOf, Find, StrictSize, Line;
    TodoIs(s, room);
    var todo := TodoOf(s, room);
    var n := todo.at + todo.sz;
    LineIs(s, Find(s, CRLF).value);
    LineExtends(s, rest);
    ChunkParse(s + rest, todo.at - 2, todo.sz);
    AtExtends(s, rest, n);
    assert (s + rest)[todo.at..n] == s[todo.at..n];
  }

  lemma PromisingOn(s: string, rest: string, room: nat)
    requires TodoOf(s, room).TakeChunk? && Promising(s + rest, room)
    ensures var todo := TodoOf(s, room);
            var n := todo.at + todo.sz;
            s[n..n + 2] == CRLF && Promising(s[n + 2..] + rest, room - todo.sz)
  {
    hide Parse, ShortLines, TodoOf, Find, StrictSize, Line;
    var todo := TodoOf(s, room);
    ChunkOn(s, rest, room);
    ChunkParse(s + rest, todo.at - 2, todo.sz);
  }

  // ---------- reading a body of known length ----------

  ghost predicate Come(buf: string, input: seq<Recv>, stream: string, next: nat) {
    var full := buf + Received(input);
    && next <= |input| && stream == buf + Received(input[..next]) && |stream| <= |full| && stream == full[..|stream|]
  }

  lemma MoreCome(buf: string, input: seq<Recv>, stream: string, next: nat)
    requires Come(buf, input, stream, next) && next < |input|
    ensures Come(buf, input, stream + input[next].data, next + 1)
    ensures |stream| + |input[next].data| <= |buf + Received(input)|
  {
    ReceivedSplit(input, next);
    var a, d, r := Received(input[..next]), input[next].data, Received(input[next + 1..]);
    assert buf + (a + d) == buf + a + d;
    assert buf + (a + d + r) == buf + a + d + r;
  }

  // All read.
  lemma Exhausted(buf: string, input: seq<Recv>, stream: string, next: nat)
    requires Come(buf, input, stream, next) && next == |input|
    ensures stream == buf + Received(input)
  {
    assert input[..next] == input;
  }

  datatype Sized = Complete(body: string) | Oversized | Closed | Slow

  // The first `n` reads come in time, and are not enough.
  ghost predicate StillShort(start: string, input: seq<Recv>, n: nat, length: nat) {
    n <= |input| && Quick(input[..n]) && |start + Received(input[..n])| < length
  }

  ghost predicate Enough(start: string, input: seq<Recv>, n: int, length: nat) {
    0 <= n <= |input| && Quick(input[..n]) && length <= |start + Received(input[..n])|
  }

  ghost predicate TooSlowAt(start: string, input: seq<Recv>, n: int, length: nat) {
    0 <= n < |input| && StillShort(start, input, n, length) && input[n].slow && input[n].data != ""
  }

  ghost predicate ClosedAt(start: string, input: seq<Recv>, n: int, length: nat) {
    0 <= n <= |input| && StillShort(start, input, n, length) && (n == |input| || input[n].data == "")
  }

  // A body with a Content-Length: complete, it is exactly the first `length` bytes behind the
  // header, for every way they were split into reads.
  method ReadSizedBody(buf: string, headerEnd: nat, length: nat, input: seq<Recv>, cap: nat) returns (r: Sized)
    requires headerEnd <= |buf|
    ensures var full := buf[headerEnd..] + Received(input);
            && (r.Complete? ==> length <= |full| && length <= cap && r.body == full[..length])
            && (r.Oversized? <==> length > cap)
            && (Quick(input) ==> (r.Complete? <==> length <= cap && length <= |full|))
            && (r.Complete? ==> exists n :: Enough(buf[headerEnd..], input, n, length))
            && (r.Slow? ==> exists n :: TooSlowAt(buf[headerEnd..], input, n, length))
            && (r.Closed? ==> exists n :: ClosedAt(buf[headerEnd..], input, n, length))
  {
    hide Quick, StillShort, Enough, TooSlowAt, ClosedAt, Come, Fed, First, Received;
    if length > cap {
      return Oversized;
    }
    var body := buf[headerEnd..headerEnd + if |buf| - headerEnd < length then |buf| - headerEnd else length];
    ghost var start := buf[headerEnd..];
    var next: nat := 0;
    FedStart(buf, headerEnd, length, input);
    while |body| < length
      invariant |body| <= length && next <= |input| && Fed(start, input, next, length, body)
      decreases |input| - next
    {
      FedStop(start, input, next, length, body);
      if next == |input| {
        return Closed;
      }
      var d := input[next].data;
      if d == "" {
        return Closed;
      }
      if input[next].slow {
        return Slow;
      }
      var need := length - |body|;
      FedMore(start, input, next, length, body);
      body := body + First(d, need);
      next := next + 1;
    }
    FedEnd(start, input, next, length, body);
    return Complete(body);
  }

  // The body so far: the first bytes of what has come, all of it in time.
  ghost predicate Fed(start: string, input: seq<Recv>, n: nat, length: nat, body: string) {
    && n <= |input| && Come(start, input, start + Received(input[..n]), n) && Quick(input[..n])
    && body == First(start + Received(input[..n]), length)
  }

  lemma FedStart(buf: string, headerEnd: nat, length: nat, input: seq<Recv>)
    requires headerEnd <= |buf|
    ensures var body := buf[headerEnd..headerEnd + if |buf| - headerEnd < length then |buf| - headerEnd else length];
            |body| <= length && Fed(buf[headerEnd..], input, 0, length, body)
  {
    var start := buf[headerEnd..];
    assert input[..0] == [] && start + "" == start;
  }

  // What each way out of the loop says.
  lemma FedStop(start: string, input: seq<Recv>, n: nat, length: nat, body: string)
    requires Fed(start, input, n, length, body) && |body| < length
    ensures n == |input| || input[n].data == "" ==> ClosedAt(start, input, n, length)
    ensures n == |input| ==> |start + Received(input)| < length
    ensures n < |input| && input[n].data != "" && input[n].slow ==> TooSlowAt(start, input, n, length)
    ensures n < |input| && (input[n].data == "" || input[n].slow) ==> !Quick(input)
  {
    hide Received;
    if n == |input| {
      Exhausted(start, input, start + Received(input[..n]), n);
    }
    assert StillShort(start, input, n, length);
  }

  lemma FedMore(start: string, input: seq<Recv>, n: nat, length: nat, body: string)
    requires Fed(start, input, n, length, body) && |body| < length
    requires n < |input| && input[n].data != "" && !input[n].slow
    ensures var d := First(input[n].data, length - |body|);
            |d| <= length - |body| && Fed(start, input, n + 1, length, body + d)
  {
    hide Received, Come;
    var s := start + Received(input[..n]);
    MoreCome(start, input, s, n);
    FirstMore(s, input[n].data, length);
    ReceivedSplit(input, n);
    assert s + input[n].data == start + Received(input[..n + 1]);
    assert input[..n + 1] == input[..n] + [input[n]];
  }

  lemma FedEnd(start: string, input: seq<Recv>, n: nat, length: nat, body: string)
    requires Fed(start, input, n, length, body) && |body| == length
    ensures Enough(start, input, n, length)
    ensures length <= |start + Received(input)| && body == (start + Received(input))[..length]
  {
    hide Received;
  }

  function First(s: string, n: nat): string {
    if |s| <= n then s else s[..n]
  }

  lemma FirstMore(s: string, t: string, n: nat)
    requires |First(s, n)| < n
    ensures First(s + t, n) == First(s, n) + First(t, n - |First(s, n)|)
  {
  }
}
