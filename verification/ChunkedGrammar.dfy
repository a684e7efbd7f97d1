/** The grammar of a chunked body, section 4.1 of RFC 7230, and the client's decoder on it. */
module ChunkedGrammar {
  import opened Options
  import opened Strings
  import opened ChunkedBodies
  import opened HexSizes

  datatype Piece = Piece(digits: string, ext: string, data: string)

  predicate ValidExt(ext: string) {
    (ext == "" || ext[0] == ';') && Find(ext, CRLF).None?
  }

  predicate ValidPiece(c: Piece) {
    Means(c.digits, |c.data|) && |c.data| < 0x1_0000_0000_0000_0000 && ValidExt(c.ext)
  }

  function Text(c: Piece): string {
    c.digits + c.ext + CRLF + c.data + CRLF
  }

  // chunked-body = *chunk last-chunk, without the trailer.
  function Encoded(cs: seq<Piece>, last: Piece): string {
    if cs == [] then last.digits + last.ext + CRLF else Text(cs[0]) + Encoded(cs[1..], last)
  }

  function Payload(cs: seq<Piece>): string {
    if cs == [] then "" else cs[0].data + Payload(cs[1..])
  }

  ghost predicate ValidBody(cs: seq<Piece>, last: Piece) {
    && (forall i :: 0 <= i < |cs| ==> ValidPiece(cs[i]) && cs[i].data != "")
    && ValidPiece(last) && last.data == ""
  }

  lemma NoBreakInside(digits: string, ext: string, t: string, j: nat)
    requires AllHex(digits) && ValidExt(ext) && j < |digits + ext|
    ensures !At(digits + ext + CRLF + t, CRLF, j)
  {
    hide Find;
    var s := digits + ext + CRLF + t;
    assert s[j..j + 2][0] == s[j];
    if j < |digits| {
      assert s[j] == digits[j] && Digit(digits[j]).Some?;
    } else {
      var i := j - |digits|;
      FindSpec(ext, CRLF);
      assert !At(ext, CRLF, i);
      if i + 1 < |ext| {
        assert s[j..j + 2] == ext[i..i + 2];
      } else {
        assert s[j..j + 2][1] == s[j + 1] == '\r';
      }
    }
  }

  lemma PlainDigits(digits: string, ext: string)
    requires AllHex(digits) && (ext == "" || ext[0] == ';')
    ensures Plain(digits + ext) == digits
  {
    hide Find;
    var line := digits + ext;
    forall j | 0 <= j < |digits|
      ensures !At(line, ";", j)
    {
      assert line[j..j + 1][0] == line[j] == digits[j] && Digit(digits[j]).Some?;
    }
    if ext == "" {
      FindSpec(line, ";");
    } else {
      assert line[|digits|..|digits| + 1] == ";";
      FindIs(line, ";", |digits|);
      assert line[..|digits|] == digits;
    }
  }

  lemma EncodedCons(cs: seq<Piece>, last: Piece, t: string)
    requires cs != []
    ensures Encoded(cs, last) + t
         == cs[0].digits + cs[0].ext + CRLF + (cs[0].data + CRLF + (Encoded(cs[1..], last) + t))
  {
  }

  lemma LastSlices(line: string, t: string)
    ensures (line + CRLF + t)[|line| + 2..] == t
  {
  }

  lemma ChunkSlices(line: string, data: string, rest: string)
    ensures var s := line + CRLF + (data + CRLF + rest);
            var k := |line|;
            && s[..k] == line && s[k + 2..k + 2 + |data|] == data
            && At(s, CRLF, k + 2 + |data|) && s[k + 2 + |data| + 2..] == rest
  {
  }

  // The line of a chunk ends where it was written to end.
  lemma LineEnds(digits: string, ext: string, t: string)
    requires AllHex(digits) && ValidExt(ext)
    ensures Find(digits + ext + CRLF + t, CRLF) == Some(|digits + ext|)
  {
    hide Find;
    var line := digits + ext;
    var s := line + CRLF + t;
    forall j | 0 <= j < |line|
      ensures !At(s, CRLF, j)
    {
      NoBreakInside(digits, ext, t, j);
    }
    assert s[|line|..|line| + 2] == CRLF;
    FindIs(s, CRLF, |line|);
  }

  // ---------- the client's decoder on these bodies ----------

  // The data of the pieces, each by itself.
  function Datas(cs: seq<Piece>): seq<string> {
    if cs == [] then [] else [cs[0].data] + Datas(cs[1..])
  }

  lemma FrontRead(digits: string, ext: string, t: string, n: nat)
    requires Means(digits, n) && n < WORD && ValidExt(ext)
    ensures FrontOf(digits + ext + CRLF + t) == if n == 0 then Last else Chunk(|digits + ext| + 2, n)
  {
    hide Find, Means, Stoul, Digits, AllHex, Plain, Trimmed, ValidExt;
    var line := digits + ext;
    var s := line + CRLF + t;
    MeansExact(digits, n);
    LineEnds(digits, ext, t);
    assert s[..|line|] == line;
    ExtBegins(ext);
    PlainDigits(digits, ext);
    SizeLines(line);
    MeansRead(digits, n);
  }

  lemma ExtBegins(ext: string)
    requires ValidExt(ext)
    ensures ext == "" || ext[0] == ';'
  {
  }

  lemma TextFits(c: Piece, rest: string)
    requires |Text(c)| < WORD
    ensures var at := |c.digits + c.ext| + 2;
            var b := c.digits + c.ext + CRLF + (c.data + CRLF + rest);
            && at + |c.data| + 2 == |Text(c)| && |b| == |Text(c)| + |rest|
            && Cut(b, at, |c.data|) == c.data && b[|Text(c)|..] == rest
            && (at + |c.data| + 2) % WORD == at + |c.data| + 2
  {
  }

  // The decoder emits exactly the data of the pieces, one by one, and ends at the last line.
  lemma {:induction false} DrainEncoded(cs: seq<Piece>, last: Piece, t: string)
    requires ValidBody(cs, last) && |Encoded(cs, last)| < WORD
    ensures Drain(Encoded(cs, last) + t)
         == (Datas(cs), Decoder(last.digits + last.ext + CRLF + t, true, false))
    ensures AllFit(Encoded(cs, last) + t)
    decreases |cs|
  {
    hide FrontOf, RoundOf, Drain, AllFit, Means, ValidExt, Find;
    var b := Encoded(cs, last) + t;
    RoundIs(b);
    DrainStep(b);
    AllFitStep(b);
    if cs == [] {
      FrontRead(last.digits, last.ext, t, 0);
    } else {
      var c := cs[0];
      var rest := Encoded(cs[1..], last) + t;
      EncodedCons(cs, last, t);
      FrontRead(c.digits, c.ext, c.data + CRLF + rest, |c.data|);
      assert |Encoded(cs, last)| == |Text(c)| + |Encoded(cs[1..], last)|;
      TextFits(c, rest);
      DrainEncoded(cs[1..], last, t);
    }
  }

  lemma AllFitStep(b: string)
    ensures var f := FrontOf(b);
            && (!f.Chunk? ==> AllFit(b))
            && (f.Chunk? && Fits(f.at, f.sz) && f.at + f.sz + 2 <= |b| && AllFit(b[f.at + f.sz + 2..]) ==> AllFit(b))
  {
    hide FrontOf;
  }

  // The batch loop is never sent back on such a body.
  lemma {:induction false} BackEncoded(b: string, p: nat, cs: seq<Piece>, last: Piece, t: string)
    requires p <= |b| <= MAX_STRING && b[p..] == Encoded(cs, last) + t && ValidBody(cs, last)
    ensures Back(b, p) == None
    decreases |cs|
  {
    hide FrontOf, Back, Means, ValidExt, Find;
    BackStep(b, p);
    if cs == [] {
      FrontRead(last.digits, last.ext, t, 0);
    } else {
      var c := cs[0];
      var rest := Encoded(cs[1..], last) + t;
      EncodedCons(cs, last, t);
      FrontRead(c.digits, c.ext, c.data + CRLF + rest, |c.data|);
      assert |b[p..]| == |Text(c)| + |rest|;
      TextFits(c, rest);
      var len := |Text(c)|;
      assert b[p..][len..] == b[p + len..];
      BackEncoded(b, p + len, cs[1..], last, t);
    }
  }

  lemma {:induction false} DatasConcat(cs: seq<Piece>)
    ensures Concat(Datas(cs)) == Payload(cs)
    decreases |cs|
  {
    if cs != [] {
      DatasConcat(cs[1..]);
      ConcatCons(cs[0].data, Datas(cs[1..]));
    }
  }

  // However the network cut a valid body, the client emits exactly the data of its pieces and
  // is done; the batch decoding gives all of it.
  lemma BodyDelivered(cs: seq<Piece>, last: Piece, t: string, pieces: seq<string>)
    requires ValidBody(cs, last) && |Encoded(cs, last) + t| <= MAX_STRING && Concat(pieces) == Encoded(cs, last) + t
    ensures var (emitted, d) := FeedAll(START, pieces); emitted == Datas(cs) && d.done && !d.hung
    ensures Batch(Encoded(cs, last) + t) == Some(Payload(cs))
  {
    hide Drain, FeedAll, AllFit, Steady, Back, ValidBody, Encoded, Yields, Datas;
    var b := Encoded(cs, last) + t;
    DrainEncoded(cs, last, t);
    AllFitSteady(b);
    SplitExact(b);
    assert b[0..] == b;
    BackEncoded(b, 0, cs, last, t);
    BatchExact(b);
    DatasConcat(cs);
    assert Payload(cs) + "" == Payload(cs);
  }
}
