/** Base64, plain and URL-safe. */
module Base64 {

  type Byte = x: int | 0 <= x < 256

  // The letters of the plain alphabet.
  function Letter(v: nat): char
    requires v < 64
  {
    if v < 26 then 'A' + v as char
    else if v < 52 then 'a' + (v - 26) as char
    else if v < 62 then '0' + (v - 52) as char
    else if v == 62 then '+'
    else '/'
  }

  // What a letter stands for; -1 for every other character, the padding too.
  function Digit(c: char): (v: int)
    ensures -1 <= v < 64
  {
    if 'A' <= c <= 'Z' then c as int - 'A' as int
    else if 'a' <= c <= 'z' then c as int - 'a' as int + 26
    else if '0' <= c <= '9' then c as int - '0' as int + 52
    else if c == '+' then 62
    else if c == '/' then 63
    else -1
  }

  lemma LetterDigit(v: nat)
    requires v < 64
    ensures Digit(Letter(v)) == v && Letter(v) != '=' && Letter(v) != '-' && Letter(v) != '_'
  {
  }

  // ---------- encoding ----------

  // Three bytes as one number, missing ones zero.
  function Triple(data: seq<Byte>): (b: nat)
    ensures b < 0x100_0000
  {
    (if |data| > 0 then data[0] as int * 65536 else 0)
    + (if |data| > 1 then data[1] as int * 256 else 0)
    + (if |data| > 2 then data[2] else 0)
  }

  // The four characters of up to three bytes.
  function Quad(data: seq<Byte>): string {
    var b := Triple(data);
    [Letter(b / 0x4_0000 % 64), Letter(b / 0x1000 % 64),
     if |data| > 1 then Letter(b / 64 % 64) else '=',
     if |data| > 2 then Letter(b % 64) else '=']
  }

  function Encoded(data: seq<Byte>): string {
    if data == [] then ""
    else if |data| <= 3 then Quad(data)
    else Quad(data[..3]) + Encoded(data[3..])
  }

  method Encode(data: array<Byte>) returns (out: string)
    ensures out == Encoded(data[..])
  {
    hide Quad, Encoded, Letter;
    out := "";
    var i := 0;
    assert data[..][0..] == data[..];
    EncodedNone();
    while i < data.Length
      invariant 0 <= i
      invariant i <= data.Length ==> out + Encoded(data[..][i..]) == Encoded(data[..])
      invariant i > data.Length ==> out == Encoded(data[..])
    {
      var n := if i + 3 <= data.Length then 3 else data.Length - i;
      var b := data[i] as int * 65536
               + (if i + 1 < data.Length then data[i + 1] as int * 256 else 0)
               + (if i + 2 < data.Length then data[i + 2] else 0);
      var quad := [Letter(b / 0x4_0000 % 64), Letter(b / 0x1000 % 64),
                   if i + 1 < data.Length then Letter(b / 64 % 64) else '=',
                   if i + 2 < data.Length then Letter(b % 64) else '='];
      QuadIs(data[i..i + n], b);
      assert quad == Quad(data[i..i + n]);
      EncodedStep(data[..], i, n);
      assert data[..][i..i + n] == data[i..i + n];
      assert out + (quad + Encoded(data[..][i + n..])) == out + quad + Encoded(data[..][i + n..]);
      out := out + quad;
      if n < 3 {
        assert data[..][i + n..] == [];
      }
      i := i + 3;
    }
    assert data[..][data.Length..] == [];
  }

  lemma EncodedNone()
    ensures Encoded([]) == ""
  {
  }

  lemma EncodedStep(data: seq<Byte>, i: nat, n: nat)
    requires 0 < n && i + n <= |data| && (n == 3 || (n < 3 && i + n == |data|))
    ensures Encoded(data[i..]) == Quad(data[i..i + n]) + Encoded(data[i + n..])
  {
    hide Quad, Encoded;
    Front(data[i..], n);
    assert data[i..][..n] == data[i..i + n] && data[i..][n..] == data[i + n..];
  }

  lemma QuadIs(data: seq<Byte>, b: nat)
    requires b == Triple(data)
    ensures Quad(data) == [Letter(b / 0x4_0000 % 64), Letter(b / 0x1000 % 64),
                           if |data| > 1 then Letter(b / 64 % 64) else '=',
                           if |data| > 2 then Letter(b % 64) else '=']
  {
  }

  lemma Front(data: seq<Byte>, n: nat)
    requires 0 < n <= |data| && (n == 3 || (n < 3 && n == |data|))
    ensures Encoded(data) == Quad(data[..n]) + Encoded(data[n..])
  {
    hide Quad;
    if n == |data| {
      assert data[..n] == data && data[n..] == [];
      assert Quad(data) + "" == Quad(data);
    }
  }

  // ---------- decoding ----------

  // The bytes of one group: a missing third or fourth digit ends it early, but does not make
  // it an error.
  function Group(a: nat, b: nat, c: int, d: int): seq<Byte>
    requires a < 64 && b < 64 && -1 <= c < 64 && -1 <= d < 64
  {
    [4 * a + b / 16]
    + (if c >= 0 then [(16 * b + c / 4) % 256] else [])
    + (if d >= 0 then [(64 * c + d) % 256] else [])
  }

  function Decoded(s: string): seq<Byte> {
    if |s| < 4 then []
    else if Digit(s[0]) < 0 || Digit(s[1]) < 0 then []
    else Group(Digit(s[0]), Digit(s[1]), Digit(s[2]), Digit(s[3])) + Decoded(s[4..])
  }

  method Decode(s: string) returns (out: seq<Byte>)
    ensures out == Decoded(s)
  {
    hide Group, Decoded;
    out := [];
    var i := 0;
    assert s[0..] == s;
    while i + 3 < |s|
      invariant 0 <= i <= |s| && out + Decoded(s[i..]) == Decoded(s)
    {
      var a, b, c, d := Digit(s[i]), Digit(s[i + 1]), Digit(s[i + 2]), Digit(s[i + 3]);
      DecodedStep(s, i);
      if a < 0 || b < 0 {
        return;
      }
      var group := [4 * a + b / 16];
      if c >= 0 {
        group := group + [(16 * b + c / 4) % 256];
      }
      if d >= 0 {
        group := group + [(64 * c + d) % 256];
      }
      GroupIs(a, b, c, d);
      assert group == Group(a, b, c, d);
      assert out + (group + Decoded(s[i + 4..])) == out + group + Decoded(s[i + 4..]);
      out := out + group;
      i := i + 4;
    }
    DecodedShort(s[i..]);
  }

  lemma DecodedStep(s: string, i: nat)
    requires i + 3 < |s|
    ensures var a, b := Digit(s[i]), Digit(s[i + 1]);
            Decoded(s[i..]) == if a < 0 || b < 0 then []
              else Group(a, b, Digit(s[i + 2]), Digit(s[i + 3])) + Decoded(s[i + 4..])
  {
    hide Group, Digit;
    assert s[i..][4..] == s[i + 4..];
  }

  lemma DecodedShort(s: string)
    requires |s| < 4
    ensures Decoded(s) == []
  {
  }

  lemma GroupIs(a: nat, b: nat, c: int, d: int)
    requires a < 64 && b < 64 && -1 <= c < 64 && -1 <= d < 64
    ensures Group(a, b, c, d) == [4 * a + b / 16]
                                 + (if c >= 0 then [(16 * b + c / 4) % 256] else [])
                                 + (if d >= 0 then [(64 * c + d) % 256] else [])
  {
  }

  // ---------- the round trip ----------

  lemma QuadBack(data: seq<Byte>)
    requires 0 < |data| <= 3
    ensures var q := Quad(data);
            && |q| == 4 && Digit(q[0]) >= 0 && Digit(q[1]) >= 0
            && Group(Digit(q[0]), Digit(q[1]), Digit(q[2]), Digit(q[3])) == data
  {
    hide Quad, Group, Triple, Digit;
    var x: Byte, y: Byte, z: Byte := data[0], if |data| > 1 then data[1] else 0, if |data| > 2 then data[2] else 0;
    QuadDigits(data);
    TripleIs(data, x, y, z);
    Sextets(x, y, z);
    Rejoined(x, y, z);
    var q := Quad(data);
    Regroup(data, Digit(q[0]), Digit(q[1]), Digit(q[2]), Digit(q[3]));
  }

  lemma QuadDigits(data: seq<Byte>)
    requires 0 < |data| <= 3
    ensures var q := Quad(data); var b := Triple(data);
            && |q| == 4 && Digit(q[0]) == b / 0x4_0000 % 64 && Digit(q[1]) == b / 0x1000 % 64
            && Digit(q[2]) == (if |data| > 1 then b / 64 % 64 else -1)
            && Digit(q[3]) == (if |data| > 2 then b % 64 else -1)
  {
    hide Letter, Digit, Triple;
    var b := Triple(data);
    LetterDigit(b / 0x4_0000 % 64);
    LetterDigit(b / 0x1000 % 64);
    LetterDigit(b / 64 % 64);
    LetterDigit(b % 64);
    Padding();
  }

  lemma TripleIs(data: seq<Byte>, x: Byte, y: Byte, z: Byte)
    requires 0 < |data| <= 3 && x == data[0]
    requires y == (if |data| > 1 then data[1] else 0) && z == if |data| > 2 then data[2] else 0
    ensures Triple(data) == x as int * 65536 + y as int * 256 + z
  {
  }

  lemma Regroup(data: seq<Byte>, a: nat, b: nat, c: int, d: int)
    requires 0 < |data| <= 3 && a < 64 && b < 64 && -1 <= c < 64 && -1 <= d < 64
    requires 4 * a + b / 16 == data[0]
    requires if |data| > 1 then c >= 0 && (16 * b + c / 4) % 256 == data[1] else c == -1
    requires if |data| > 2 then d >= 0 && (64 * c + d) % 256 == data[2] else d == -1
    ensures Group(a, b, c, d) == data
  {
  }

  lemma Padding()
    ensures Digit('=') == -1 && Digit('-') == -1 && Digit('_') == -1
  {
  }

  // The four sextets of three bytes.
  lemma Sextets(x: Byte, y: Byte, z: Byte)
    ensures var b := x as int * 65536 + y as int * 256 + z;
            && b / 0x4_0000 % 64 == x / 4
            && b / 0x1000 % 64 == 16 * (x % 4) + y / 16
            && b / 64 % 64 == 4 * (y % 16) + z / 64
            && b % 64 == z % 64
  {
    var x0, x1, y0, y1, z0, z1 := x as int / 4, x as int % 4, y as int / 16, y as int % 16, z as int / 64,
      z as int % 64;
    var b := x as int * 65536 + y as int * 256 + z;
    DivIs(b, 0x4_0000, x0, 65536 * x1 + 256 * y as int + z);
    DivIs(b, 0x1000, 64 * x0 + (16 * x1 + y0), 256 * y1 + z);
    DivIs(b, 64, 64 * (64 * x0 + 16 * x1 + y0) + (4 * y1 + z0), z1);
    DivIs(x0, 64, 0, x0);
    DivIs(64 * x0 + (16 * x1 + y0), 64, x0, 16 * x1 + y0);
    DivIs(64 * (64 * x0 + 16 * x1 + y0) + (4 * y1 + z0), 64, 64 * x0 + 16 * x1 + y0, 4 * y1 + z0);
  }

  lemma DivIs(b: int, k: int, q: int, r: int)
    requires k == 64 || k == 0x1000 || k == 0x4_0000
    requires b == k * q + r && 0 <= r < k
    ensures b / k == q && b % k == r
  {
    var d := b / k - q;
    assert d > 0 ==> k * d >= k;
    assert d < 0 ==> k * d <= -k;
  }

  lemma Rejoined(x: Byte, y: Byte, z: Byte)
    ensures 4 * (x / 4) + (16 * (x % 4) + y / 16) / 16 == x
    ensures (16 * (16 * (x % 4) + y / 16) + (4 * (y % 16) + z / 64) / 4) % 256 == y
    ensures (64 * (4 * (y % 16) + z / 64) + z % 64) % 256 == z
  {
    assert 16 * (16 * (x % 4) + y / 16) + (4 * (y % 16) + z / 64) / 4 == 256 * (x % 4) + y;
    assert 64 * (4 * (y % 16) + z / 64) + z % 64 == 256 * (y % 16) + z;
  }

  // Decoding what was encoded gives the bytes back, whatever their number.
  lemma {:induction false} RoundTrip(data: seq<Byte>)
    ensures Decoded(Encoded(data)) == data
    decreases |data|
  {
    hide Quad, Group;
    if data != [] {
      var n := if |data| <= 3 then |data| else 3;
      Front(data, n);
      QuadBack(data[..n]);
      RoundTrip(data[n..]);
      DecodedGroup(Quad(data[..n]), Encoded(data[n..]));
      assert data == data[..n] + data[n..];
    }
  }

  lemma DecodedGroup(q: string, rest: string)
    requires |q| == 4 && Digit(q[0]) >= 0 && Digit(q[1]) >= 0
    ensures Decoded(q + rest) == Group(Digit(q[0]), Digit(q[1]), Digit(q[2]), Digit(q[3])) + Decoded(rest)
  {
    hide Group;
    assert (q + rest)[4..] == rest;
  }

  // ---------- the URL-safe form ----------

  function ToUrl(s: string): string {
    if s == "" then ""
    else (if s[0] == '+' then "-" else if s[0] == '/' then "_" else if s[0] == '=' then "" else [s[0]]) + ToUrl(s[1..])
  }

  function FromUrl(s: string): string {
    if s == "" then "" else [if s[0] == '-' then '+' else if s[0] == '_' then '/' else s[0]] + FromUrl(s[1..])
  }

  function Padded(s: string): string
    decreases (4 - |s| % 4) % 4
  {
    if |s| % 4 == 0 then s else Padded(s + "=")
  }

  method UrlEncode(data: array<Byte>) returns (out: string)
    ensures out == ToUrl(Encoded(data[..]))
  {
    hide ToUrl, Encoded;
    var s := Encode(data);
    out := "";
    var i := 0;
    assert s[0..] == s;
    while i < |s|
      invariant 0 <= i <= |s| && out + ToUrl(s[i..]) == ToUrl(s)
    {
      ToUrlStep(s, i);
      if s[i] == '+' {
        out := out + "-";
      } else if s[i] == '/' {
        out := out + "_";
      } else if s[i] != '=' {
        out := out + [s[i]];
      }
      i := i + 1;
    }
    NoneLeft(s);
  }

  lemma ToUrlStep(s: string, i: nat)
    requires i < |s|
    ensures ToUrl(s[i..]) == (if s[i] == '+' then "-" else if s[i] == '/' then "_" else if s[i] == '=' then ""
                              else [s[i]])
                             + ToUrl(s[i + 1..])
  {
    assert s[i..][1..] == s[i + 1..];
  }

  lemma FromUrlStep(s: string, i: nat)
    requires i < |s|
    ensures FromUrl(s[i..]) == [if s[i] == '-' then '+' else if s[i] == '_' then '/' else s[i]] + FromUrl(s[i + 1..])
  {
    assert s[i..][1..] == s[i + 1..];
  }

  lemma NoneLeft(s: string)
    ensures ToUrl(s[|s|..]) == "" && FromUrl(s[|s|..]) == ""
  {
  }

  method UrlDecode(s: string) returns (out: seq<Byte>)
    ensures out == Decoded(Padded(FromUrl(s)))
  {
    hide FromUrl, Decoded;
    var padded := "";
    var i := 0;
    assert s[0..] == s;
    while i < |s|
      invariant 0 <= i <= |s| && padded + FromUrl(s[i..]) == FromUrl(s)
    {
      FromUrlStep(s, i);
      padded := padded + [if s[i] == '-' then '+' else if s[i] == '_' then '/' else s[i]];
      i := i + 1;
    }
    NoneLeft(s);
    assert padded + "" == padded;
    while |padded| % 4 != 0
      invariant Padded(padded) == Padded(FromUrl(s))
      decreases (4 - |padded| % 4) % 4
    {
      padded := padded + "=";
    }
    out := Decode(padded);
  }

  lemma {:induction false} ToUrlCat(s: string, t: string)
    ensures ToUrl(s + t) == ToUrl(s) + ToUrl(t)
    decreases |s|
  {
    if s == "" {
      assert s + t == t;
    } else {
      assert (s + t)[1..] == s[1..] + t;
      ToUrlCat(s[1..], t);
    }
  }

  lemma {:induction false} FromUrlCat(s: string, t: string)
    ensures FromUrl(s + t) == FromUrl(s) + FromUrl(t)
    decreases |s|
  {
    if s == "" {
      assert s + t == t;
    } else {
      assert (s + t)[1..] == s[1..] + t;
      FromUrlCat(s[1..], t);
    }
  }

  // A letter survives the detour; the padding is dropped.
  lemma OneBack(v: nat)
    requires v < 64
    ensures FromUrl(ToUrl([Letter(v)])) == [Letter(v)]
  {
    LetterDigit(v);
    assert [Letter(v)][1..] == "";
  }

  function Unpadded(data: seq<Byte>): string
    requires |data| <= 3
  {
    if data == [] then "" else Quad(data)[..|data| + 1]
  }

  // The characters of one group without its padding.
  lemma QuadDetour(data: seq<Byte>)
    requires 0 < |data| <= 3
    ensures FromUrl(ToUrl(Quad(data))) == Unpadded(data)
  {
    hide Letter, ToUrl, FromUrl;
    var b := Triple(data);
    var v0, v1, v2, v3 := b / 0x4_0000 % 64, b / 0x1000 % 64, b / 64 % 64, b % 64;
    var p, q := [Letter(v0)], [Letter(v1)];
    var r := if |data| > 1 then [Letter(v2)] else "=";
    var t := if |data| > 2 then [Letter(v3)] else "=";
    OneBack(v0);
    OneBack(v1);
    OneBack(v2);
    OneBack(v3);
    PadDropped();
    assert Quad(data) == p + (q + (r + t));
    ToUrlCat(p, q + (r + t));
    ToUrlCat(q, r + t);
    ToUrlCat(r, t);
    FromUrlCat(ToUrl(p), ToUrl(q) + (ToUrl(r) + ToUrl(t)));
    FromUrlCat(ToUrl(q), ToUrl(r) + ToUrl(t));
    FromUrlCat(ToUrl(r), ToUrl(t));
    assert Quad(data)[..|data| + 1] == p + (q + ((if |data| > 1 then r else "") + (if |data| > 2 then t else "")));
  }

  lemma PadDropped()
    ensures FromUrl(ToUrl("=")) == ""
  {
    assert "="[1..] == "";
  }

  // The whole detour: the encoding without its padding.
  lemma {:induction false} Detour(data: seq<Byte>)
    ensures var s := FromUrl(ToUrl(Encoded(data)));
            Padded(s) == Encoded(data) && |Encoded(data)| % 4 == 0
    decreases |data|
  {
    hide Quad, ToUrl, FromUrl, Unpadded;
    if data == [] {
      EmptyDetour();
    } else {
      var n := if |data| <= 3 then |data| else 3;
      var head, tail := data[..n], data[n..];
      Front(data, n);
      QuadDetour(head);
      ToUrlCat(Quad(head), Encoded(tail));
      FromUrlCat(ToUrl(Quad(head)), ToUrl(Encoded(tail)));
      Detour(tail);
      var s := FromUrl(ToUrl(Encoded(tail)));
      GroupPadded(head);
      if n == 3 {
        PaddedBehind(Quad(head), s);
      } else {
        EmptyDetour();
        assert tail == [] && Unpadded(head) + "" == Unpadded(head) && Quad(head) + "" == Quad(head);
      }
    }
  }

  lemma EmptyDetour()
    ensures FromUrl(ToUrl("")) == "" && Encoded([]) == ""
  {
  }

  lemma GroupPadded(data: seq<Byte>)
    requires 0 < |data| <= 3
    ensures Padded(Unpadded(data)) == Quad(data) && |Quad(data)| == 4
    ensures |data| == 3 ==> Unpadded(data) == Quad(data)
  {
    hide Letter;
    var q, u := Quad(data), Unpadded(data);
    if |data| == 1 {
      assert q == u + "=" + "=";
      assert Padded(u) == Padded(u + "=") == Padded(u + "=" + "=");
    } else if |data| == 2 {
      assert q == u + "=";
    }
  }

  lemma {:induction false} PaddedBehind(q: string, s: string)
    requires |q| == 4
    ensures Padded(q + s) == q + Padded(s)
    decreases (4 - |s| % 4) % 4
  {
    if |s| % 4 != 0 {
      PaddedBehind(q, s + "=");
      assert q + s + "=" == q + (s + "=");
    }
  }

  // The URL-safe form comes back too, through the padding that is put on again.
  lemma UrlRoundTrip(data: seq<Byte>)
    ensures Decoded(Padded(FromUrl(ToUrl(Encoded(data))))) == data
  {
    Detour(data);
    RoundTrip(data);
  }

  // ---------- the alphabets ----------

  predicate UrlSafe(c: char) {
    'A' <= c <= 'Z' || 'a' <= c <= 'z' || '0' <= c <= '9' || c == '-' || c == '_'
  }

  lemma {:induction false} EncodedLetters(data: seq<Byte>)
    ensures forall i :: 0 <= i < |Encoded(data)| ==> Digit(Encoded(data)[i]) >= 0 || Encoded(data)[i] == '='
    ensures |Encoded(data)| == 4 * ((|data| + 2) / 3)
    decreases |data|
  {
    hide Letter, Digit;
    if data != [] {
      var n := if |data| <= 3 then |data| else 3;
      Front(data, n);
      EncodedLetters(data[n..]);
      var b := Triple(data[..n]);
      LetterDigit(b / 0x4_0000 % 64);
      LetterDigit(b / 0x1000 % 64);
      LetterDigit(b / 64 % 64);
      LetterDigit(b % 64);
    }
  }

  lemma {:induction false} ToUrlSafe(s: string)
    requires forall i :: 0 <= i < |s| ==> Digit(s[i]) >= 0 || s[i] == '='
    ensures forall i :: 0 <= i < |ToUrl(s)| ==> UrlSafe(ToUrl(s)[i])
    decreases |s|
  {
    if s != "" {
      ToUrlSafe(s[1..]);
    }
  }

  // The URL-safe form holds only characters of its own alphabet: no sign, slash or padding.
  lemma UrlAlphabet(data: seq<Byte>)
    ensures var s := ToUrl(Encoded(data)); forall i :: 0 <= i < |s| ==> UrlSafe(s[i])
  {
    hide UrlSafe, Digit;
    EncodedLetters(data);
    ToUrlSafe(Encoded(data));
  }

  const CAPITALS := "ABCDEFGHIJKLMNOPQRSTUVWXYZ"
  const SMALL := "abcdefghijklmnopqrstuvwxyz"
  const ALPHABET := CAPITALS + SMALL + "0123456789+/"
  const URL_ALPHABET := CAPITALS + SMALL + "0123456789-_"

  // The letter of each of the 64 values, by the tables of sections 4 and 5 of RFC 4648.
  lemma LetterIs(v: nat)
    requires v < 64
    ensures Letter(v) == ALPHABET[v]
    ensures URL_ALPHABET[v] == if v == 62 then '-' else if v == 63 then '_' else ALPHABET[v]
  {
    LetterCode(v);
    AlphabetCode(v);
  }

  lemma LetterCode(v: nat)
    requires v < 64
    ensures Letter(v) as int == if v < 26 then 65 + v else if v < 52 then 71 + v else if v < 62 then v - 4
                                else if v == 62 then 43 else 47
  {
  }

  lemma AlphabetCode(v: nat)
    requires v < 64
    ensures ALPHABET[v] as int == if v < 26 then 65 + v else if v < 52 then 71 + v else if v < 62 then v - 4
                                  else if v == 62 then 43 else 47
    ensures URL_ALPHABET[v] == if v == 62 then '-' else if v == 63 then '_' else ALPHABET[v]
  {
    if v < 26 {
      CapitalCode(v);
      assert ALPHABET[v] == CAPITALS[v];
    } else if v < 52 {
      SmallCode(v - 26);
      assert ALPHABET[v] == SMALL[v - 26];
    } else {
      assert ALPHABET[v] == "0123456789+/"[v - 52] && URL_ALPHABET[v] == "0123456789-_"[v - 52];
      OtherCode(v - 52);
    }
  }

  lemma CapitalCode(v: nat)
    requires v < 26
    ensures CAPITALS[v] as int == 65 + v
  {
    if
    case v == 0 => assert CAPITALS[0] == 'A';
    case v == 1 => assert CAPITALS[1] == 'B';
    case v == 2 => assert CAPITALS[2] == 'C';
    case v == 3 => assert CAPITALS[3] == 'D';
    case v == 4 => assert CAPITALS[4] == 'E';
    case v == 5 => assert CAPITALS[5] == 'F';
    case v == 6 => assert CAPITALS[6] == 'G';
    case v == 7 => assert CAPITALS[7] == 'H';
    case v == 8 => assert CAPITALS[8] == 'I';
    case v == 9 => assert CAPITALS[9] == 'J';
    case v == 10 => assert CAPITALS[10] == 'K';
    case v == 11 => assert CAPITALS[11] == 'L';
    case v == 12 => assert CAPITALS[12] == 'M';
    case v == 13 => assert CAPITALS[13] == 'N';
    case v == 14 => assert CAPITALS[14] == 'O';
    case v == 15 => assert CAPITALS[15] == 'P';
    case v == 16 => assert CAPITALS[16] == 'Q';
    case v == 17 => assert CAPITALS[17] == 'R';
    case v == 18 => assert CAPITALS[18] == 'S';
    case v == 19 => assert CAPITALS[19] == 'T';
    case v == 20 => assert CAPITALS[20] == 'U';
    case v == 21 => assert CAPITALS[21] == 'V';
    case v == 22 => assert CAPITALS[22] == 'W';
    case v == 23 => assert CAPITALS[23] == 'X';
    case v == 24 => assert CAPITALS[24] == 'Y';
    case v == 25 => assert CAPITALS[25] == 'Z';
  }

  lemma SmallCode(v: nat)
    requires v < 26
    ensures SMALL[v] as int == 97 + v
  {
    if
    case v == 0 => assert SMALL[0] == 'a';
    case v == 1 => assert SMALL[1] == 'b';
    case v == 2 => assert SMALL[2] == 'c';
    case v == 3 => assert SMALL[3] == 'd';
    case v == 4 => assert SMALL[4] == 'e';
    case v == 5 => assert SMALL[5] == 'f';
    case v == 6 => assert SMALL[6] == 'g';
    case v == 7 => assert SMALL[7] == 'h';
    case v == 8 => assert SMALL[8] == 'i';
    case v == 9 => assert SMALL[9] == 'j';
    case v == 10 => assert SMALL[10] == 'k';
    case v == 11 => assert SMALL[11] == 'l';
    case v == 12 => assert SMALL[12] == 'm';
    case v == 13 => assert SMALL[13] == 'n';
    case v == 14 => assert SMALL[14] == 'o';
    case v == 15 => assert SMALL[15] == 'p';
    case v == 16 => assert SMALL[16] == 'q';
    case v == 17 => assert SMALL[17] == 'r';
    case v == 18 => assert SMALL[18] == 's';
    case v == 19 => assert SMALL[19] == 't';
    case v == 20 => assert SMALL[20] == 'u';
    case v == 21 => assert SMALL[21] == 'v';
    case v == 22 => assert SMALL[22] == 'w';
    case v == 23 => assert SMALL[23] == 'x';
    case v == 24 => assert SMALL[24] == 'y';
    case v == 25 => assert SMALL[25] == 'z';
  }

  lemma OtherCode(v: nat)
    requires v < 12
    ensures "0123456789+/"[v] as int == if v < 10 then 48 + v else if v == 10 then 43 else 47
    ensures "0123456789-_"[v] == if v == 10 then '-' else if v == 11 then '_' else "0123456789+/"[v]
  {
    if
    case v == 0 =>
    case v == 1 =>
    case v == 2 =>
    case v == 3 =>
    case v == 4 =>
    case v == 5 =>
    case v == 6 =>
    case v == 7 =>
    case v == 8 =>
    case v == 9 =>
    case v == 10 =>
    case v == 11 =>
  }

  lemma DigitIs(c: char, v: nat)
    requires v < 64
    ensures Digit(c) == v <==> c == ALPHABET[v]
  {
    LetterIs(v);
  }

  // Byte `i`, or zero behind the end.
  function ByteAt(data: seq<Byte>, i: nat): Byte {
    if i < |data| then data[i] else 0
  }

  // Each four characters are the letters of the six-bit parts of three bytes, the first
  // highest; what the bytes do not reach is padding.
  lemma {:induction false} EncodedExact(data: seq<Byte>, g: nat) returns (a: nat, b: nat, c: nat, d: nat)
    requires 3 * g < |data|
    ensures a < 64 && b < 64 && c < 64 && d < 64
    ensures 262144 * a + 4096 * b + 64 * c + d
         == 65536 * ByteAt(data, 3 * g) + 256 * ByteAt(data, 3 * g + 1) + ByteAt(data, 3 * g + 2)
    ensures |Encoded(data)| >= 4 * g + 4
    ensures Encoded(data)[4 * g..4 * g + 4]
         == [ALPHABET[a], ALPHABET[b], if 3 * g + 1 < |data| then ALPHABET[c] else '=',
             if 3 * g + 2 < |data| then ALPHABET[d] else '=']
    decreases g
  {
    hide Letter, Quad, Encoded, ALPHABET;
    var n := if |data| <= 3 then |data| else 3;
    Front(data, n);
    var e := Encoded(data);
    if g == 0 {
      a, b, c, d := QuadExact(data[..n]);
      assert e[..4] == Quad(data[..n]);
    } else {
      a, b, c, d := EncodedExact(data[3..], g - 1);
      QuadLength(data[..n]);
      var rest := Encoded(data[3..]);
      assert e[4 * g..4 * g + 4] == rest[4 * (g - 1)..4 * (g - 1) + 4];
    }
  }

  lemma QuadExact(data: seq<Byte>) returns (a: nat, b: nat, c: nat, d: nat)
    requires 0 < |data| <= 3
    ensures a < 64 && b < 64 && c < 64 && d < 64
    ensures 262144 * a + 4096 * b + 64 * c + d == 65536 * ByteAt(data, 0) + 256 * ByteAt(data, 1) + ByteAt(data, 2)
    ensures Quad(data) == [ALPHABET[a], ALPHABET[b], if |data| > 1 then ALPHABET[c] else '=',
                           if |data| > 2 then ALPHABET[d] else '=']
  {
    hide Letter;
    var n := Triple(data);
    a, b, c, d := n / 0x4_0000 % 64, n / 0x1000 % 64, n / 64 % 64, n % 64;
    LetterIs(a);
    LetterIs(b);
    LetterIs(c);
    LetterIs(d);
    Sextuple(n);
  }

  lemma Sextuple(n: nat)
    requires n < 0x100_0000
    ensures 262144 * (n / 0x4_0000 % 64) + 4096 * (n / 0x1000 % 64) + 64 * (n / 64 % 64) + n % 64 == n
  {
    var x, y := n / 64, n / 64 / 64;
    var z := y / 64;
    DivIs(n, 0x1000, y, 64 * (x % 64) + n % 64);
    DivIs(n, 0x4_0000, z, 4096 * (y % 64) + 64 * (x % 64) + n % 64);
    DivIs(z, 64, 0, z);
  }

  lemma QuadLength(data: seq<Byte>)
    ensures |Quad(data)| == 4
  {
  }

  // The URL-safe form is the encoding letter by letter, in the other alphabet, up to its
  // padding.
  lemma {:induction false} UrlLetters(s: string, n: nat)
    requires n <= |s| && (forall i :: 0 <= i < n ==> s[i] in ALPHABET) && forall i :: n <= i < |s| ==> s[i] == '='
    ensures |ToUrl(s)| == n
    ensures forall i, v: nat :: 0 <= i < n && v < 64 && s[i] == ALPHABET[v] ==> ToUrl(s)[i] == URL_ALPHABET[v]
    decreases |s|
  {
    hide Letter, ALPHABET, URL_ALPHABET;
    Lengths();
    if s != "" {
      if n > 0 {
        assert s[0] in ALPHABET;
        var v: nat :| v < 64 && s[0] == ALPHABET[v];
        OtherLetter(v);
        UrlLetters(s[1..], n - 1);
        forall i, w: nat | 0 <= i < n && w < 64 && s[i] == ALPHABET[w]
          ensures ToUrl(s)[i] == URL_ALPHABET[w]
        {
          OtherLetter(w);
          if i > 0 {
            assert s[1..][i - 1] == s[i];
          }
        }
      } else {
        assert s[0] == '=';
        UrlLetters(s[1..], 0);
      }
    }
  }

  lemma Lengths()
    ensures |ALPHABET| == 64 && |URL_ALPHABET| == 64 && '=' !in ALPHABET
  {
    forall v: nat | v < 64
      ensures ALPHABET[v] != '='
    {
      OtherLetter(v);
    }
  }

  lemma OtherLetter(v: nat)
    requires v < 64
    ensures var c := ALPHABET[v];
            c != '=' && URL_ALPHABET[v] == if c == '+' then '-' else if c == '/' then '_' else c
  {
    LetterIs(v);
    LetterDigit(v);
  }

  // The place of a letter or of padding.
  lemma LetterPlace(data: seq<Byte>, i: nat)
    requires i < |Encoded(data)|
    ensures if i < (4 * |data| + 2) / 3 then Encoded(data)[i] in ALPHABET else Encoded(data)[i] == '='
  {
    hide Encoded, ALPHABET;
    Lengths();
    EncodedLetters(data);
    var g, k := i / 4, i % 4;
    var a, b, c, d := EncodedExact(data, g);
    var four := Encoded(data)[4 * g..4 * g + 4];
    assert Encoded(data)[i] == four[k];
    assert 3 * g + 1 < |data| <==> 4 * g + 2 < (4 * |data| + 2) / 3;
    assert 3 * g + 2 < |data| <==> 4 * g + 3 < (4 * |data| + 2) / 3;
  }

  // So it has a letter for every six bits begun, each that of the plain encoding but from the
  // other table.
  lemma UrlExact(data: seq<Byte>)
    ensures |ToUrl(Encoded(data))| == (4 * |data| + 2) / 3 <= |Encoded(data)|
    ensures forall i, v: nat :: 0 <= i < (4 * |data| + 2) / 3 && v < 64 && Encoded(data)[i] == ALPHABET[v] ==>
              ToUrl(Encoded(data))[i] == URL_ALPHABET[v]
  {
    hide Encoded, ToUrl, ALPHABET, URL_ALPHABET;
    EncodedLetters(data);
    var e, n := Encoded(data), (4 * |data| + 2) / 3;
    assert n <= |e|;
    forall i | 0 <= i < |e|
      ensures if i < n then e[i] in ALPHABET else e[i] == '='
    {
      LetterPlace(data, i);
    }
    UrlLetters(e, n);
  }
}
