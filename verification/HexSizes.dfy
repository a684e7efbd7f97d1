/** What the sizes of a chunked body mean: numerals of base 16, and the decoder on the bodies
    written with them. */
module HexSizes {
  import opened Options
  import opened Strings
  import opened ChunkedBodies

  const LOWER := "0123456789abcdef"
  const UPPER := "0123456789ABCDEF"

  // A numeral of `n`: its last letter stands for the remainder by 16, the letters before it
  // for the quotient. Either case, and zeros in front, are allowed.
  predicate Means(s: string, n: nat)
    decreases |s|
  {
    && s != ""
    && (s[|s| - 1] == LOWER[n % 16] || s[|s| - 1] == UPPER[n % 16])
    && (if |s| == 1 then n < 16 else Means(s[..|s| - 1], n / 16))
  }

  // The shortest numeral of `n`, by repeated division.
  function Numeral(n: nat, letters: string): string
    requires |letters| == 16
  {
    (if n < 16 then "" else Numeral(n / 16, letters)) + [letters[n % 16]]
  }

  predicate AllHex(s: string) {
    forall i :: 0 <= i < |s| ==> Digit(s[i]).Some?
  }

  lemma {:induction false} NumeralMeans(n: nat)
    ensures Means(Numeral(n, LOWER), n) && Means(Numeral(n, UPPER), n)
  {
    if n >= 16 {
      NumeralMeans(n / 16);
      forall letters | letters == LOWER || letters == UPPER
        ensures Numeral(n, letters)[..|Numeral(n, letters)| - 1] == Numeral(n / 16, letters)
      {
      }
    }
  }

  lemma DigitIs(c: char, d: nat)
    requires d < 16
    ensures Digit(c) == Some(d) <==> c == LOWER[d] || c == UPPER[d]
  {
    assert LOWER[0] == '0' && LOWER[9] == '9' && LOWER[10] == 'a' && LOWER[15] == 'f';
    assert UPPER[0] == '0' && UPPER[9] == '9' && UPPER[10] == 'A' && UPPER[15] == 'F';
    LetterAt(d);
  }

  lemma LetterAt(d: nat)
    requires d < 16
    ensures LOWER[d] as int == if d < 10 then 48 + d else 87 + d
    ensures UPPER[d] as int == if d < 10 then 48 + d else 55 + d
  {
    if
    case d == 0 =>
    case d == 1 =>
    case d == 2 =>
    case d == 3 =>
    case d == 4 =>
    case d == 5 =>
    case d == 6 =>
    case d == 7 =>
    case d == 8 =>
    case d == 9 =>
    case d == 10 =>
    case d == 11 =>
    case d == 12 =>
    case d == 13 =>
    case d == 14 =>
    case d == 15 =>
  }

  lemma DigitSmall(c: char)
    ensures Digit(c).Some? ==> Digit(c).value < 16
  {
  }

  lemma {:induction false} DigitsLast(s: string, c: char, acc: nat)
    requires AllHex(s) && Digit(c).Some?
    ensures Digits(s + [c], acc) == 16 * Digits(s, acc) + Digit(c).value
    decreases |s|
  {
    hide Digit;
    if s == "" {
      assert s + [c] == [c] && [c][1..] == "";
      assert Digits("", 16 * acc + Digit(c).value) == 16 * acc + Digit(c).value;
    } else {
      assert (s + [c])[1..] == s[1..] + [c];
      DigitsLast(s[1..], c, 16 * acc + Digit(s[0]).value);
    }
  }

  // The digits of a text mean what `Digits` makes of them.
  lemma {:induction false} MeansExact(s: string, n: nat)
    ensures Means(s, n) <==> s != "" && AllHex(s) && Digits(s, 0) == n
    decreases |s|
  {
    hide Digit, Digits;
    if s != "" {
      var front, c := s[..|s| - 1], s[|s| - 1];
      assert s == front + [c];
      DigitSmall(c);
      DigitIs(c, n % 16);
      if Digit(c).Some? {
        DigitIs(c, Digit(c).value);
      }
      AllHexLast(front, c);
      if |s| == 1 {
        OneDigit(c);
      } else {
        MeansExact(front, n / 16);
        if AllHex(s) {
          DigitsLast(front, c, 0);
          Divided(Digits(front, 0), Digit(c).value, n);
        }
      }
    }
  }

  lemma Divided(q: nat, d: nat, n: nat)
    requires d < 16
    ensures 16 * q + d == n <==> q == n / 16 && d == n % 16
  {
  }

  lemma OneDigit(c: char)
    ensures AllHex([c]) <==> Digit(c).Some?
    ensures Digit(c).Some? ==> Digits([c], 0) == Digit(c).value
  {
    assert [c][0] == c && [c][1..] == "";
  }

  lemma AllHexLast(s: string, c: char)
    ensures AllHex(s + [c]) <==> AllHex(s) && Digit(c).Some?
  {
    hide Digit;
    var u := s + [c];
    assert u[|s|] == c;
    if AllHex(u) {
      forall i | 0 <= i < |s|
        ensures Digit(s[i]).Some?
      {
        assert u[i] == s[i];
      }
    }
    if AllHex(s) && Digit(c).Some? {
      forall i | 0 <= i < |u|
        ensures Digit(u[i]).Some?
      {
        assert u[i] == if i < |s| then s[i] else c;
      }
    }
  }

  // ---------- what `std::stoul` reads ----------

  const BLANKS := " \t\n\U{0B}\U{0C}\r"

  predicate Blank(s: string) {
    forall i :: 0 <= i < |s| ==> s[i] in BLANKS
  }

  predicate Hex(c: char) {
    c in LOWER || c in UPPER
  }

  predicate BeginsHex(s: string) {
    s != "" && Hex(s[0])
  }

  // The parts of a text with a number at its front, after any blanks: the longest sign,
  // prefix and digits that can be read there.
  predicate Splits(blanks: string, sign: string, prefix: string, digits: string, tail: string, n: nat) {
    && Blank(blanks)
    && (sign == "" || sign == "+" || sign == "-")
    && (prefix == "" || prefix == "0x" || prefix == "0X")
    && Means(digits, n) && !BeginsHex(tail)
    && !(prefix == "" && digits == "0" && tail != "" && (tail[0] == 'x' || tail[0] == 'X') && BeginsHex(tail[1..]))
  }

  // A text so composed is read as its number, negated modulo 2^64 behind a minus sign, unless
  // the number does not fit 64 bits.
  lemma StoulReads(blanks: string, sign: string, prefix: string, digits: string, tail: string, n: nat)
    requires Splits(blanks, sign, prefix, digits, tail, n)
    ensures Stoul(blanks + sign + prefix + digits + tail)
         == if n >= 0x1_0000_0000_0000_0000 then None
            else if sign == "-" && n > 0 then Some(0x1_0000_0000_0000_0000 - n) else Some(n)
  {
    hide Means, Digits, Digit, SkipSpaces, Hex, Unprefixed, IsSpace, Blank;
    var u := digits + tail;
    var t := sign + (prefix + u);
    assert blanks + sign + prefix + digits + tail == blanks + t;
    MeansExact(digits, n);
    assert digits[0] == u[0] && Digit(digits[0]).Some?;
    NotBlank(digits[0]);
    SkipBlanks(blanks, t);
    assert t[0] == if sign != "" then sign[0] else (prefix + u)[0];
    assert sign != "" ==> t[1..] == prefix + u;
    assert sign == "" ==> t == prefix + u;
    Prefixed(prefix, digits, tail);
    DigitsStop(digits, tail, 0);
  }

  lemma NotBlank(c: char)
    ensures Digit(c).Some? ==> !IsSpace(c) && c != '-' && c != '+' && c != 'x' && c != 'X'
    ensures !IsSpace('+') && !IsSpace('-') && !IsSpace('0')
    ensures Hex(c) <==> Digit(c).Some?
  {
    if Digit(c).Some? {
      DigitIs(c, Digit(c).value);
    }
    if c in LOWER {
      var d: nat :| d < 16 && LOWER[d] == c;
      DigitIs(c, d);
    }
    if c in UPPER {
      var d: nat :| d < 16 && UPPER[d] == c;
      DigitIs(c, d);
    }
  }

  lemma BlankIs(c: char)
    ensures c in BLANKS <==> IsSpace(c)
  {
    assert BLANKS[0] == ' ' && BLANKS[1] == '\t' && BLANKS[2] == '\n' && BLANKS[3] == '\U{0B}' && BLANKS[4] == '\U{0C}'
        && BLANKS[5] == '\r';
  }

  lemma {:induction false} SkipBlanks(blanks: string, t: string)
    requires Blank(blanks) && t != "" && !IsSpace(t[0])
    ensures SkipSpaces(blanks + t) == t
    decreases |blanks|
  {
    hide IsSpace;
    if blanks == "" {
      assert blanks + t == t;
    } else {
      BlankIs(blanks[0]);
      assert (blanks + t)[1..] == blanks[1..] + t;
      SkipBlanks(blanks[1..], t);
    }
  }

  lemma {:induction false} DigitsStop(s: string, tail: string, acc: nat)
    requires AllHex(s) && !BeginsHex(tail)
    ensures Digits(s + tail, acc) == Digits(s, acc)
    decreases |s|
  {
    hide Digit, Hex;
    if s == "" {
      assert s + tail == tail;
      if tail != "" {
        NotBlank(tail[0]);
      }
    } else {
      assert (s + tail)[1..] == s[1..] + tail;
      DigitsStop(s[1..], tail, 16 * acc + Digit(s[0]).value);
    }
  }

  lemma Prefixed(prefix: string, digits: string, tail: string)
    requires (prefix == "" || prefix == "0x" || prefix == "0X") && digits != "" && AllHex(digits)
    requires prefix == "" ==>
               !(digits == "0" && tail != "" && (tail[0] == 'x' || tail[0] == 'X') && BeginsHex(tail[1..]))
    ensures Unprefixed(prefix + (digits + tail)) == digits + tail
  {
    hide Means, Digit, Hex;
    var u := digits + tail;
    var w := prefix + u;
    assert u[0] == digits[0];
    if prefix != "" {
      assert w[0] == '0' && w[1] == prefix[1] && w[2] == u[0] && w[2..] == u;
    } else {
      assert w == u;
      NotPrefixed(digits, tail);
    }
  }

  lemma NotPrefixed(digits: string, tail: string)
    requires digits != "" && AllHex(digits)
    requires !(digits == "0" && tail != "" && (tail[0] == 'x' || tail[0] == 'X') && BeginsHex(tail[1..]))
    ensures Unprefixed(digits + tail) == digits + tail
  {
    hide Digit, Hex;
    var u := digits + tail;
    if |digits| > 1 {
      assert u[1] == digits[1];
      NotBlank(u[1]);
    } else if |tail| > 1 {
      assert u[0] == digits[0] && u[1] == tail[0] && u[2] == tail[1..][0];
      NotBlank(u[2]);
    }
  }

  // And every text that is read at all is so composed.
  lemma StoulSplits(s: string)
    returns (blanks: string, sign: string, prefix: string, digits: string, tail: string, n: nat)
    requires Stoul(s).Some?
    ensures s == blanks + sign + prefix + digits + tail && Splits(blanks, sign, prefix, digits, tail, n)
    ensures n < 0x1_0000_0000_0000_0000
  {
    hide Means, Digits, Digit, SkipSpaces, Hex, Unprefixed, IsSpace, Blank, Stoul, AllHex, BeginsHex;
    blanks := Skipped(s);
    var w, u;
    sign, w, u := SignOf(s);
    prefix := CutPrefix(w);
    digits, tail := LongestHex(u);
    n := Digits(digits, 0);
    MeansExact(digits, n);
    DigitsStop(digits, tail, 0);
    if prefix == "" {
      Unsplit(digits, tail);
    }
    FivePieces(blanks, sign, prefix, digits, tail);
  }

  lemma FivePieces(a: string, b: string, c: string, d: string, e: string)
    ensures a + (b + (c + (d + e))) == a + b + c + d + e
  {
  }

  lemma SignOf(s: string) returns (sign: string, w: string, u: string)
    requires Stoul(s).Some?
    ensures SkipSpaces(s) == sign + w && (sign == "" || sign == "+" || sign == "-")
    ensures u == Unprefixed(w) && u != "" && Digit(u[0]).Some? && Digits(u, 0) < 0x1_0000_0000_0000_0000
  {
    hide Digits, Digit, SkipSpaces, Unprefixed;
    var t := SkipSpaces(s);
    sign := if t != "" && (t[0] == '-' || t[0] == '+') then t[..1] else "";
    w := t[|sign|..];
    u := Unprefixed(w);
  }

  lemma {:induction false} Skipped(s: string) returns (blanks: string)
    ensures s == blanks + SkipSpaces(s) && Blank(blanks)
    decreases |s|
  {
    hide IsSpace;
    if s != "" && IsSpace(s[0]) {
      var rest := Skipped(s[1..]);
      BlankIs(s[0]);
      blanks := [s[0]] + rest;
    } else {
      blanks := "";
    }
  }

  lemma CutPrefix(w: string) returns (prefix: string)
    ensures w == prefix + Unprefixed(w) && (prefix == "" || prefix == "0x" || prefix == "0X")
    ensures prefix == "" <==> Unprefixed(w) == w
  {
    hide Digit;
    prefix := w[..|w| - |Unprefixed(w)|];
  }

  lemma {:induction false} LongestHex(u: string) returns (digits: string, tail: string)
    ensures u == digits + tail && AllHex(digits) && !BeginsHex(tail)
    ensures u != "" && Digit(u[0]).Some? ==> digits != ""
    decreases |u|
  {
    hide Digit, Hex;
    if u != "" && Digit(u[0]).Some? {
      var d, r := LongestHex(u[1..]);
      digits, tail := [u[0]] + d, r;
      forall i | 0 <= i < |digits|
        ensures Digit(digits[i]).Some?
      {
        if i > 0 {
          assert digits[i] == d[i - 1];
        }
      }
    } else {
      digits, tail := "", u;
      if u != "" {
        NotBlank(u[0]);
      }
    }
  }

  lemma Unsplit(digits: string, tail: string)
    requires Unprefixed(digits + tail) == digits + tail
    ensures !(digits == "0" && tail != "" && (tail[0] == 'x' || tail[0] == 'X') && BeginsHex(tail[1..]))
  {
    hide Digit, Hex;
    if digits == "0" && |tail| > 1 {
      var u := digits + tail;
      assert u[0] == '0' && u[1] == tail[0] && u[2] == tail[1..][0];
      NotBlank(u[2]);
    }
  }

  // The size of a chunk, written in either case, is read back, and so is any other numeral.
  lemma NumeralRead(n: nat)
    requires n < 0x1_0000_0000_0000_0000
    ensures Stoul(Numeral(n, LOWER)) == Some(n) && Stoul(Numeral(n, UPPER)) == Some(n)
  {
    hide Means, Stoul;
    NumeralMeans(n);
    MeansRead(Numeral(n, LOWER), n);
    MeansRead(Numeral(n, UPPER), n);
  }

  lemma MeansRead(s: string, n: nat)
    requires Means(s, n)
    ensures Stoul(s) == if n >= 0x1_0000_0000_0000_0000 then None else Some(n)
  {
    hide Means, Stoul, Hex;
    assert "" + "" + "" + s + "" == s;
    StoulReads("", "", "", s, "", n);
  }
}
