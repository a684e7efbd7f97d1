/** What the formatter's layout is, told by character positions. */
module FormatLayout {
  import opened Options
  import opened Formatter

  // ---------- strings, comments and brackets ----------

  // How a character is read: as program text, inside a string that a quote will end, behind a
  // backslash there, or in a comment.
  datatype Mode = Code | Quoted(end: char) | Escaped(end: char) | Comment

  predicate BeginsComment(s: string, i: nat)
    requires i < |s|
  {
    s[i] == '#' || (s[i] == '/' && i + 1 < |s| && s[i + 1] == '/')
  }

  // The mode before character `i` of a line that begins inside the string `quote`, if any.
  function ModeAt(s: string, quote: Option<char>, i: nat): Mode
    requires i <= |s|
  {
    if i == 0 then (if quote.Some? then Quoted(quote.value) else Code)
    else
      var c := s[i - 1];
      match ModeAt(s, quote, i - 1)
      case Comment => Comment
      case Escaped(end) => Quoted(end)
      case Quoted(end) => if c == '\\' then Escaped(end) else if c == end then Code else Quoted(end)
      case Code => if c == '"' || c == '\'' then Quoted(c) else if BeginsComment(s, i - 1) then Comment else Code
  }

  // The string open at the end of a line.
  function StringLeft(s: string, quote: Option<char>): Option<char> {
    match ModeAt(s, quote, |s|)
    case Quoted(end) => Some(end)
    case Escaped(end) => Some(end)
    case _ => None
  }

  predicate Opens(c: char) {
    c in "{[("
  }

  predicate Closes(c: char) {
    c in "}])"
  }

  // Brackets opened less brackets closed by the program text before character `i`.
  function Net(s: string, quote: Option<char>, i: nat): int
    requires i <= |s|
  {
    if i == 0 then 0
    else Net(s, quote, i - 1) + (if ModeAt(s, quote, i - 1) != Code then 0
                                 else if Opens(s[i - 1]) then 1 else if Closes(s[i - 1]) then -1 else 0)
  }

  function NetOf(s: string, quote: Option<char>): int {
    Net(s, quote, |s|)
  }

  // The closing brackets a line begins with, blanks between them or not.
  function FrontClosers(s: string): nat {
    if s == "" then 0
    else if Closes(s[0]) then 1 + FrontClosers(s[1..])
    else if s[0] == ' ' || s[0] == '\t' then FrontClosers(s[1..])
    else 0
  }

  function AtLeast0(n: int): nat {
    if n < 0 then 0 else n
  }

  // The string and the depth in which line `k` begins. Lines that begin inside a string do
  // not change the depth.
  function Before(lines: seq<string>, k: nat): (Option<char>, nat)
    requires k <= |lines|
  {
    if k == 0 then (None, 0)
    else
      var (quote, depth) := Before(lines, k - 1);
      var l := lines[k - 1];
      (StringLeft(l, quote), if quote.Some? then depth else AtLeast0(depth + NetOf(l, None)))
  }

  // ---------- the scan ----------

  lemma BracketIs(c: char)
    ensures Opens(c) <==> c == '{' || c == '[' || c == '('
    ensures Closes(c) <==> c == '}' || c == ']' || c == ')'
  {
    assert "{[("[0] == '{' && "{[("[1] == '[' && "{[("[2] == '(';
    assert "}])"[0] == '}' && "}])"[1] == ']' && "}])"[2] == ')';
  }

  predicate Stands(m: Mode, quote: Option<char>) {
    if quote.Some? then m == Quoted(quote.value) else m == Code
  }

  // Behind the start of a comment nothing counts.
  lemma {:induction false} CommentRest(s: string, quote: Option<char>, i: nat, n: nat)
    requires i < n <= |s| && ModeAt(s, quote, i) == Code && BeginsComment(s, i) && s[i] != '"' && s[i] != '\''
    ensures ModeAt(s, quote, n) == Comment && Net(s, quote, n) == Net(s, quote, i)
    decreases n
  {
    BracketIs(s[i]);
    if n > i + 1 {
      CommentRest(s, quote, i, n - 1);
    }
  }

  // The scan from a character that is not behind a backslash.
  lemma {:induction false} ScanAt(s: string, quote: Option<char>, i: nat, a: Scan)
    requires i <= |s| && Stands(ModeAt(s, quote, i), a.quote)
    ensures var r := ScanFrom(s[i..], a);
            r.quote == StringLeft(s, quote) && r.delta == a.delta + NetOf(s, quote) - Net(s, quote, i)
    decreases |s| - i
  {
    hide ScanFrom;
    if i == |s| {
      ScanEnd(s[i..], a);
    } else {
      ScanStep(s, i, a);
      var c := s[i];
      BracketIs(c);
      if a.quote.Some? {
        if c == '\\' {
          if i + 1 < |s| {
            TwoSteps(s, quote, i);
            ScanAt(s, quote, i + 2, a);
          } else {
            assert s[i + 1..] == "";
            ScanEnd(s[i + 1..], a);
          }
        } else {
          ScanAt(s, quote, i + 1, if c == a.quote.value then a.(quote := None) else a);
        }
      } else if c == '#' || (c == '/' && i + 1 < |s| && s[i + 1] == '/') {
        CommentRest(s, quote, i, |s|);
      } else if c == '"' || c == '\'' {
        ScanAt(s, quote, i + 1, a.(quote := Some(c), leading := false));
      } else if Opens(c) {
        ScanAt(s, quote, i + 1, a.(delta := a.delta + 1, leading := false));
      } else if Closes(c) {
        ScanAt(s, quote, i + 1, a.(delta := a.delta - 1, closers := if a.leading then a.closers + 1 else a.closers));
      } else {
        ScanAt(s, quote, i + 1, if c != ' ' && c != '\t' then a.(leading := false) else a);
      }
    }
  }

  lemma TwoSteps(s: string, quote: Option<char>, i: nat)
    requires i + 1 < |s| && ModeAt(s, quote, i).Quoted? && s[i] == '\\'
    ensures ModeAt(s, quote, i + 2) == ModeAt(s, quote, i) && Net(s, quote, i + 2) == Net(s, quote, i)
  {
    assert ModeAt(s, quote, i + 1) == Escaped(ModeAt(s, quote, i).end);
    assert Net(s, quote, i + 1) == Net(s, quote, i);
  }

  lemma {:induction false} ClosersAt(s: string, a: Scan)
    requires !a.leading || a.quote.None?
    ensures ScanFrom(s, a).closers == a.closers + (if a.leading then FrontClosers(s) else 0)
    decreases |s|
  {
    if s != "" {
      var c := s[0];
      BracketIs(c);
      if a.quote.Some? {
        ClosersAt(if c == '\\' then (if |s| > 1 then s[2..] else "") else s[1..],
                  if c == a.quote.value && c != '\\' then a.(quote := None) else a);
      } else if c == '#' || (c == '/' && |s| > 1 && s[1] == '/') {
      } else if c == '"' || c == '\'' {
        ClosersAt(s[1..], a.(quote := Some(c), leading := false));
      } else if Opens(c) {
        ClosersAt(s[1..], a.(delta := a.delta + 1, leading := false));
      } else if Closes(c) {
        ClosersAt(s[1..], a.(delta := a.delta - 1, closers := if a.leading then a.closers + 1 else a.closers));
      } else {
        ClosersAt(s[1..], if c != ' ' && c != '\t' then a.(leading := false) else a);
      }
    }
  }

  // The scan of a line finds the string it leaves open, its brackets and its front closers.
  lemma ScanIs(s: string, quote: Option<char>)
    ensures ScanLine(s, quote).quote == StringLeft(s, quote)
    ensures ScanLine(s, quote).delta == NetOf(s, quote)
    ensures quote.None? ==> ScanLine(s, quote).closers == FrontClosers(s)
  {
    hide ScanFrom, StringLeft;
    assert s[0..] == s;
    ScanAt(s, quote, 0, Scan(quote, 0, 0, true));
    if quote.None? {
      ClosersAt(s, Scan(quote, 0, 0, true));
    }
  }

  // ---------- indentation plays no part ----------

  lemma {:induction false} SpacesLength(n: nat)
    ensures |Spaces(n)| == n && forall i :: 0 <= i < n ==> Spaces(n)[i] == ' '
  {
    if n > 0 {
      SpacesLength(n - 1);
    }
  }

  lemma {:induction false} SpacesClosers(n: nat, s: string)
    ensures FrontClosers(Spaces(n) + s) == FrontClosers(s)
    decreases n
  {
    if n == 0 {
      assert "" + s == s;
    } else {
      var t := Spaces(n) + s;
      BracketIs(' ');
      assert t[0] == ' ' && t[1..] == Spaces(n - 1) + s;
      SpacesClosers(n - 1, s);
    }
  }

  lemma {:induction false} SpacesScan(n: nat, s: string, a: Scan)
    requires a.quote.None?
    ensures ScanFrom(Spaces(n) + s, a) == ScanFrom(s, a)
    decreases n
  {
    if n == 0 {
      assert "" + s == s;
    } else {
      var t := Spaces(n) + s;
      assert t[0] == ' ' && t[1..] == Spaces(n - 1) + s;
      SpacesScan(n - 1, s, a);
    }
  }

  lemma SpacesNet(n: nat, s: string)
    ensures NetOf(Spaces(n) + s, None) == NetOf(s, None) && StringLeft(Spaces(n) + s, None) == StringLeft(s, None)
  {
    hide NetOf, StringLeft;
    ScanIs(Spaces(n) + s, None);
    ScanIs(s, None);
    SpacesScan(n, s, Scan(None, 0, 0, true));
  }

  // ---------- the lines of the layout ----------

  predicate Blank(c: char) {
    c == ' ' || c == '\t'
  }

  predicate BlankEnd(c: char) {
    c == ' ' || c == '\t' || c == '\r'
  }

  // Exactly `n` spaces, then text up to the end of the line.
  predicate Indented(l: string, n: nat) {
    && n < |l| && (forall i :: 0 <= i < n ==> l[i] == ' ')
    && !Blank(l[n]) && !BlankEnd(l[|l| - 1])
  }

  // A line that does not begin inside a string is empty, or stands behind four spaces for each
  // bracket open before it, less those it begins by closing.
  ghost predicate LaidOut(lines: seq<string>, k: nat)
    requires k < |lines|
  {
    var (quote, depth) := Before(lines, k);
    quote.Some? || lines[k] == "" || Indented(lines[k], 4 * AtLeast0(depth - FrontClosers(lines[k])))
  }

  lemma {:induction false} RStripEnd(s: string)
    ensures var r := RStrip(s); r != "" ==> !BlankEnd(r[|r| - 1])
    decreases |s|
  {
    if s != "" && BlankEnd(s[|s| - 1]) {
      RStripEnd(s[..|s| - 1]);
    }
  }

  lemma ContentIndented(raw: string, n: nat)
    requires Content(raw) != ""
    ensures Indented(Spaces(n) + Content(raw), n)
  {
    hide LStrip, RStrip;
    LStripped(raw);
    RStripped(LStrip(raw));
    RStripEnd(LStrip(raw));
    SpacesLength(n);
    var c := Content(raw);
    var l := Spaces(n) + c;
    assert l[|l| - 1] == c[|c| - 1] && l[n] == c[0];
  }

  // The layout of more lines carries on from the depth and string the laid out ones leave.
  ghost predicate Agrees(st: State, done: seq<string>) {
    Before(done, |done|) == (st.quote, st.depth)
  }

  lemma {:induction false} BeforeFront(lines: seq<string>, l: string, k: nat)
    requires k <= |lines|
    ensures Before(lines + [l], k) == Before(lines, k)
    decreases k
  {
    hide StringLeft, NetOf;
    if k > 0 {
      BeforeFront(lines, l, k - 1);
      assert (lines + [l])[k - 1] == lines[k - 1];
    }
  }

  lemma BeforeLast(done: seq<string>, l: string)
    ensures var (quote, depth) := Before(done, |done|);
            var after := if quote.Some? then depth else AtLeast0(depth + NetOf(l, None));
            Before(done + [l], |done| + 1) == (StringLeft(l, quote), after)
  {
    hide StringLeft, NetOf;
    BeforeFront(done, l, |done|);
    assert (done + [l])[|done|] == l;
  }

  lemma EmptyLine()
    ensures NetOf("", None) == 0 && StringLeft("", None) == None
  {
  }

  // What is emitted next is laid out, and the state still tells what has been laid out.
  lemma EmitLaid(st: State, done: seq<string>, raw: string)
    requires Agrees(st, done)
    ensures var (l, st1) := Emit(st, raw);
            && (l.Some? ==> Agrees(st1, done + [l.value]) && LaidOut(done + [l.value], |done|))
            && (l.None? ==> Agrees(st1, done))
  {
    hide StringLeft, NetOf, ScanLine, Content, Before, Indented, FrontClosers;
    var (l, st1) := Emit(st, raw);
    if l.Some? {
      BeforeLast(done, l.value);
      BeforeFront(done, l.value, |done|);
      assert (done + [l.value])[|done|] == l.value;
    }
    if st.quote.Some? {
      ScanIs(raw, st.quote);
    } else if Content(raw) == "" {
      EmptyLine();
    } else {
      var c := Content(raw);
      ScanIs(c, None);
      var indent := AtLeast0(st.depth - FrontClosers(c));
      SpacesNet(4 * indent, c);
      SpacesClosers(4 * indent, c);
      ContentIndented(raw, 4 * indent);
    }
  }

  lemma LaidFront(lines: seq<string>, l: string, k: nat)
    requires k < |lines|
    ensures LaidOut(lines + [l], k) <==> LaidOut(lines, k)
  {
    hide Before, Indented, FrontClosers;
    BeforeFront(lines, l, k);
    assert (lines + [l])[k] == lines[k];
  }

  lemma {:induction false} LayoutLaid(st: State, done: seq<string>, lines: seq<string>)
    requires Agrees(st, done) && forall k :: 0 <= k < |done| ==> LaidOut(done, k)
    ensures var all := done + Layout(st, lines); forall k :: 0 <= k < |all| ==> LaidOut(all, k)
    decreases |lines|
  {
    hide Emit, LaidOut, Agrees;
    if lines == [] {
      assert done + [] == done;
    } else {
      var (l, st1) := Emit(st, lines[0]);
      EmitLaid(st, done, lines[0]);
      if l.Some? {
        var next := done + [l.value];
        forall k | 0 <= k < |next|
          ensures LaidOut(next, k)
        {
          if k < |done| {
            LaidFront(done, l.value, k);
          }
        }
        LayoutLaid(st1, next, lines[1..]);
        assert next + Layout(st1, lines[1..]) == done + ([l.value] + Layout(st1, lines[1..]));
      } else {
        LayoutLaid(st1, done, lines[1..]);
        assert [] + Layout(st1, lines[1..]) == Layout(st1, lines[1..]);
      }
    }
  }

  // ---------- what is on the lines ----------

  // `c` is `l` without the blanks in front and the blanks and carriage returns behind.
  ghost predicate Strips(l: string, c: string) {
    && (c != "" ==> !Blank(c[0]) && !BlankEnd(c[|c| - 1]))
    && exists a: nat, b: nat :: Around(l, c, a, b)
  }

  ghost predicate Around(l: string, c: string, a: nat, b: nat) {
    && a <= b <= |l| && c == l[a..b]
    && (forall i :: 0 <= i < a ==> Blank(l[i])) && (forall i :: b <= i < |l| ==> BlankEnd(l[i]))
  }

  lemma {:induction false} LStripAt(s: string) returns (a: nat)
    ensures a <= |s| && LStrip(s) == s[a..] && forall i :: 0 <= i < a ==> Blank(s[i])
    decreases |s|
  {
    if s != "" && Blank(s[0]) {
      var n := LStripAt(s[1..]);
      a := n + 1;
      assert s[1..][n..] == s[a..];
      assert forall i :: 1 <= i < a ==> s[i] == s[1..][i - 1];
    } else {
      a := 0;
    }
  }

  lemma {:induction false} RStripAt(s: string) returns (b: nat)
    ensures b <= |s| && RStrip(s) == s[..b] && forall i :: b <= i < |s| ==> BlankEnd(s[i])
    decreases |s|
  {
    if s != "" && BlankEnd(s[|s| - 1]) {
      var front := s[..|s| - 1];
      b := RStripAt(front);
      assert front[..b] == s[..b];
      forall i | b <= i < |s|
        ensures BlankEnd(s[i])
      {
        assert i < |front| ==> front[i] == s[i];
      }
    } else {
      b := |s|;
    }
  }

  // The content of a line is that and nothing else.
  lemma ContentExact(l: string, c: string)
    ensures Content(l) == c <==> Strips(l, c)
  {
    hide LStrip, RStrip;
    ContentStrips(l);
    if Strips(l, c) {
      StripsOnce(l, c, Content(l));
    }
  }

  lemma ContentStrips(l: string)
    ensures Strips(l, Content(l))
  {
    hide LStrip, RStrip;
    var s := LStrip(l);
    LStripped(l);
    RStripped(s);
    RStripEnd(s);
    var a := LStripAt(l);
    var b := RStripAt(s);
    assert l[a..][..b] == l[a..a + b];
    forall i | a + b <= i < |l|
      ensures BlankEnd(l[i])
    {
      assert s[i - a] == l[i];
    }
    assert Around(l, Content(l), a, a + b);
  }

  lemma StripsOnce(l: string, c: string, d: string)
    requires Strips(l, c) && Strips(l, d)
    ensures c == d
  {
    hide Blank, BlankEnd, Around;
    var a: nat, b: nat :| Around(l, c, a, b);
    var x: nat, y: nat :| Around(l, d, x, y);
    if c != "" {
      Inside(l, c, d, a, b, x, y);
    }
    if d != "" {
      Inside(l, d, c, x, y, a, b);
    }
  }

  lemma Inside(l: string, c: string, d: string, a: nat, b: nat, x: nat, y: nat)
    requires c != "" && !Blank(c[0]) && !BlankEnd(c[|c| - 1]) && Around(l, c, a, b) && Around(l, d, x, y)
    ensures x <= a < b <= y <= |l| && c == l[a..b] && d == l[x..y]
  {
    hide Blank, BlankEnd;
    assert l[a] == c[0] && l[b - 1] == c[|c| - 1];
  }

  // Lines are told apart from text as it was split: joined they are the text, its last line
  // ended.
  lemma {:induction false} LinesJoin(cur: string, s: string)
    ensures Joined(LinesFrom(cur, s))
         == if s == "" then (if cur == "" then "" else cur + "\n")
            else if s[|s| - 1] == '\n' then cur + s else cur + s + "\n"
    decreases |s|
  {
    if s == "" {
      assert [cur][1..] == [] && cur + "\n" + "" == cur + "\n";
    } else {
      var c, rest := s[0], s[1..];
      assert s == [c] + rest;
      if c == '\n' {
        LinesJoin("", rest);
        assert ([cur] + LinesFrom("", rest))[1..] == LinesFrom("", rest);
        JoinBreak(cur, s, rest);
      } else {
        LinesJoin(cur + [c], rest);
        assert cur + [c] + rest == cur + s;
        assert rest == "" ==> cur + [c] == cur + s;
      }
      assert rest != "" ==> s[|s| - 1] == rest[|rest| - 1];
    }
  }

  lemma JoinBreak(cur: string, s: string, rest: string)
    requires s == "\n" + rest
    ensures cur + "\n" + rest == cur + s && cur + "\n" + (rest + "\n") == cur + s + "\n"
    ensures rest == "" ==> cur + "\n" + "" == cur + s
    ensures "" + rest == rest
  {
  }

  // A line by what is on it: nothing, its content, or, inside a string, everything.
  datatype Mark = Gap | Text(content: string) | Raw(line: string)

  function MarkOf(l: string, quote: Option<char>): Mark {
    if quote.Some? then Raw(l) else if Content(l) == "" then Gap else Text(Content(l))
  }

  function Marks(quote: Option<char>, lines: seq<string>): (r: seq<Mark>)
    ensures |r| == |lines|
    decreases |lines|
  {
    if lines == [] then [] else [MarkOf(lines[0], quote)] + Marks(StringLeft(lines[0], quote), lines[1..])
  }

  // Of neighbouring gaps only the first stays; `gap` says whether one stands before.
  function Collapse(ms: seq<Mark>, gap: bool): seq<Mark>
    decreases |ms|
  {
    if ms == [] then []
    else if ms[0].Gap? && gap then Collapse(ms[1..], true)
    else [ms[0]] + Collapse(ms[1..], ms[0].Gap?)
  }

  ghost predicate Spread(ms: seq<Mark>) {
    forall i :: 0 < i < |ms| ==> !(ms[i - 1].Gap? && ms[i].Gap?)
  }

  lemma {:induction false} NoTwoGaps(ms: seq<Mark>, gap: bool)
    ensures var r := Collapse(ms, gap); Spread(r) && (gap && r != [] ==> !r[0].Gap?)
    decreases |ms|
  {
    if ms != [] {
      NoTwoGaps(ms[1..], ms[0].Gap?);
      SpreadCons(ms[0], Collapse(ms[1..], ms[0].Gap?));
    }
  }

  lemma SpreadCons(m: Mark, ms: seq<Mark>)
    requires Spread(ms)
    ensures !(m.Gap? && ms != [] && ms[0].Gap?) ==> Spread([m] + ms)
  {
    var r := [m] + ms;
    if !(m.Gap? && ms != [] && ms[0].Gap?) {
      forall i | 0 < i < |r|
        ensures !(r[i - 1].Gap? && r[i].Gap?)
      {
        assert r[i] == ms[i - 1] && (i > 1 ==> r[i - 1] == ms[i - 2]);
      }
    }
  }

  lemma {:induction false} LStripScan(s: string, a: Scan)
    requires a.quote.None?
    ensures ScanFrom(s, a) == ScanFrom(LStrip(s), a)
    decreases |s|
  {
    if s != "" && Blank(s[0]) {
      LStripScan(s[1..], a);
    }
  }

  predicate QuoteModes(m: Mode) {
    (m.Quoted? || m.Escaped?) ==> m.end == '"' || m.end == '\''
  }

  lemma {:induction false} ModeFront(s: string, c: char, i: nat)
    requires i <= |s| && BlankEnd(c)
    ensures ModeAt(s + [c], None, i) == ModeAt(s, None, i) && QuoteModes(ModeAt(s, None, i))
    decreases i
  {
    if i > 0 {
      ModeFront(s, c, i - 1);
      var t := s + [c];
      assert t[i - 1] == s[i - 1];
      if i < |s| {
        assert t[i] == s[i];
      } else {
        assert t[i] == c;
      }
    }
  }

  lemma BlankLeft(s: string, c: char)
    requires BlankEnd(c)
    ensures StringLeft(s + [c], None) == StringLeft(s, None)
  {
    ModeFront(s, c, |s|);
    assert (s + [c])[|s|] == c;
  }

  lemma {:induction false} RStripLeft(s: string)
    ensures StringLeft(RStrip(s), None) == StringLeft(s, None)
    decreases |s|
  {
    hide StringLeft;
    if s != "" && BlankEnd(s[|s| - 1]) {
      RStripLeft(s[..|s| - 1]);
      BlankLeft(s[..|s| - 1], s[|s| - 1]);
      assert s[..|s| - 1] + [s[|s| - 1]] == s;
    }
  }

  // Stripping a line does not change the string it leaves open.
  lemma ContentLeft(l: string)
    ensures StringLeft(Content(l), None) == StringLeft(l, None)
  {
    hide LStrip, RStrip, StringLeft, ScanFrom;
    RStripLeft(LStrip(l));
    ScanIs(LStrip(l), None);
    ScanIs(l, None);
    LStripScan(l, Scan(None, 0, 0, true));
  }

  lemma EmitMark(st: State, raw: string)
    ensures var (l, st1) := Emit(st, raw);
            var m := MarkOf(raw, st.quote);
            && st1.quote == StringLeft(raw, st.quote) && (st1.blanks > 0 <==> m.Gap?)
            && (l.None? <==> m.Gap? && st.blanks > 0) && (l.None? ==> st1.quote == st.quote)
            && (l.Some? ==> MarkOf(l.value, st.quote) == m && StringLeft(l.value, st.quote) == st1.quote)
  {
    hide StringLeft, ScanLine, Content;
    if st.quote.Some? {
      ScanIs(raw, st.quote);
    } else {
      ContentLeft(raw);
      EmptyLine();
      NoContent();
      var c := Content(raw);
      if c != "" {
        ScanIs(c, None);
        var indent := if st.depth > FrontClosers(c) then st.depth - FrontClosers(c) else 0;
        SpacesNet(4 * indent, c);
        ContentBack(raw, 4 * indent);
      }
    }
  }

  lemma NoContent()
    ensures Content("") == ""
  {
  }

  // The layout keeps every line's content, the lines inside strings, and one of each run of
  // gaps, in their order.
  lemma {:induction false} LayoutMarks(st: State, lines: seq<string>)
    ensures Marks(st.quote, Layout(st, lines)) == Collapse(Marks(st.quote, lines), st.blanks > 0)
    decreases |lines|
  {
    hide Emit, MarkOf, StringLeft;
    if lines != [] {
      var (l, st1) := Emit(st, lines[0]);
      EmitMark(st, lines[0]);
      LayoutMarks(st1, lines[1..]);
      var rest, m := Layout(st1, lines[1..]), MarkOf(lines[0], st.quote);
      var ms, more := Marks(st.quote, lines), Marks(st1.quote, lines[1..]);
      assert ms[0] == m && ms[1..] == more;
      if l.Some? {
        assert ([l.value] + rest)[0] == l.value && ([l.value] + rest)[1..] == rest;
      } else {
        assert [] + rest == rest;
      }
    }
  }

  // ---------- the text that comes out ----------

  predicate Empty(m: Mark) {
    m.Gap? || m == Raw("")
  }

  lemma {:induction false} MarksFront(quote: Option<char>, lines: seq<string>, n: nat)
    requires n <= |lines|
    ensures Marks(quote, lines[..n]) == Marks(quote, lines)[..n]
    decreases |lines|
  {
    hide MarkOf, StringLeft;
    if n > 0 {
      MarksFront(StringLeft(lines[0], quote), lines[1..], n - 1);
      assert lines[..n][1..] == lines[1..][..n - 1] && lines[..n][0] == lines[0];
    }
  }

  lemma {:induction false} MarkAt(quote: Option<char>, lines: seq<string>, k: nat)
    requires k < |lines|
    ensures lines[k] == "" ==> Empty(Marks(quote, lines)[k])
    ensures Empty(Marks(quote, lines)[k]) ==> Content(lines[k]) == ""
    decreases |lines|
  {
    hide StringLeft;
    NoContent();
    if k > 0 {
      MarkAt(StringLeft(lines[0], quote), lines[1..], k - 1);
      assert lines[1..][k - 1] == lines[k];
    }
  }

  lemma {:induction false} CleanedRest(lines: seq<string>)
    ensures var c := Cleaned(lines);
            && (c != [] ==> c[|c| - 1] != "")
            && |c| <= |lines| && forall k :: |c| <= k < |lines| ==> lines[k] == ""
    decreases |lines|
  {
    if lines != [] && lines[|lines| - 1] == "" {
      var front := lines[..|lines| - 1];
      CleanedRest(front);
      forall k | |Cleaned(lines)| <= k < |lines|
        ensures lines[k] == ""
      {
        assert k < |front| ==> front[k] == lines[k];
      }
    }
  }

  // The formatted text, line by line: every line stands where its brackets put it; the lines
  // are those of the source, stripped, with single gaps, up to the last that is not empty;
  // and the text ends with one newline.
  lemma FormattedLayout(src: string) returns (n: nat)
    ensures var lines, out := LinesFrom("", Formatted(src)), Formatted(src);
            var ms := Collapse(Marks(None, LinesFrom("", src)), false);
            && (forall k :: 0 <= k < |lines| ==> LaidOut(lines, k))
            && Spread(ms) && n <= |ms| && (forall k :: n <= k < |ms| ==> Empty(ms[k]))
            && (if n == 0 then out == "\n" else Marks(None, lines) == ms[..n])
            && out != "" && out[|out| - 1] == '\n' && (|out| > 1 ==> |lines| > 0 && lines[|lines| - 1] != "")
  {
    hide Layout, Cleaned, LinesFrom, Emit, Marks, Collapse, Joined, LaidOut, Empty, Content, Spread;
    var lines := LinesFrom("", src);
    LinesAreLines("", src);
    var all := Layout(START, lines);
    LayoutAgain(START, START, lines);
    CleanedIs(all);
    CleanedRest(all);
    var c := Cleaned(all);
    n := |c|;
    LayoutMarks(START, lines);
    NoTwoGaps(Marks(None, lines), false);
    StartLaid(lines);
    MarksFront(None, all, n);
    forall k | n <= k < |all|
      ensures Empty(Marks(None, all)[k])
    {
      MarkAt(None, all, k);
    }
    if n == 0 {
      NewlineOnly();
    } else {
      SplitJoined(c);
      EndsNewline(c);
      forall k | 0 <= k < n
        ensures LaidOut(c, k)
      {
        LaidPrefix(all, n, k);
      }
    }
  }

  lemma StartLaid(lines: seq<string>)
    ensures var all := Layout(START, lines); forall k :: 0 <= k < |all| ==> LaidOut(all, k)
  {
    hide Layout, LaidOut;
    assert Agrees(START, []);
    LayoutLaid(START, [], lines);
    assert [] + Layout(START, lines) == Layout(START, lines);
  }

  lemma {:induction false} BeforePrefix(lines: seq<string>, n: nat, k: nat)
    requires k <= n <= |lines|
    ensures Before(lines[..n], k) == Before(lines, k)
    decreases k
  {
    hide StringLeft, NetOf;
    if k > 0 {
      BeforePrefix(lines, n, k - 1);
    }
  }

  lemma LaidPrefix(lines: seq<string>, n: nat, k: nat)
    requires k < n <= |lines| && LaidOut(lines, k)
    ensures LaidOut(lines[..n], k)
  {
    hide Before, Indented, FrontClosers;
    BeforePrefix(lines, n, k);
    assert lines[..n][k] == lines[k];
  }

  lemma NewlineOnly()
    ensures LinesFrom("", "\n") == [""] && LaidOut([""], 0)
  {
    assert "\n"[1..] == "" && LinesFrom("", "") == [];
  }

  // ---------- brackets that match ----------

  function Indentation(l: string): nat {
    if l != "" && l[0] == ' ' then 1 + Indentation(l[1..]) else 0
  }

  lemma {:induction false} IndentedBy(l: string, n: nat)
    requires Indented(l, n)
    ensures Indentation(l) == n
    decreases n
  {
    if n > 0 {
      assert forall i :: 0 <= i < n - 1 ==> l[1..][i] == l[i + 1];
      assert l[1..][n - 1] == l[n] && l[1..][|l| - 2] == l[|l| - 1];
      IndentedBy(l[1..], n - 1);
    }
  }

  // How much the lines from `a` up to `b` deepen.
  function Rise(lines: seq<string>, a: nat, b: nat): int
    requires a <= b <= |lines|
    decreases b
  {
    if a == b then 0
    else Rise(lines, a, b - 1) + (if Before(lines, b - 1).0.Some? then 0 else NetOf(lines[b - 1], None))
  }

  lemma {:induction false} DepthRises(lines: seq<string>, a: nat, b: nat)
    requires a <= b <= |lines| && forall m :: a <= m <= b ==> Before(lines, a).1 + Rise(lines, a, m) >= 0
    ensures Before(lines, b).1 == Before(lines, a).1 + Rise(lines, a, b)
    decreases b
  {
    hide NetOf, StringLeft;
    if b > a {
      DepthRises(lines, a, b - 1);
    }
  }

  ghost predicate NeverBelow(lines: seq<string>, a: nat, b: nat)
    requires a <= b <= |lines|
  {
    forall m :: a <= m <= b ==> Rise(lines, a, m) >= 0
  }

  // A line that begins by closing what an earlier line left open, with everything between
  // them closed again, is indented as that line.
  lemma BracketsAlign(lines: seq<string>, i: nat, j: nat)
    requires i < j < |lines| && LaidOut(lines, i) && LaidOut(lines, j) && lines[i] != "" && lines[j] != ""
    requires Before(lines, i).0.None? && Before(lines, j).0.None?
    requires FrontClosers(lines[i]) <= Before(lines, i).1
    requires FrontClosers(lines[i]) + NetOf(lines[i], None) == FrontClosers(lines[j])
    requires Rise(lines, i + 1, j) == 0 && NeverBelow(lines, i + 1, j)
    ensures Indentation(lines[i]) == Indentation(lines[j])
    ensures Indentation(lines[i]) == 4 * (Before(lines, i).1 - FrontClosers(lines[i]))
  {
    hide NetOf, StringLeft, Rise, FrontClosers, Indented;
    DepthRises(lines, i + 1, j);
    var d := Before(lines, i).1 - FrontClosers(lines[i]);
    IndentedBy(lines[i], 4 * d);
    IndentedBy(lines[j], 4 * d);
  }

  // ---------- where the depth drifts ----------

  // The depth by all brackets of the program text, lines that begin inside a string included.
  function TrueDepth(lines: seq<string>, k: nat): nat
    requires k <= |lines|
  {
    if k == 0 then 0 else AtLeast0(TrueDepth(lines, k - 1) + NetOf(lines[k - 1], Before(lines, k - 1).0))
  }

  // The brackets on line `k`, behind the end of a string it begins in, cancel out, or only
  // close what is not open.
  predicate Cancels(lines: seq<string>, k: nat)
    requires k < |lines|
  {
    var net := NetOf(lines[k], Before(lines, k).0);
    net == 0 || (Before(lines, k).1 == 0 && net < 0)
  }

  predicate Right(lines: seq<string>, k: nat)
    requires k <= |lines|
  {
    TrueDepth(lines, k) == Before(lines, k).1
  }

  predicate StaysRight(lines: seq<string>, k: nat)
    requires k < |lines|
  {
    Before(lines, k).0.Some? ==> Cancels(lines, k)
  }

  // The indentation is that of all brackets exactly as long as the lines that begin inside a
  // string have no uncancelled bracket.
  lemma {:induction false} DepthExact(lines: seq<string>, n: nat)
    requires n <= |lines|
    ensures (forall k :: 0 <= k <= n ==> Right(lines, k)) <==> (forall k :: 0 <= k < n ==> StaysRight(lines, k))
    decreases n
  {
    hide Right, StaysRight;
    if n > 0 {
      DepthExact(lines, n - 1);
      RightStep(lines, n);
    } else {
      assert Right(lines, 0) by {
        RightStart(lines);
      }
    }
  }

  lemma RightStart(lines: seq<string>)
    ensures Right(lines, 0)
  {
  }

  lemma RightStep(lines: seq<string>, n: nat)
    requires 0 < n <= |lines|
    ensures Right(lines, n - 1) ==> (Right(lines, n) <==> StaysRight(lines, n - 1))
  {
    hide NetOf, StringLeft;
  }

  lemma Unstripped(s: string)
    requires s != "" && !Blank(s[0]) && !BlankEnd(s[|s| - 1])
    ensures Content(s) == s
  {
  }

  lemma DriftScan()
    ensures ScanLine("f(\"a", None) == Scan(Some('"'), 1, 0, false)
  {
    var l := "f(\"a";
    assert l[1..] == "(\"a" && "(\"a"[1..] == "\"a" && "\"a"[1..] == "a" && "a"[1..] == "";
    assert ScanFrom("a", Scan(Some('"'), 1, 0, false)) == ScanFrom("", Scan(Some('"'), 1, 0, false));
    assert ScanFrom("\"a", Scan(None, 1, 0, false)) == ScanFrom("a", Scan(Some('"'), 1, 0, false));
    assert ScanFrom("(\"a", Scan(None, 0, 0, false)) == ScanFrom("\"a", Scan(None, 1, 0, false));
  }

  lemma DriftFirst()
    ensures Emit(START, "f(\"a") == (Some("f(\"a"), State(1, Some('"'), 0))
    ensures NetOf("f(\"a", None) == 1 && StringLeft("f(\"a", None) == Some('"')
  {
    hide ScanLine, NetOf, StringLeft, Content;
    var l := "f(\"a";
    Unstripped(l);
    ScanIs(l, None);
    DriftScan();
    assert Spaces(0) == "" && "" + l == l;
  }

  lemma DriftSecond()
    ensures Emit(State(1, Some('"'), 0), "b\");") == (Some("b\");"), State(1, None, 0))
    ensures NetOf("b\");", Some('"')) == -1 && StringLeft("b\");", Some('"')) == None
  {
    var l := "b\");";
    ScanIs(l, Some('"'));
    assert l[1..] == "\");" && "\");"[1..] == ");" && ");"[1..] == ";" && ";"[1..] == "";
    assert ScanFrom(";", Scan(None, -1, 1, true)) == ScanFrom("", Scan(None, -1, 1, false));
    assert ScanFrom(");", Scan(None, 0, 0, true)) == ScanFrom(";", Scan(None, -1, 1, true));
    assert ScanFrom("\");", Scan(Some('"'), 0, 0, true)) == ScanFrom(");", Scan(None, 0, 0, true));
    assert ScanLine(l, Some('"')) == Scan(None, -1, 1, false);
  }

  lemma FourSpaces()
    ensures Spaces(4) == "    "
  {
    SpacesLength(4);
  }

  lemma DriftThird()
    ensures Emit(State(1, None, 0), "x").0 == Some("    x")
  {
    Unstripped("x");
    assert "x"[1..] == "";
    assert ScanLine("x", None) == Scan(None, 0, 0, false);
    FourSpaces();
    assert "    " + "x" == "    x";
  }

  lemma DriftDepth()
    ensures TrueDepth(["f(\"a", "b\");", "x"], 2) == 0
  {
    hide NetOf, StringLeft;
    DriftFirst();
    DriftSecond();
    var lines := ["f(\"a", "b\");", "x"];
    assert Before(lines, 1) == (Some('"'), 1) && TrueDepth(lines, 1) == 1;
  }

  // A call whose string ends on the next line: its closing bracket is not seen, and what
  // follows the call is indented.
  lemma StringDrift()
    ensures var lines := ["f(\"a", "b\");", "x"];
            Layout(START, lines) == ["f(\"a", "b\");", "    x"] && TrueDepth(lines, 2) == 0
  {
    DriftFirst();
    DriftSecond();
    DriftThird();
    DriftDepth();
    hide Emit, TrueDepth;
    var lines := ["f(\"a", "b\");", "x"];
    var s1, s2 := State(1, Some('"'), 0), State(1, None, 0);
    assert lines[1..] == ["b\");", "x"] && lines[1..][1..] == ["x"] && ["x"][1..] == [];
    assert Layout(s2, ["x"]) == ["    x"] + Layout(Emit(s2, "x").1, []);
    assert Layout(s1, lines[1..]) == ["b\");"] + Layout(s2, ["x"]);
    assert Layout(START, lines) == ["f(\"a"] + Layout(s1, lines[1..]);
  }
}
