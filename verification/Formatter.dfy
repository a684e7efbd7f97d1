/** The source formatter: formatting twice is formatting once. */
module Formatter {

  import opened Options

  // ---------- lines ----------

  predicate OneLine(s: string) {
    '\n' !in s
  }

  // `std::getline`, line by line: a last line without a newline counts, an empty one does not.
  // `cur` is what the current line holds so far.
  function LinesFrom(cur: string, s: string): seq<string>
    decreases |s|
  {
    if s == "" then (if cur == "" then [] else [cur])
    else if s[0] == '\n' then [cur] + LinesFrom("", s[1..])
    else LinesFrom(cur + [s[0]], s[1..])
  }

  function Joined(lines: seq<string>): string {
    if lines == [] then "" else lines[0] + "\n" + Joined(lines[1..])
  }

  method SplitLines(s: string) returns (lines: seq<string>)
    ensures lines == LinesFrom("", s)
  {
    lines := [];
    var cur := "";
    var i := 0;
    assert s[0..] == s && [] + LinesFrom("", s) == LinesFrom("", s);
    while i < |s|
      invariant 0 <= i <= |s| && lines + LinesFrom(cur, s[i..]) == LinesFrom("", s)
    {
      LinesStep(cur, s, i);
      if s[i] == '\n' {
        assert lines + ([cur] + LinesFrom("", s[i + 1..])) == lines + [cur] + LinesFrom("", s[i + 1..]);
        lines := lines + [cur];
        cur := "";
      } else {
        cur := cur + [s[i]];
      }
      i := i + 1;
    }
    LinesEnd(cur, s);
    if cur != "" {
      lines := lines + [cur];
    }
  }

  lemma LinesStep(cur: string, s: string, i: nat)
    requires i < |s|
    ensures LinesFrom(cur, s[i..]) == if s[i] == '\n' then [cur] + LinesFrom("", s[i + 1..])
            else LinesFrom(cur + [s[i]], s[i + 1..])
  {
    assert s[i..][1..] == s[i + 1..];
  }

  lemma LinesEnd(cur: string, s: string)
    ensures LinesFrom(cur, s[|s|..]) == if cur == "" then [] else [cur]
  {
  }

  lemma {:induction false} LinesAreLines(cur: string, s: string)
    requires OneLine(cur)
    ensures forall l :: l in LinesFrom(cur, s) ==> OneLine(l)
    decreases |s|
  {
    if s != "" {
      if s[0] == '\n' {
        LinesAreLines("", s[1..]);
      } else {
        LinesAreLines(cur + [s[0]], s[1..]);
      }
    }
  }

  lemma {:induction false} OneMoreLine(cur: string, l: string, rest: string)
    requires OneLine(l)
    ensures LinesFrom(cur, l + "\n" + rest) == [cur + l] + LinesFrom("", rest)
    decreases |l|
  {
    var s := l + "\n" + rest;
    if l == "" {
      assert s[0] == '\n' && s[1..] == rest && cur + l == cur;
    } else {
      assert s[0] == l[0] && s[1..] == l[1..] + "\n" + rest;
      OneMoreLine(cur + [l[0]], l[1..], rest);
      assert cur + [l[0]] + l[1..] == cur + l;
    }
  }

  // Joined lines are split as they were.
  lemma {:induction false} SplitJoined(lines: seq<string>)
    requires forall l :: l in lines ==> OneLine(l)
    ensures LinesFrom("", Joined(lines)) == lines
    decreases |lines|
  {
    if lines != [] {
      OneMoreLine("", lines[0], Joined(lines[1..]));
      assert "" + lines[0] == lines[0];
      SplitJoined(lines[1..]);
    }
  }

  // ---------- one line ----------

  // The quote that is open, if any; the change of depth; the closers a line begins with.
  datatype Scan = Scan(quote: Option<char>, delta: int, closers: nat, leading: bool)

  function ScanFrom(s: string, a: Scan): Scan
    decreases |s|
  {
    if s == "" then a
    else
      var c := s[0];
      if a.quote.Some? then
        if c == '\\' then ScanFrom(if |s| > 1 then s[2..] else "", a)
        else ScanFrom(s[1..], if c == a.quote.value then a.(quote := None) else a)
      else if c == '#' || (c == '/' && |s| > 1 && s[1] == '/') then a
      else if c == '"' || c == '\'' then ScanFrom(s[1..], a.(quote := Some(c), leading := false))
      else if c == '{' || c == '[' || c == '(' then ScanFrom(s[1..], a.(delta := a.delta + 1, leading := false))
      else if c == '}' || c == ']' || c == ')' then
        ScanFrom(s[1..], a.(delta := a.delta - 1, closers := if a.leading then a.closers + 1 else a.closers))
      else ScanFrom(s[1..], if c != ' ' && c != '\t' then a.(leading := false) else a)
  }

  function ScanLine(s: string, quote: Option<char>): Scan {
    ScanFrom(s, Scan(quote, 0, 0, true))
  }

  method ScanLoop(s: string, quote: Option<char>) returns (r: Scan)
    ensures r == ScanLine(s, quote)
  {
    hide ScanFrom;
    r := Scan(quote, 0, 0, true);
    var i := 0;
    assert s[0..] == s;
    while i < |s|
      invariant 0 <= i <= |s| && ScanFrom(s[i..], r) == ScanLine(s, quote)
    {
      ScanStep(s, i, r);
      var c := s[i];
      if r.quote.Some? {
        if c == '\\' {
          if i + 1 < |s| {
            i := i + 1;
          }
        } else if c == r.quote.value {
          r := r.(quote := None);
        }
      } else if c == '#' || (c == '/' && i + 1 < |s| && s[i + 1] == '/') {
        return;
      } else if c == '"' || c == '\'' {
        r := r.(quote := Some(c), leading := false);
      } else if c == '{' || c == '[' || c == '(' {
        r := r.(delta := r.delta + 1, leading := false);
      } else if c == '}' || c == ']' || c == ')' {
        r := r.(delta := r.delta - 1, closers := if r.leading then r.closers + 1 else r.closers);
      } else if c != ' ' && c != '\t' {
        r := r.(leading := false);
      }
      i := i + 1;
    }
    ScanEnd(s[i..], r);
  }

  lemma ScanEnd(s: string, a: Scan)
    requires s == ""
    ensures ScanFrom(s, a) == a
  {
  }

  lemma ScanStep(s: string, i: nat, a: Scan)
    requires i < |s|
    ensures var c := s[i];
            ScanFrom(s[i..], a) ==
            if a.quote.Some? then
              if c == '\\' then ScanFrom(s[if i + 1 < |s| then i + 2 else i + 1..], a)
              else ScanFrom(s[i + 1..], if c == a.quote.value then a.(quote := None) else a)
            else if c == '#' || (c == '/' && i + 1 < |s| && s[i + 1] == '/') then a
            else if c == '"' || c == '\'' then ScanFrom(s[i + 1..], a.(quote := Some(c), leading := false))
            else if c == '{' || c == '[' || c == '('
              then ScanFrom(s[i + 1..], a.(delta := a.delta + 1, leading := false))
            else if c == '}' || c == ']' || c == ')' then
              ScanFrom(s[i + 1..], a.(delta := a.delta - 1, closers := if a.leading then a.closers + 1 else a.closers))
            else ScanFrom(s[i + 1..], if c != ' ' && c != '\t' then a.(leading := false) else a)
  {
    var t := s[i..];
    assert t[0] == s[i] && t[1..] == s[i + 1..];
    if i + 1 < |s| {
      assert t[1] == s[i + 1] && t[2..] == s[i + 2..];
    } else {
      assert s[i + 1..] == "";
    }
  }

  // ---------- stripping ----------

  function LStrip(s: string): string {
    if s != "" && (s[0] == ' ' || s[0] == '\t') then LStrip(s[1..]) else s
  }

  function RStrip(s: string): string {
    if s != "" && (s[|s| - 1] == ' ' || s[|s| - 1] == '\t' || s[|s| - 1] == '\r') then RStrip(s[..|s| - 1]) else s
  }

  function Content(raw: string): string {
    RStrip(LStrip(raw))
  }

  function Spaces(n: nat): string {
    if n == 0 then "" else " " + Spaces(n - 1)
  }

  lemma {:induction false} LStripped(s: string)
    ensures var r := LStrip(s); (r != "" ==> r[0] != ' ' && r[0] != '\t') && (OneLine(s) ==> OneLine(r))
    decreases |s|
  {
    if s != "" && (s[0] == ' ' || s[0] == '\t') {
      LStripped(s[1..]);
    }
  }

  lemma {:induction false} RStripped(s: string)
    ensures var r := RStrip(s); RStrip(r) == r && (r != "" ==> s != "" && r[0] == s[0]) && (OneLine(s) ==> OneLine(r))
    decreases |s|
  {
    if s != "" && (s[|s| - 1] == ' ' || s[|s| - 1] == '\t' || s[|s| - 1] == '\r') {
      RStripped(s[..|s| - 1]);
    }
  }

  lemma {:induction false} Unindent(n: nat, s: string)
    ensures LStrip(Spaces(n) + s) == LStrip(s)
    ensures OneLine(s) ==> OneLine(Spaces(n) + s)
    decreases n
  {
    if n == 0 {
      assert "" + s == s;
    } else {
      var t := Spaces(n) + s;
      assert t[0] == ' ' && t[1..] == Spaces(n - 1) + s;
      Unindent(n - 1, s);
      assert t == " " + (Spaces(n - 1) + s);
    }
  }

  // Indented content strips to itself.
  lemma ContentBack(raw: string, n: nat)
    requires Content(raw) != ""
    ensures Content(Spaces(n) + Content(raw)) == Content(raw)
    ensures OneLine(raw) ==> OneLine(Spaces(n) + Content(raw))
  {
    hide LStrip, RStrip;
    LStripped(raw);
    RStripped(LStrip(raw));
    var c := Content(raw);
    Unindent(n, c);
    NotStripped(c);
  }

  lemma NotStripped(s: string)
    requires s != "" && s[0] != ' ' && s[0] != '\t'
    ensures LStrip(s) == s
  {
  }

  // ---------- the layout ----------

  datatype State = State(depth: nat, quote: Option<char>, blanks: nat)

  // What one line becomes, if it is kept, and the state after it.
  function Emit(st: State, raw: string): (Option<string>, State) {
    if st.quote.Some? then (Some(raw), st.(quote := ScanLine(raw, st.quote).quote, blanks := 0))
    else
      var content := Content(raw);
      if content == "" then (if st.blanks == 0 then Some("") else None, st.(blanks := st.blanks + 1))
      else
        var sr := ScanLine(content, None);
        var indent := if st.depth > sr.closers then st.depth - sr.closers else 0;
        (Some(Spaces(4 * indent) + content),
         State(if st.depth + sr.delta > 0 then st.depth + sr.delta else 0, sr.quote, 0))
  }

  function Layout(st: State, lines: seq<string>): seq<string>
    decreases |lines|
  {
    if lines == [] then []
    else
      var (l, st1) := Emit(st, lines[0]);
      (if l.Some? then [l.value] else []) + Layout(st1, lines[1..])
  }

  // Trailing empty lines go.
  function Cleaned(lines: seq<string>): seq<string> {
    if lines != [] && lines[|lines| - 1] == "" then Cleaned(lines[..|lines| - 1]) else lines
  }

  function Output(lines: seq<string>): string {
    if Cleaned(lines) == [] then "\n" else Joined(Cleaned(lines))
  }

  const START := State(0, None, 0)

  function Formatted(src: string): string {
    Output(Layout(START, LinesFrom("", src)))
  }

  // `look_format_source`: the original when the tokens would change.
  function Format(src: string, same: (string, string) -> bool): string {
    if same(src, Formatted(src)) then Formatted(src) else src
  }

  // ---------- idempotence ----------

  // The states of the two passes differ only in how many blank lines they have seen beyond one.
  predicate Alike(a: State, b: State) {
    a.depth == b.depth && a.quote == b.quote && (a.blanks == 0 <==> b.blanks == 0)
  }

  // A line that was kept is kept as it is by the second pass; a dropped one leaves no trace.
  lemma EmitAgain(a: State, b: State, raw: string)
    requires Alike(a, b) && OneLine(raw)
    ensures var (l, a1) := Emit(a, raw);
            && (l.Some? ==> OneLine(l.value) && Emit(b, l.value).0 == l && Alike(a1, Emit(b, l.value).1))
            && (l.None? ==> Alike(a1, b))
  {
    hide ScanLine;
    var content := Content(raw);
    if a.quote.None? {
      if content != "" {
        var sr := ScanLine(content, None);
        ContentBack(raw, 4 * if a.depth > sr.closers then a.depth - sr.closers else 0);
      } else {
        assert Content("") == "";
      }
    }
  }

  lemma {:induction false} LayoutAgain(a: State, b: State, lines: seq<string>)
    requires Alike(a, b) && forall l :: l in lines ==> OneLine(l)
    ensures var r := Layout(a, lines);
            Layout(b, r) == r && forall l :: l in r ==> OneLine(l)
    decreases |lines|
  {
    hide Emit;
    if lines != [] {
      var (l, a1) := Emit(a, lines[0]);
      EmitAgain(a, b, lines[0]);
      if l.Some? {
        var b1 := Emit(b, l.value).1;
        LayoutAgain(a1, b1, lines[1..]);
        var rest := Layout(a1, lines[1..]);
        assert ([l.value] + rest)[1..] == rest;
      } else {
        LayoutAgain(a1, b, lines[1..]);
        assert [] + Layout(a1, lines[1..]) == Layout(a1, lines[1..]);
      }
    }
  }

  // Each line yields at most one, so a prefix of a fixed text is fixed.
  lemma {:induction false} LayoutShorter(st: State, lines: seq<string>)
    ensures |Layout(st, lines)| <= |lines|
    decreases |lines|
  {
    hide Emit;
    if lines != [] {
      LayoutShorter(Emit(st, lines[0]).1, lines[1..]);
    }
  }

  lemma {:induction false} PrefixFixed(st: State, lines: seq<string>, k: nat)
    requires Layout(st, lines) == lines && k <= |lines|
    ensures Layout(st, lines[..k]) == lines[..k]
    decreases |lines|
  {
    hide Emit;
    if k > 0 {
      var (l, st1) := Emit(st, lines[0]);
      LayoutShorter(st1, lines[1..]);
      assert l.Some?;
      assert lines[1..] == Layout(st1, lines[1..]);
      PrefixFixed(st1, lines[1..], k - 1);
      assert lines[..k][1..] == lines[1..][..k - 1] && lines[..k][0] == lines[0];
    } else {
      assert lines[..0] == [];
    }
  }

  lemma {:induction false} CleanedIs(lines: seq<string>)
    ensures var c := Cleaned(lines);
            && |c| <= |lines| && c == lines[..|c|] && Cleaned(c) == c
    decreases |lines|
  {
    if lines != [] && lines[|lines| - 1] == "" {
      CleanedIs(lines[..|lines| - 1]);
    }
  }

  lemma FormattedTwice(src: string)
    ensures Formatted(Formatted(src)) == Formatted(src)
  {
    hide Layout, Cleaned, LinesFrom, Emit;
    var lines := LinesFrom("", src);
    LinesAreLines("", src);
    var out := Layout(START, lines);
    LayoutAgain(START, START, lines);
    CleanedIs(out);
    var c := Cleaned(out);
    if c == [] {
      OnlyBlank();
    } else {
      PrefixFixed(START, out, |c|);
      SplitJoined(c);
    }
  }

  lemma OnlyBlank()
    ensures Formatted("\n") == "\n"
  {
    assert "\n"[1..] == "" && LinesFrom("", "\n") == [""];
    assert [""][1..] == [] && Emit(START, "").0 == Some("");
    assert Layout(START, [""]) == [""] + Layout(Emit(START, "").1, []);
    assert Cleaned([""]) == Cleaned([""][..0]) == [];
  }

  // Formatting twice is formatting once, whatever the check of the tokens answers.
  lemma FormatIdempotent(src: string, same: (string, string) -> bool)
    ensures Format(Format(src, same), same) == Format(src, same)
  {
    hide Formatted;
    FormattedTwice(src);
  }

  // ---------- the loops ----------

  method FormatSource(src: string, same: (string, string) -> bool) returns (out: string, ok: bool)
    ensures out == Format(src, same) && ok == same(src, Formatted(src))
    ensures if ok then out == Formatted(src) else out == src
  {
    var lines := SplitLines(src);
    out := LayoutLoop(lines);
    LinesAreLines("", src);
    LayoutAgain(START, START, lines);
    out := TrimEnd(out, Layout(START, lines));
    ok := same(src, out);
    out := if ok then out else src;
  }

  // Newlines at the end are brought down to one.
  method TrimEnd(text: string, ghost lines: seq<string>) returns (out: string)
    requires text == Joined(lines) && forall l :: l in lines ==> OneLine(l)
    ensures out == Output(lines)
  {
    hide Joined, EndsTwice, Output, Cleaned;
    out := text;
    ghost var n: nat := |lines|;
    assert lines[..n] == lines;
    while |out| >= 2 && out[|out| - 1] == '\n' && out[|out| - 2] == '\n'
      invariant n <= |lines| && out == Joined(lines[..n]) && Cleaned(lines[..n]) == Cleaned(lines)
      decreases n
    {
      Twice(out);
      BlankTail(lines[..n]);
      assert lines[..n][..n - 1] == lines[..n - 1];
      out := out[..|out| - 1];
      n := n - 1;
    }
    Twice(out);
    Tail(lines[..n]);
    SameOutput(lines[..n], lines);
    if out == "" || out[|out| - 1] != '\n' {
      out := out + "\n";
    }
  }

  lemma Twice(s: string)
    ensures EndsTwice(s) <==> |s| >= 2 && s[|s| - 1] == '\n' && s[|s| - 2] == '\n'
  {
  }

  lemma SameOutput(a: seq<string>, b: seq<string>)
    requires Cleaned(a) == Cleaned(b)
    ensures Output(a) == Output(b)
  {
  }

  method LayoutLoop(lines: seq<string>) returns (out: string)
    ensures out == Joined(Layout(START, lines))
  {
    hide Layout, ScanFrom, Content, Joined;
    JoinedNone();
    out := "";
    var depth: nat, quote, blanks: nat := 0, None, 0;
    ghost var done: seq<string> := [];
    assert lines[0..] == lines && [] + Layout(START, lines) == Layout(START, lines);
    var i := 0;
    while i < |lines|
      invariant 0 <= i <= |lines| && out == Joined(done)
      invariant done + Layout(State(depth, quote, blanks), lines[i..]) == Layout(START, lines)
    {
      var raw := lines[i];
      LayoutStep(State(depth, quote, blanks), lines, i, done);
      if quote.Some? {
        JoinedCat(done, raw);
        done := done + [raw];
        out := out + raw + "\n";
        var sr := ScanLoop(raw, quote);
        quote, blanks := sr.quote, 0;
      } else {
        var content := Content(raw);
        if content == "" {
          blanks := blanks + 1;
          if blanks <= 1 {
            JoinedCat(done, "");
            done := done + [""];
            out := out + "\n";
          }
        } else {
          blanks := 0;
          var sr := ScanLoop(content, None);
          var indent := depth - sr.closers;
          if indent < 0 {
            indent := 0;
          }
          JoinedCat(done, Spaces(indent * 4) + content);
          done := done + [Spaces(indent * 4) + content];
          out := out + Spaces(indent * 4) + content + "\n";
          depth := if depth + sr.delta < 0 then 0 else depth + sr.delta;
          quote := sr.quote;
        }
      }
      i := i + 1;
    }
    LayoutEnd(State(depth, quote, blanks), lines, done);
  }

  lemma LayoutStep(st: State, lines: seq<string>, i: nat, done: seq<string>)
    requires i < |lines|
    ensures var (l, st1) := Emit(st, lines[i]);
            done + Layout(st, lines[i..]) == (if l.Some? then done + [l.value] else done) + Layout(st1, lines[i + 1..])
  {
    hide Emit;
    assert lines[i..][1..] == lines[i + 1..];
  }

  lemma LayoutEnd(st: State, lines: seq<string>, done: seq<string>)
    ensures done + Layout(st, lines[|lines|..]) == done
  {
  }

  lemma {:induction false} JoinedCat(lines: seq<string>, l: string)
    ensures Joined(lines + [l]) == Joined(lines) + l + "\n"
    decreases |lines|
  {
    if lines == [] {
      assert [l][1..] == [] && "" + l == l;
    } else {
      JoinedCat(lines[1..], l);
      assert (lines + [l])[1..] == lines[1..] + [l];
    }
  }

  predicate EndsTwice(s: string) {
    |s| >= 2 && s[|s| - 1] == '\n' && s[|s| - 2] == '\n'
  }

  lemma LastTwo(a: string, l: string)
    requires OneLine(l)
    ensures var s := a + l + "\n";
            && s[|s| - 1] == '\n' && s[..|s| - 1] == a + l
            && (EndsTwice(s) <==> l == "" && a != "" && a[|a| - 1] == '\n')
  {
    var s := a + l + "\n";
    if l != "" {
      assert s[|s| - 2] == l[|l| - 1] && l[|l| - 1] in l;
    } else if a != "" {
      assert s[|s| - 2] == a[|a| - 1];
    }
  }

  lemma LastLine(lines: seq<string>)
    requires lines != []
    ensures Joined(lines) == Joined(lines[..|lines| - 1]) + lines[|lines| - 1] + "\n"
  {
    hide Joined;
    JoinedCat(lines[..|lines| - 1], lines[|lines| - 1]);
    assert lines == lines[..|lines| - 1] + [lines[|lines| - 1]];
  }

  lemma EndsNewline(lines: seq<string>)
    requires lines != []
    ensures var s := Joined(lines); s != "" && s[|s| - 1] == '\n'
  {
    hide Joined;
    LastLine(lines);
  }

  // Two newlines at the end are an empty last line behind another.
  lemma TwoNewlines(lines: seq<string>)
    requires lines != [] && forall l :: l in lines ==> OneLine(l)
    ensures EndsTwice(Joined(lines)) <==> |lines| > 1 && lines[|lines| - 1] == ""
  {
    hide Joined, EndsTwice;
    LastLine(lines);
    var front := lines[..|lines| - 1];
    LastTwo(Joined(front), lines[|lines| - 1]);
    if front == [] {
      JoinedNone();
    } else {
      EndsNewline(front);
    }
  }

  lemma JoinedNone()
    ensures Joined([]) == ""
  {
  }

  lemma BlankTail(lines: seq<string>)
    requires (forall l :: l in lines ==> OneLine(l)) && EndsTwice(Joined(lines))
    ensures lines != [] && Cleaned(lines) == Cleaned(lines[..|lines| - 1])
    ensures Joined(lines[..|lines| - 1]) == Joined(lines)[..|Joined(lines)| - 1]
  {
    hide Joined;
    JoinedNone();
    TwoNewlines(lines);
    LastLine(lines);
    var a := Joined(lines[..|lines| - 1]);
    LastTwo(a, "");
    assert a + "" == a;
  }

  // Otherwise the last line is not empty, or the only one.
  lemma Tail(lines: seq<string>)
    requires (forall l :: l in lines ==> OneLine(l)) && !EndsTwice(Joined(lines))
    ensures Output(lines) == if Joined(lines) == "" then "\n" else Joined(lines)
    ensures Joined(lines) != "" ==> Joined(lines)[|Joined(lines)| - 1] == '\n'
  {
    hide Joined, EndsTwice;
    JoinedNone();
    if lines != [] {
      TwoNewlines(lines);
      EndsNewline(lines);
      if lines[|lines| - 1] == "" {
        LastLine(lines);
        assert lines[..0] == [] && Cleaned(lines) == Cleaned([]) == [];
        assert "" + "" + "\n" == "\n";
      }
    }
  }

  // ---------- what formatting keeps ----------

  // The lines inside strings as they are, and of the others what is not blank.
  function Kept(quote: Option<char>, lines: seq<string>): seq<string>
    decreases |lines|
  {
    if lines == [] then []
    else if quote.Some? then [lines[0]] + Kept(ScanLine(lines[0], quote).quote, lines[1..])
    else if Content(lines[0]) == "" then Kept(None, lines[1..])
    else [Content(lines[0])] + Kept(ScanLine(Content(lines[0]), None).quote, lines[1..])
  }

  // The layout changes only indentation, trailing blanks and blank lines outside strings.
  lemma {:induction false} LayoutKeeps(st: State, lines: seq<string>)
    ensures Kept(st.quote, Layout(st, lines)) == Kept(st.quote, lines)
    decreases |lines|
  {
    hide ScanLine;
    if lines != [] {
      var (l, st1) := Emit(st, lines[0]);
      LayoutKeeps(st1, lines[1..]);
      var rest := Layout(st1, lines[1..]);
      assert ([lines[0]] + rest)[1..] == rest && ([""] + rest)[1..] == rest && [] + rest == rest;
      assert Content("") == "";
      if st.quote.None? && Content(lines[0]) != "" {
        var sr := ScanLine(Content(lines[0]), None);
        ContentBack(lines[0], 4 * if st.depth > sr.closers then st.depth - sr.closers else 0);
        assert ([l.value] + rest)[1..] == rest;
      }
    }
  }
}
