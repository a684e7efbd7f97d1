/** The IMAP session: sequence numbers, as the server and its client count them. */
module Imap {
  import opened Options
  import opened Strings

  // A message file of the selected mailbox: in `new` or in `cur`, with its name.
  datatype File = File(isNew: bool, name: string)

  const FLAG_LETTERS := "DFPRST"
  const INFO := ":2,"

  // ---------- flags in file names ----------

  // The part of the name that stays the message's own.
  function Base(name: string): string {
    match Find(name, INFO) case None => name case Some(p) => if p <= |name| then name[..p] else name
  }

  function Letters(s: string): string {
    if s == "" then "" else (if s[0] in FLAG_LETTERS then [s[0]] else "") + Letters(s[1..])
  }

  // `maildir_flags`.
  function Flags(name: string): string {
    match Find(name, INFO) case None => "" case Some(p) => if p + 3 <= |name| then Letters(name[p + 3..]) else ""
  }

  function Picked(order: string, s: string): string {
    if order == "" then "" else (if order[0] in s then [order[0]] else "") + Picked(order[1..], s)
  }

  // `normalize_flags`: each letter once, in order.
  function Normalized(s: string): string {
    Picked(FLAG_LETTERS, s)
  }

  function Erased(s: string, c: char): string {
    if s == "" then "" else if s[0] == c then s[1..] else [s[0]] + Erased(s[1..], c)
  }

  function ErasedAll(s: string, want: string): string
    decreases |want|
  {
    if want == "" then s else ErasedAll(Erased(s, want[0]), want[1..])
  }

  function AddedAll(s: string, want: string): string
    decreases |want|
  {
    if want == "" then s else AddedAll(if want[0] in s then s else s + [want[0]], want[1..])
  }

  datatype Op = Set | Add | Remove

  function NewFlags(op: Op, cur: string, want: string): string {
    match op
    case Set => want
    case Add => AddedAll(cur, want)
    case Remove => ErasedAll(cur, want)
  }

  // Where `apply_flags` moves a file.
  function Renamed(f: File, flags: string): File {
    File(false, Base(f.name) + INFO + Normalized(flags))
  }

  lemma BaseClean(name: string)
    ensures Find(Base(name), INFO).None?
  {
    hide Find;
    FindSpec(name, INFO);
    FindSpec(Base(name), INFO);
    var p := Find(name, INFO);
    if p.Some? {
      var b := Base(name);
      forall j | 0 <= j && j + 3 <= |b|
        ensures !At(b, INFO, j)
      {
        assert !At(name, INFO, j);
        assert name[j..j + 3] == b[j..j + 3];
      }
    }
  }

  lemma InfoFound(base: string, rest: string)
    requires Find(base, INFO).None?
    ensures Find(base + INFO + rest, INFO) == Some(|base|)
  {
    hide Find;
    var s := base + INFO + rest;
    FindSpec(base, INFO);
    forall j | 0 <= j < |base|
      ensures !At(s, INFO, j)
    {
      if j + 3 <= |base| {
        assert s[j..j + 3] == base[j..j + 3];
        assert !At(base, INFO, j);
      } else if j + 2 == |base| {
        assert s[j..j + 3][2] == s[j + 2] == ':';
      } else {
        assert s[j..j + 3][1] == s[j + 1] == ':';
      }
    }
    assert s[|base|..|base| + 3] == INFO;
    FindIs(s, INFO, |base|);
  }

  // Storing flags keeps the message's own name, and reads back as the flags stored.
  lemma RenamedReads(f: File, flags: string)
    ensures Base(Renamed(f, flags).name) == Base(f.name)
    ensures Flags(Renamed(f, flags).name) == Normalized(flags)
  {
    hide Find, Normalized;
    var b, n := Base(f.name), Normalized(flags);
    BaseClean(f.name);
    InfoFound(b, n);
    var s := b + INFO + n;
    assert s[..|b|] == b && s[|b| + 3..] == n;
    PickedLetters(FLAG_LETTERS, flags);
    NormalizedIs(flags);
    LettersKept(n);
  }

  lemma NormalizedIs(s: string)
    ensures Normalized(s) == Picked(FLAG_LETTERS, s)
  {
  }

  lemma {:induction false} PickedLetters(order: string, s: string)
    ensures forall c :: c in Picked(order, s) <==> c in order && c in s
    decreases |order|
  {
    if order != "" {
      PickedLetters(order[1..], s);
    }
  }

  lemma {:induction false} LettersKept(s: string)
    requires forall c :: c in s ==> c in FLAG_LETTERS
    ensures Letters(s) == s
    decreases |s|
  {
    if s != "" {
      assert s[0] in s;
      LettersKept(s[1..]);
    }
  }

  // ---------- what a STORE leaves ----------

  lemma {:induction false} AddedLetters(s: string, want: string)
    ensures forall c :: c in AddedAll(s, want) <==> c in s || c in want
    decreases |want|
  {
    if want != "" {
      AddedLetters(if want[0] in s then s else s + [want[0]], want[1..]);
    }
  }

  lemma {:induction false} ErasedOne(s: string, c: char)
    ensures multiset(Erased(s, c)) == multiset(s) - multiset{c}
    decreases |s|
  {
    if s != "" {
      assert s == [s[0]] + s[1..];
      if s[0] != c {
        ErasedOne(s[1..], c);
      }
    }
  }

  lemma {:induction false} ErasedLetters(s: string, want: string)
    ensures multiset(ErasedAll(s, want)) == multiset(s) - multiset(want)
    decreases |want|
  {
    if want != "" {
      assert want == [want[0]] + want[1..];
      ErasedOne(s, want[0]);
      ErasedLetters(Erased(s, want[0]), want[1..]);
    }
  }

  // The flags a message has after a STORE, letter by letter. A letter is taken away only as
  // often as it is asked for: in a name that holds it twice it survives one removal.
  lemma StoredFlags(f: File, op: Op, want: string, c: char)
    requires c in FLAG_LETTERS
    ensures var cur := Flags(f.name); var after := Flags(Renamed(f, NewFlags(op, cur, want)).name);
            && (op == Set ==> (c in after <==> c in want))
            && (op == Add ==> (c in after <==> c in cur || c in want))
            && (op == Remove ==> (c in after <==> multiset(cur)[c] > multiset(want)[c]))
  {
    hide Find, Flags, Base, Renamed;
    var cur := Flags(f.name);
    var nf := NewFlags(op, cur, want);
    RenamedReads(f, nf);
    PickedLetters(FLAG_LETTERS, nf);
    AddedLetters(cur, want);
    ErasedLetters(cur, want);
    assert c in ErasedAll(cur, want) <==> multiset(ErasedAll(cur, want))[c] > 0;
  }

  lemma DoubledFlagSurvives()
    ensures var name := "m:2,SS"; 'S' in Flags(Renamed(File(false, name), NewFlags(Remove, Flags(name), "S")).name)
  {
    hide Find, Renamed, NewFlags;
    FindHere("m", "SS");
    assert "m" + INFO + "SS" == "m:2,SS";
    assert Letters("SS") == "SS" by {
      assert "SS"[1..] == "S" && "S"[1..] == "";
    }
    StoredFlags(File(false, "m:2,SS"), Remove, "S", 'S');
  }

  lemma FindHere(base: string, rest: string)
    requires |base| == 1
    ensures Find(base + INFO + rest, INFO) == Some(1) && (base + INFO + rest)[4..] == rest
  {
    hide Find;
    FindSpec(base, INFO);
    InfoFound(base, rest);
  }

  // ---------- sequence sets ----------

  predicate Space(c: char) {
    c == ' ' || '\t' <= c <= '\r'
  }

  predicate IsDigit(c: char) {
    '0' <= c <= '9'
  }

  function Number(s: string, acc: nat): nat {
    if s != "" && IsDigit(s[0]) then Number(s[1..], 10 * acc + (s[0] as int - '0' as int)) else acc
  }

  function Unspaced(s: string): string {
    if s != "" && Space(s[0]) then Unspaced(s[1..]) else s
  }

  const LONG_MAX := 0x7FFF_FFFF_FFFF_FFFF

  // `std::stol`: None where it throws. Whatever follows the digits is ignored.
  function Stol(s: string): Option<int> {
    var t := Unspaced(s);
    var neg := t != "" && t[0] == '-';
    var u := if t != "" && (t[0] == '-' || t[0] == '+') then t[1..] else t;
    if u == "" || !IsDigit(u[0]) then None
    else
      var n: int := Number(u, 0);
      if n > LONG_MAX + (if neg then 1 else 0) then None else Some(if neg then -n else n)
  }

  function SeqNumber(s: string, count: nat, default: nat): nat {
    if s == "*" then count
    else match Stol(s) case None => default case Some(v) => if v < 1 then default else v
  }

  function Ordered(lo: nat, hi: nat, count: nat): Option<(nat, nat)> {
    var l, h := if lo > hi then hi else lo, if lo > hi then lo else hi;
    var l1, h1 := if l < 1 then 1 else l, if h > count then count else h;
    if l1 <= h1 then Some((l1, h1)) else None
  }

  // `parse_seqset`: the first and last sequence number meant, or none.
  function ParseSeqset(s: string, count: nat): (r: Option<(nat, nat)>)
    ensures r.Some? ==> 1 <= r.value.0 <= r.value.1 <= count
  {
    if count == 0 then None
    else match Find(s, ":")
      case None => Ordered(SeqNumber(s, count, 1), SeqNumber(s, count, 1), count)
      case Some(k) =>
        if k + 1 > |s| then None
        else Ordered(SeqNumber(s[..k], count, 1), SeqNumber(s[k + 1..], count, count), count)
  }

  // A number or star of section 9 of RFC 3501: digits not starting with zero, or `*`.
  predicate WellFormed(s: string) {
    s == "*" || (s != "" && s[0] != '0' && (forall c :: c in s ==> IsDigit(c)) && Number(s, 0) <= LONG_MAX)
  }

  function Meant(s: string, count: nat): nat {
    if s == "*" then count else Number(s, 0)
  }

  predicate Covers(r: Option<(nat, nat)>, i: nat) {
    r.Some? && r.value.0 <= i <= r.value.1
  }

  lemma {:induction false} NumberGrows(s: string, acc: nat)
    ensures Number(s, acc) >= acc
    decreases |s|
  {
    if s != "" && IsDigit(s[0]) {
      NumberGrows(s[1..], 10 * acc + (s[0] as int - '0' as int));
    }
  }

  lemma NumberMeant(s: string, count: nat, default: nat)
    requires WellFormed(s)
    ensures SeqNumber(s, count, default) == Meant(s, count) && Find(s, ":").None?
    ensures s != "*" ==> Meant(s, count) >= 1
  {
    hide Find;
    if s != "*" {
      NoColon(s);
    } else {
      NoColon("*");
    }
    if s != "*" {
      assert s[0] in s;
      NumberGrows(s[1..], s[0] as int - '0' as int);
    }
  }

  // A well-formed number, or range in either order, covers exactly the existing sequence
  // numbers it means.
  lemma SeqsetExact(a: string, b: string, count: nat, i: nat)
    requires WellFormed(a) && WellFormed(b)
    ensures Covers(ParseSeqset(a, count), i) <==> 1 <= i <= count && i == Meant(a, count)
    ensures Covers(ParseSeqset(a + ":" + b, count), i) <==>
              && 1 <= i <= count
              && (Meant(a, count) <= i <= Meant(b, count) || Meant(b, count) <= i <= Meant(a, count))
  {
    hide Find, SeqNumber;
    NumberMeant(a, count, 1);
    NumberMeant(b, count, count);
    ColonFound(a, b);
  }

  lemma ColonFound(a: string, b: string)
    requires Find(a, ":").None?
    ensures var s := a + ":" + b; Find(s, ":") == Some(|a|) && s[..|a|] == a && s[|a| + 1..] == b
  {
    hide Find;
    var s := a + ":" + b;
    FindSpec(a, ":");
    forall j | 0 <= j < |a|
      ensures !At(s, ":", j)
    {
      assert s[j..j + 1] == a[j..j + 1];
      assert !At(a, ":", j);
    }
    assert s[|a|..|a| + 1] == ":";
    FindIs(s, ":", |a|);
  }

  lemma NoColon(s: string)
    requires ':' !in s
    ensures Find(s, ":").None?
  {
    hide Find;
    FindSpec(s, ":");
    forall j | 0 <= j < |s|
      ensures !At(s, ":", j)
    {
      assert s[j..j + 1][0] == s[j] && s[j] in s;
    }
  }

  // ---------- lists of sequence numbers ----------

  // A sequence set is a list of numbers and ranges with commas between them.
  datatype Item = One(a: string) | Range(a: string, b: string)

  predicate ValidItem(it: Item) {
    WellFormed(it.a) && (it.Range? ==> WellFormed(it.b))
  }

  predicate ValidList(items: seq<Item>) {
    items != [] && forall k :: 0 <= k < |items| ==> ValidItem(items[k])
  }

  function ItemText(it: Item): string {
    if it.Range? then it.a + ":" + it.b else it.a
  }

  function ListText(items: seq<Item>): string
    requires items != []
  {
    if |items| == 1 then ItemText(items[0]) else ItemText(items[0]) + "," + ListText(items[1..])
  }

  predicate Between(x: nat, y: nat, i: nat) {
    x <= i <= y || y <= i <= x
  }

  predicate ItemMeans(it: Item, count: nat, i: nat) {
    1 <= i <= count && Between(Meant(it.a, count), if it.Range? then Meant(it.b, count) else Meant(it.a, count), i)
  }

  // What section 9 of RFC 3501 means by a list: every item of it.
  predicate ListMeans(items: seq<Item>, count: nat, i: nat) {
    exists k :: 0 <= k < |items| && ItemMeans(items[k], count, i)
  }

  // The number at the front of the list; a star with a comma behind it is none, and read as 1.
  function FirstNumber(items: seq<Item>, count: nat): nat
    requires items != []
  {
    if items[0].Range? || |items| == 1 || items[0].a != "*" then Meant(items[0].a, count) else 1
  }

  // The number behind the first colon, if there is one.
  function SecondNumber(items: seq<Item>, count: nat, none: nat): nat {
    if items == [] then none
    else if items[0].Range? then Meant(items[0].b, count)
    else SecondNumber(items[1..], count, none)
  }

  predicate HasRange(items: seq<Item>) {
    items != [] && (items[0].Range? || HasRange(items[1..]))
  }

  // The list cut at its first colon.
  function Before(items: seq<Item>): string
    requires HasRange(items)
  {
    if items[0].Range? then items[0].a else items[0].a + "," + Before(items[1..])
  }

  function After(items: seq<Item>): string
    requires HasRange(items)
  {
    if !items[0].Range? then After(items[1..])
    else if |items| == 1 then items[0].b
    else items[0].b + "," + ListText(items[1..])
  }

  lemma {:induction false} CutAtColon(items: seq<Item>)
    requires ValidList(items) && HasRange(items)
    ensures ListText(items) == Before(items) + ":" + After(items) && ':' !in Before(items)
    decreases |items|
  {
    hide WellFormed;
    var a := items[0].a;
    PlainNumber(a);
    if items[0].Range? {
      if |items| > 1 {
        Brackets(a + ":", items[0].b, "," + ListText(items[1..]));
      }
    } else {
      var x, y := Before(items[1..]), After(items[1..]);
      CutAtColon(items[1..]);
      Brackets(a + ",", x, ":" + y);
    }
  }

  lemma Brackets(a: string, b: string, c: string)
    ensures a + (b + c) == (a + b) + c
  {
  }

  lemma {:induction false} NothingToCut(items: seq<Item>)
    requires ValidList(items) && !HasRange(items)
    ensures ':' !in ListText(items)
    decreases |items|
  {
    PlainNumber(items[0].a);
    if |items| > 1 {
      NothingToCut(items[1..]);
    }
  }

  lemma PlainNumber(s: string)
    requires WellFormed(s)
    ensures ':' !in s && ',' !in s
  {
  }

  lemma {:induction false} NumberStops(s: string, rest: string, acc: nat)
    requires forall c :: c in s ==> IsDigit(c)
    ensures Number(s + "," + rest, acc) == Number(s, acc)
    decreases |s|
  {
    if s != "" {
      assert s[0] in s;
      assert (s + "," + rest)[1..] == s[1..] + "," + rest;
      NumberStops(s[1..], rest, 10 * acc + (s[0] as int - '0' as int));
    }
  }

  // A number is read up to the comma behind it; a star is not read at all.
  lemma FrontRead(s: string, rest: string, count: nat, default: nat)
    requires WellFormed(s)
    ensures SeqNumber(s + "," + rest, count, default) == if s == "*" then default else Meant(s, count)
  {
    hide Number;
    var t := s + "," + rest;
    assert t[|s|] == ',' && t[0] == s[0] && s[0] in s;
    assert t != "*" && Unspaced(t) == t;
    if s != "*" {
      NumberStops(s, rest, 0);
      NumberMeant(s, count, default);
      assert Stol(t) == Some(Number(s, 0));
    } else {
      assert Stol(t).None?;
    }
  }

  lemma FirstRead(items: seq<Item>, count: nat)
    requires ValidList(items)
    ensures HasRange(items) ==> SeqNumber(Before(items), count, 1) == FirstNumber(items, count)
    ensures !HasRange(items) ==> SeqNumber(ListText(items), count, 1) == FirstNumber(items, count)
  {
    hide SeqNumber, WellFormed, Meant;
    var a := items[0].a;
    NumberMeant(a, count, 1);
    if !items[0].Range? && |items| > 1 {
      FrontRead(a, if HasRange(items) then Before(items[1..]) else ListText(items[1..]), count, 1);
    } else if !items[0].Range? {
      assert items[1..] == [];
      assert !HasRange(items[1..]);
    }
  }

  lemma {:induction false} SecondRead(items: seq<Item>, count: nat, none: nat)
    requires ValidList(items)
    ensures HasRange(items) ==> SeqNumber(After(items), count, count) == SecondNumber(items, count, none)
    ensures !HasRange(items) ==> SecondNumber(items, count, none) == none
    decreases |items|
  {
    hide SeqNumber, WellFormed;
    if items[0].Range? {
      var b := items[0].b;
      NumberMeant(b, count, count);
      if |items| > 1 {
        FrontRead(b, ListText(items[1..]), count, count);
      }
    } else if |items| > 1 {
      SecondRead(items[1..], count, none);
    } else {
      assert items[1..] == [];
      assert !HasRange(items[1..]);
    }
  }

  // A list covers the numbers between the one at its front and the one behind its first
  // colon; without a colon, the one at its front.
  lemma ListCovers(items: seq<Item>, count: nat, i: nat)
    requires ValidList(items)
    ensures var first := FirstNumber(items, count);
            var second := SecondNumber(items, count, first);
            Covers(ParseSeqset(ListText(items), count), i) <==> 1 <= i <= count && Between(first, second, i)
  {
    hide Find, SeqNumber, Meant, WellFormed, ListText, Before, After;
    var s := ListText(items);
    var first := FirstNumber(items, count);
    FirstRead(items, count);
    SecondRead(items, count, first);
    if HasRange(items) {
      CutAtColon(items);
      NoColon(Before(items));
      ColonFound(Before(items), After(items));
    } else {
      NothingToCut(items);
      NoColon(s);
    }
  }

  // The existing numbers of an item lie between the two.
  predicate ItemInside(it: Item, count: nat, x: nat, y: nat) {
    var a, b := Meant(it.a, count), if it.Range? then Meant(it.b, count) else Meant(it.a, count);
    var lo, hi := if a <= b then a else b, if a <= b then b else a;
    count == 0 || lo > count || (Between(x, y, lo) && Between(x, y, if hi > count then count else hi))
  }

  // Every item lies between the front number and the one behind the first colon, and every
  // message between them is listed.
  predicate Snug(items: seq<Item>, count: nat)
    requires items != []
  {
    var x := FirstNumber(items, count);
    var y := SecondNumber(items, count, x);
    && (forall k :: 0 <= k < |items| ==> ItemInside(items[k], count, x, y))
    && (forall i :: 1 <= i <= count && Between(x, y, i) ==> ListMeans(items, count, i))
  }

  // So a list covers what it means exactly when it is snug.
  lemma ListExact(items: seq<Item>, count: nat)
    requires ValidList(items)
    ensures (forall i: nat :: Covers(ParseSeqset(ListText(items), count), i) <==> ListMeans(items, count, i))
       <==> Snug(items, count)
  {
    hide Covers, ParseSeqset, Meant, WellFormed, FirstNumber, SecondNumber, ListText, ItemInside, ItemMeans;
    var x := FirstNumber(items, count);
    var y := SecondNumber(items, count, x);
    forall i: nat
      ensures Covers(ParseSeqset(ListText(items), count), i) <==> 1 <= i <= count && Between(x, y, i)
    {
      ListCovers(items, count, i);
    }
    forall k | 0 <= k < |items|
      ensures ItemInside(items[k], count, x, y)
         <==> forall i: nat :: ItemMeans(items[k], count, i) ==> Between(x, y, i)
      ensures forall i: nat :: ItemMeans(items[k], count, i) ==> 1 <= i <= count
    {
      InsideExact(items[k], count, x, y);
    }
    if forall i: nat :: Covers(ParseSeqset(ListText(items), count), i) <==> ListMeans(items, count, i) {
      forall k, i: nat | 0 <= k < |items| && ItemMeans(items[k], count, i)
        ensures Between(x, y, i)
      {
        assert ListMeans(items, count, i);
        assert Covers(ParseSeqset(ListText(items), count), i);
      }
      forall i | 1 <= i <= count && Between(x, y, i)
        ensures ListMeans(items, count, i)
      {
        assert Covers(ParseSeqset(ListText(items), count), i);
      }
    }
  }

  lemma InsideExact(it: Item, count: nat, x: nat, y: nat)
    requires ValidItem(it)
    ensures ItemInside(it, count, x, y) <==> forall i: nat :: ItemMeans(it, count, i) ==> Between(x, y, i)
    ensures forall i: nat :: ItemMeans(it, count, i) ==> 1 <= i <= count
  {
    hide WellFormed, Meant;
    var a, b := Meant(it.a, count), if it.Range? then Meant(it.b, count) else Meant(it.a, count);
    var lo, hi := if a <= b then a else b, if a <= b then b else a;
    var top := if hi > count then count else hi;
    StarOrMore(it.a, count);
    if it.Range? {
      StarOrMore(it.b, count);
    }
    if lo <= count && count > 0 {
      assert ItemMeans(it, count, lo) && ItemMeans(it, count, top);
    }
  }

  lemma StarOrMore(s: string, count: nat)
    requires WellFormed(s)
    ensures Meant(s, count) >= 1 || count == 0
  {
    NumberMeant(s, count, 1);
  }

  // The list `1,3:5` covers message 2, which it does not mean.
  lemma ListCoversMore()
    ensures var items := [One("1"), Range("3", "5")];
            ListText(items) == "1,3:5" && ValidList(items) && !ListMeans(items, 5, 2)
    ensures ParseSeqset("1,3:5", 5) == Some((1, 5))
  {
    hide Find;
    var items := [One("1"), Range("3", "5")];
    assert items[1..] == [Range("3", "5")];
    assert "3" + ":" + "5" == "3:5" && "1" + "," + "3:5" == "1,3:5";
    assert "1"[1..] == "" && "3"[1..] == "" && "5"[1..] == "";
    ListCovers(items, 5, 1);
    ListCovers(items, 5, 5);
  }

  // No number, or none of a message.
  predicate Unreadable(s: string) {
    s != "*" && (Stol(s).None? || Stol(s).value < 1)
  }

  // A text without a number at its front means the first message; as the ends of a range two
  // such texts mean all messages.
  lemma WordRead(s: string, count: nat, i: nat)
    requires ':' !in s && Unreadable(s)
    ensures Covers(ParseSeqset(s, count), i) <==> i == 1 <= count
    ensures forall t :: Unreadable(t) ==> (Covers(ParseSeqset(s + ":" + t, count), i) <==> 1 <= i <= count)
  {
    hide Find, Stol;
    NoColon(s);
    forall t | Unreadable(t)
      ensures Covers(ParseSeqset(s + ":" + t, count), i) <==> 1 <= i <= count
    {
      ColonFound(s, t);
    }
  }

  // Without a colon only the front of a list is read, and a word as the first message.
  lemma ListReadShort()
    ensures ParseSeqset("1,3", 5) == Some((1, 1))
    ensures ParseSeqset("x", 5) == Some((1, 1))
  {
    hide Find;
    NoColon("1,3");
    NoColon("x");
    assert "1,3"[1..] == ",3";
  }

  // ---------- the session ----------

  datatype State = State(authenticated: bool, selected: bool, messages: seq<File>)

  datatype Response = Exists(n: nat) | Recent(n: nat) | Expunged(i: nat) | Fetched(i: nat, flags: string)

  // What the mailbox and the file system answer is part of the command: the files listed, the
  // renames that fail (by sequence number), the files that cannot be removed.
  datatype Command =
    | Login(ok: bool)
    | StartTls
    | Select(known: bool, files: seq<File>)
    | IdleTick(files: seq<File>)
    | Store(seqset: string, op: Op, want: string, silent: bool, failing: set<nat>)
    | Expunge(stuck: set<File>)
    | Other

  const START := State(false, false, [])

  function RecentCount(files: seq<File>): nat {
    if files == [] then 0 else (if files[0].isNew then 1 else 0) + RecentCount(files[1..])
  }

  // The files not yet in the snapshot, in the order listed.
  function Unknown(messages: seq<File>, files: seq<File>): seq<File> {
    if files == [] then []
    else (if files[0] in messages then [] else [files[0]]) + Unknown(messages, files[1..])
  }

  function StoredFile(f: File, op: Op, want: string): File {
    Renamed(f, NewFlags(op, Flags(f.name), want))
  }

  // `apply_flags` asks for a rename only where the name changes.
  predicate Skipped(f: File, op: Op, want: string, i: nat, failing: set<nat>) {
    StoredFile(f, op, want) != f && i in failing
  }

  function StoreRange(messages: seq<File>, lo: nat, hi: nat, op: Op, want: string, silent: bool, failing: set<nat>)
    : (seq<Response>, seq<File>)
    requires 1 <= lo && hi <= |messages|
    decreases hi + 1 - lo
  {
    if lo > hi then ([], messages)
    else
      var f := messages[lo - 1];
      if Skipped(f, op, want, lo, failing) then StoreRange(messages, lo + 1, hi, op, want, silent, failing)
      else
        var (rs, ms) := StoreRange(messages[lo - 1 := StoredFile(f, op, want)], lo + 1, hi, op, want, silent, failing);
        ((if silent then [] else [Fetched(lo, Normalized(NewFlags(op, Flags(f.name), want)))]) + rs, ms)
  }

  predicate Deleted(f: File) {
    'T' in Flags(f.name)
  }

  predicate Goes(f: File, stuck: set<File>) {
    Deleted(f) && f !in stuck
  }

  // From position `i` down.
  function ExpungeFrom(messages: seq<File>, i: nat, stuck: set<File>): (seq<Response>, seq<File>)
    requires i <= |messages|
    decreases i
  {
    if i == 0 then ([], messages)
    else if Goes(messages[i - 1], stuck) then
      var (rs, ms) := ExpungeFrom(messages[..i - 1] + messages[i..], i - 1, stuck);
      ([Expunged(i)] + rs, ms)
    else ExpungeFrom(messages, i - 1, stuck)
  }

  // One command: the untagged responses, and the state after it.
  function Step(st: State, c: Command): (seq<Response>, State) {
    match c
    case Login(ok) => ([], if ok then st.(authenticated := true) else st)
    case StartTls => ([], START)
    case Select(known, files) =>
      if !st.authenticated || !known then ([], st)
      else ([Exists(|files|), Recent(RecentCount(files))], st.(selected := true, messages := files))
    case IdleTick(files) =>
      var added := Unknown(st.messages, files);
      if !st.authenticated || !st.selected || added == [] then ([], st)
      else
        var ms := st.messages + added;
        ([Exists(|ms|), Recent(RecentCount(ms))], st.(messages := ms))
    case Store(seqset, op, want, silent, failing) =>
      if !st.authenticated || !st.selected then ([], st)
      else (match ParseSeqset(seqset, |st.messages|)
            case None => ([], st)
            case Some((lo, hi)) =>
              var (rs, ms) := StoreRange(st.messages, lo, hi, op, want, silent, failing);
              (rs, st.(messages := ms)))
    case Expunge(stuck) =>
      if !st.authenticated || !st.selected then ([], st)
      else
        var (rs, ms) := ExpungeFrom(st.messages, |st.messages|, stuck);
        (rs, st.(messages := ms))
    case Other => ([], st)
  }

  class Session {
    var authenticated: bool
    var selected: bool
    var messages: seq<File>

    ghost function Model(): State
      reads this
    {
      State(authenticated, selected, messages)
    }

    constructor ()
      ensures Model() == START
    {
      authenticated, selected, messages := false, false, [];
    }

    method DoLogin(ok: bool)
      modifies this
      ensures ([], Model()) == Step(old(Model()), Login(ok))
    {
      if ok {
        authenticated := true;
      }
    }

    method DoStartTls()
      modifies this
      ensures ([], Model()) == Step(old(Model()), StartTls)
    {
      authenticated, selected, messages := false, false, [];
    }

    method DoSelect(known: bool, files: seq<File>) returns (out: seq<Response>)
      modifies this
      ensures (out, Model()) == Step(old(Model()), Select(known, files))
    {
      if !authenticated || !known {
        return [];
      }
      selected := true;
      messages := files;
      out := [Exists(|messages|), Recent(RecentCount(messages))];
    }

    method DoIdleTick(files: seq<File>) returns (out: seq<Response>)
      modifies this
      ensures (out, Model()) == Step(old(Model()), IdleTick(files))
    {
      if !authenticated || !selected {
        return [];
      }
      var added := [];
      var k := 0;
      assert files[0..] == files;
      while k < |files|
        invariant 0 <= k <= |files| && added + Unknown(messages, files[k..]) == Unknown(messages, files)
      {
        assert files[k..][1..] == files[k + 1..];
        if files[k] !in messages {
          added := added + [files[k]];
        }
        k := k + 1;
      }
      assert added == Unknown(messages, files);
      if added == [] {
        return [];
      }
      messages := messages + added;
      out := [Exists(|messages|), Recent(RecentCount(messages))];
    }

    method DoStore(seqset: string, op: Op, want: string, silent: bool, failing: set<nat>) returns (out: seq<Response>)
      modifies this
      ensures (out, Model()) == Step(old(Model()), Store(seqset, op, want, silent, failing))
    {
      hide ParseSeqset, Renamed, NewFlags, Normalized, Flags, StoreRange;
      out := [];
      if !authenticated || !selected {
        return;
      }
      var range := ParseSeqset(seqset, |messages|);
      if range.None? {
        return;
      }
      var (lo, hi) := range.value;
      SeqsetRange(seqset, |messages|);
      ghost var all := StoreRange(messages, lo, hi, op, want, silent, failing);
      var i := lo;
      assert [] + all.0 == all.0;
      while i <= hi
        invariant lo <= i <= hi + 1 && |messages| == |old(messages)| && 1 <= lo && hi <= |messages|
        invariant authenticated == old(authenticated) && selected == old(selected)
        invariant var (rs, ms) := StoreRange(messages, i, hi, op, want, silent, failing); (out + rs, ms) == all
      {
        var f := messages[i - 1];
        var nf := NewFlags(op, Flags(f.name), want);
        var np := Renamed(f, nf);
        StoreUnfold(messages, i, hi, op, want, silent, failing, out);
        if np == f || i !in failing {
          messages := messages[i - 1 := np];
          if !silent {
            out := out + [Fetched(i, Normalized(nf))];
          }
        }
        i := i + 1;
      }
      StoreNone(messages, i, hi, op, want, silent, failing, out);
    }

    method DoExpunge(stuck: set<File>) returns (out: seq<Response>)
      modifies this
      ensures (out, Model()) == Step(old(Model()), Expunge(stuck))
    {
      hide Flags, ExpungeFrom;
      out := [];
      if !authenticated || !selected {
        return;
      }
      ghost var all := ExpungeFrom(messages, |messages|, stuck);
      assert [] + all.0 == all.0;
      var i := |messages|;
      while i >= 1
        invariant 0 <= i <= |messages|
        invariant authenticated == old(authenticated) && selected == old(selected)
        invariant var (rs, ms) := ExpungeFrom(messages, i, stuck); (out + rs, ms) == all
      {
        var f := messages[i - 1];
        ExpungeUnfold(messages, i, stuck, out);
        if 'T' in Flags(f.name) && f !in stuck {
          messages := messages[..i - 1] + messages[i..];
          out := out + [Expunged(i)];
        }
        i := i - 1;
      }
      ExpungeNone(messages, stuck, out);
    }
  }

  lemma StoreUnfold(messages: seq<File>, i: nat, hi: nat, op: Op, want: string, silent: bool, failing: set<nat>,
      out: seq<Response>)
    requires 1 <= i <= hi <= |messages|
    ensures var (rs, ms) := StoreRange(messages, i, hi, op, want, silent, failing);
            var f := messages[i - 1]; var nf := NewFlags(op, Flags(f.name), want); var np := Renamed(f, nf);
            if np == f || i !in failing then
              var (rs1, ms1) := StoreRange(messages[i - 1 := np], i + 1, hi, op, want, silent, failing);
              ms == ms1 && out + rs == (if silent then out else out + [Fetched(i, Normalized(nf))]) + rs1
            else
              var (rs1, ms1) := StoreRange(messages, i + 1, hi, op, want, silent, failing);
              ms == ms1 && out + rs == out + rs1
  {
    hide Renamed, NewFlags, Normalized, Flags;
  }

  lemma StoreNone(messages: seq<File>, i: nat, hi: nat, op: Op, want: string, silent: bool, failing: set<nat>,
      out: seq<Response>)
    requires 1 <= i && hi < i && hi <= |messages|
    ensures StoreRange(messages, i, hi, op, want, silent, failing) == ([], messages) && out + [] == out
  {
  }

  lemma ExpungeUnfold(messages: seq<File>, i: nat, stuck: set<File>, out: seq<Response>)
    requires 1 <= i <= |messages|
    ensures var (rs, ms) := ExpungeFrom(messages, i, stuck);
            var f := messages[i - 1];
            if 'T' in Flags(f.name) && f !in stuck then
              var (rs1, ms1) := ExpungeFrom(messages[..i - 1] + messages[i..], i - 1, stuck);
              ms == ms1 && out + rs == out + [Expunged(i)] + rs1
            else
              var (rs1, ms1) := ExpungeFrom(messages, i - 1, stuck);
              ms == ms1 && out + rs == out + rs1
  {
    hide Flags;
  }

  lemma ExpungeNone(messages: seq<File>, stuck: set<File>, out: seq<Response>)
    ensures ExpungeFrom(messages, 0, stuck) == ([], messages) && out + [] == out
  {
  }

  lemma SeqsetRange(s: string, count: nat)
    ensures var r := ParseSeqset(s, count); r.Some? ==> 1 <= r.value.0 <= r.value.1 <= count
  {
  }

  // ---------- the client ----------

  // The client's list of messages, each by the name it keeps; None once a response makes no
  // sense to it. On a new count it looks up the messages it does not know yet.
  function Heard(view: Option<seq<string>>, r: Response, now: seq<File>): Option<seq<string>> {
    if view.None? then None
    else
      var v := view.value;
      match r
      case Exists(n) => if |v| <= n <= |now| then Some(v + Names(now[|v|..n])) else None
      case Recent(_) => view
      case Expunged(i) => if 1 <= i <= |v| then Some(v[..i - 1] + v[i..]) else None
      case Fetched(i, _) => if 1 <= i <= |v| then view else None
  }

  function HeardAll(view: Option<seq<string>>, rs: seq<Response>, now: seq<File>): Option<seq<string>>
    decreases |rs|
  {
    if rs == [] then view else HeardAll(Heard(view, rs[0], now), rs[1..], now)
  }

  function Names(files: seq<File>): seq<string> {
    seq(|files|, i requires 0 <= i < |files| => Base(files[i].name))
  }

  // A new selection starts a new list.
  function ViewBefore(view: Option<seq<string>>, st: State, c: Command): Option<seq<string>> {
    if c.StartTls? || (c.Select? && st.authenticated && c.known) then Some([]) else view
  }

  function Run(st: State, cs: seq<Command>): State
    decreases |cs|
  {
    if cs == [] then st else Run(Step(st, cs[0]).1, cs[1..])
  }

  function ViewAfter(view: Option<seq<string>>, st: State, cs: seq<Command>): Option<seq<string>>
    decreases |cs|
  {
    if cs == [] then view
    else
      var (rs, st1) := Step(st, cs[0]);
      ViewAfter(HeardAll(ViewBefore(view, st, cs[0]), rs, st1.messages), st1, cs[1..])
  }

  // STORE renames in place: the same names at the same positions, and only positions that exist
  // are reported.
  lemma {:induction false} StoreKeeps(messages: seq<File>, lo: nat, hi: nat, op: Op, want: string, silent: bool,
      failing: set<nat>, now: seq<File>)
    requires 1 <= lo && hi <= |messages|
    ensures var (rs, ms) := StoreRange(messages, lo, hi, op, want, silent, failing);
            && |ms| == |messages| && Names(ms) == Names(messages)
            && HeardAll(Some(Names(messages)), rs, now) == Some(Names(messages))
    decreases hi + 1 - lo
  {
    hide Flags, Base, Renamed, Normalized, NewFlags;
    if lo <= hi {
      var f := messages[lo - 1];
      if Skipped(f, op, want, lo, failing) {
        StoreKeeps(messages, lo + 1, hi, op, want, silent, failing, now);
      } else {
        var np := StoredFile(f, op, want);
        var next := messages[lo - 1 := np];
        RenamedReads(f, NewFlags(op, Flags(f.name), want));
        assert Names(next) == Names(messages);
        StoreKeeps(next, lo + 1, hi, op, want, silent, failing, now);
        var rs := StoreRange(next, lo + 1, hi, op, want, silent, failing).0;
        if !silent {
          var r := Fetched(lo, Normalized(NewFlags(op, Flags(f.name), want)));
          HeardCons(Some(Names(messages)), r, rs, now);
        } else {
          assert [] + rs == rs;
        }
      }
    }
  }

  lemma HeardCons(view: Option<seq<string>>, r: Response, rs: seq<Response>, now: seq<File>)
    ensures HeardAll(view, [r] + rs, now) == HeardAll(Heard(view, r, now), rs, now)
  {
    assert ([r] + rs)[1..] == rs;
  }

  // EXPUNGE reports in descending order, each number as it is when reported, so a client that
  // applies them in turn is left with the server's list.
  lemma {:induction false} ExpungeFollowed(messages: seq<File>, i: nat, stuck: set<File>, now: seq<File>)
    requires i <= |messages|
    ensures var (rs, ms) := ExpungeFrom(messages, i, stuck);
            HeardAll(Some(Names(messages)), rs, now) == Some(Names(ms))
    decreases i
  {
    hide Goes, Base;
    if i > 0 {
      if Goes(messages[i - 1], stuck) {
        var next := messages[..i - 1] + messages[i..];
        ExpungeFollowed(next, i - 1, stuck, now);
        HeardCons(Some(Names(messages)), Expunged(i), ExpungeFrom(next, i - 1, stuck).0, now);
        assert Names(next) == Names(messages)[..i - 1] + Names(messages)[i..];
      } else {
        ExpungeFollowed(messages, i - 1, stuck, now);
      }
    }
  }

  // What EXPUNGE leaves: the messages not deleted, or not removable, in their order.
  function Staying(messages: seq<File>, stuck: set<File>): seq<File> {
    if messages == [] then []
    else
      var l := messages[|messages| - 1];
      Staying(messages[..|messages| - 1], stuck) + (if Goes(l, stuck) then [] else [l])
  }

  lemma {:induction false} ExpungeLeaves(messages: seq<File>, i: nat, stuck: set<File>)
    requires i <= |messages|
    ensures ExpungeFrom(messages, i, stuck).1 == Staying(messages[..i], stuck) + messages[i..]
    decreases i
  {
    hide Goes;
    if i > 0 {
      var l := messages[i - 1];
      var front := messages[..i];
      assert front[|front| - 1] == l && front[..|front| - 1] == messages[..i - 1];
      if Goes(l, stuck) {
        var next := messages[..i - 1] + messages[i..];
        ExpungeLeaves(next, i - 1, stuck);
        assert next[..i - 1] == messages[..i - 1] && next[i - 1..] == messages[i..];
        assert Staying(front, stuck) == Staying(messages[..i - 1], stuck);
      } else {
        ExpungeLeaves(messages, i - 1, stuck);
        assert messages[i - 1..] == [l] + messages[i..];
        assert Staying(front, stuck) == Staying(messages[..i - 1], stuck) + [l];
      }
    } else {
      assert messages[..0] == [] && messages[0..] == messages;
    }
  }

  // ---------- what a list can lose ----------

  lemma {:induction false} StoreDeletes(
    messages: seq<File>, lo: nat, hi: nat, silent: bool, failing: set<nat>, k: nat)
    requires 1 <= lo && hi <= |messages| && k < |messages| && failing == {}
    ensures var ms := StoreRange(messages, lo, hi, Add, "T", silent, failing).1;
            |ms| == |messages| && (lo <= k + 1 <= hi || Deleted(messages[k]) ==> Deleted(ms[k]))
    decreases hi + 1 - lo
  {
    hide Flags, Renamed, NewFlags, Normalized;
    if lo <= hi {
      var f := messages[lo - 1];
      StoredFlags(f, Add, "T", 'T');
      StoreDeletes(messages[lo - 1 := StoredFile(f, Add, "T")], lo + 1, hi, silent, failing, k);
    }
  }

  lemma {:induction false} AllGo(messages: seq<File>)
    requires forall k :: 0 <= k < |messages| ==> Deleted(messages[k])
    ensures Staying(messages, {}) == []
    decreases |messages|
  {
    hide Deleted;
    if messages != [] {
      AllGo(messages[..|messages| - 1]);
    }
  }

  // In every mailbox of five messages `STORE 1,3:5 +FLAGS (\\Deleted)` and EXPUNGE remove all
  // five, message 2 included.
  lemma ListDeletes(st: State, silent: bool)
    requires st.authenticated && st.selected && |st.messages| == 5
    ensures var st1 := Step(st, Store("1,3:5", Add, "T", silent, {})).1; Step(st1, Expunge({})).1.messages == []
  {
    hide ParseSeqset, StoreRange, ExpungeFrom, Deleted, Staying;
    ListCoversMore();
    var ms := StoreRange(st.messages, 1, 5, Add, "T", silent, {}).1;
    forall k | 0 <= k < 5
      ensures |ms| == 5 && Deleted(ms[k])
    {
      StoreDeletes(st.messages, 1, 5, silent, {}, k);
    }
    assert |ms| == 5 by {
      StoreDeletes(st.messages, 1, 5, silent, {}, 0);
    }
    ExpungeLeaves(ms, 5, {});
    assert ms[..5] == ms && ms[5..] == [];
    AllGo(ms);
  }

  // ---------- client and server ----------

  // After every command the client holds at each position the message the server holds there.
  lemma StepAgrees(st: State, c: Command)
    ensures var (rs, st1) := Step(st, c);
            HeardAll(ViewBefore(Some(Names(st.messages)), st, c), rs, st1.messages) == Some(Names(st1.messages))
  {
    hide ParseSeqset, StoreRange, ExpungeFrom, Base, Heard, HeardAll;
    HeardNone(Some(Names(st.messages)), Step(st, c).1.messages);
    HeardNone(Some([]), Step(st, c).1.messages);
    assert Names([]) == [];
    match c {
      case Select(known, files) =>
        if st.authenticated && known {
          Counted([], files, files);
        }
      case IdleTick(files) =>
        var added := Unknown(st.messages, files);
        if st.authenticated && st.selected && added != [] {
          Counted(st.messages, added, st.messages + added);
        }
      case Store(seqset, op, want, silent, failing) =>
        var range := ParseSeqset(seqset, |st.messages|);
        if st.authenticated && st.selected && range.Some? {
          SeqsetRange(seqset, |st.messages|);
          var (lo, hi) := range.value;
          StoreKeeps(st.messages, lo, hi, op, want, silent, failing, Step(st, c).1.messages);
        }
      case Expunge(stuck) =>
        if st.authenticated && st.selected {
          ExpungeFollowed(st.messages, |st.messages|, stuck, Step(st, c).1.messages);
        }
      case _ =>
    }
  }

  lemma HeardNone(view: Option<seq<string>>, now: seq<File>)
    ensures HeardAll(view, [], now) == view
  {
  }

  lemma Counted(prior: seq<File>, added: seq<File>, now: seq<File>)
    requires now == prior + added
    ensures HeardAll(Some(Names(prior)), [Exists(|now|), Recent(RecentCount(now))], now) == Some(Names(now))
  {
    hide Base, RecentCount, HeardAll, Names;
    var r, q := Exists(|now|), Recent(RecentCount(now));
    assert [r, q] == [r] + [q] && [q] == [q] + [];
    HeardCons(Some(Names(prior)), r, [q], now);
    assert now[|prior|..|now|] == added;
    NamesCat(prior, added);
    HeardCons(Some(Names(now)), q, [], now);
    HeardNone(Some(Names(now)), now);
  }

  lemma NamesCat(a: seq<File>, b: seq<File>)
    ensures |Names(a)| == |a| && Names(a + b) == Names(a) + Names(b)
  {
    hide Base;
  }

  lemma {:induction false} SessionAgrees(st: State, cs: seq<Command>)
    ensures ViewAfter(Some(Names(st.messages)), st, cs) == Some(Names(Run(st, cs).messages))
    decreases |cs|
  {
    hide Step, HeardAll;
    if cs != [] {
      StepAgrees(st, cs[0]);
      SessionAgrees(Step(st, cs[0]).1, cs[1..]);
    }
  }

  // Between two selections only EXPUNGE takes numbers away, and only it reports so: STORE moves
  // nothing, IDLE only appends.
  lemma Stable(st: State, c: Command)
    requires !c.Select? && !c.StartTls? && !c.Expunge?
    ensures var (rs, st1) := Step(st, c);
            && Names(st.messages) <= Names(st1.messages)
            && (c.IdleTick? ==> st.messages <= st1.messages)
            && forall r :: r in rs ==> !r.Expunged?
  {
    hide ParseSeqset, StoreRange, ExpungeFrom, Base, Names;
    if c.IdleTick? {
      NamesCat(st.messages, Unknown(st.messages, c.files));
    }
    if c.Store? && st.authenticated && st.selected {
      var range := ParseSeqset(c.seqset, |st.messages|);
      if range.Some? {
        SeqsetRange(c.seqset, |st.messages|);
        var (lo, hi) := range.value;
        StoreKeeps(st.messages, lo, hi, c.op, c.want, c.silent, c.failing, []);
        StoreReports(st.messages, lo, hi, c.op, c.want, c.silent, c.failing);
      }
    }
  }

  lemma {:induction false} StoreReports(messages: seq<File>, lo: nat, hi: nat, op: Op, want: string, silent: bool,
      failing: set<nat>)
    requires 1 <= lo && hi <= |messages|
    ensures forall r :: r in StoreRange(messages, lo, hi, op, want, silent, failing).0 ==> r.Fetched?
    decreases hi + 1 - lo
  {
    hide Flags, Renamed, Normalized, NewFlags;
    if lo <= hi {
      var f := messages[lo - 1];
      if Skipped(f, op, want, lo, failing) {
        StoreReports(messages, lo + 1, hi, op, want, silent, failing);
      } else {
        StoreReports(messages[lo - 1 := StoredFile(f, op, want)], lo + 1, hi, op, want, silent, failing);
      }
    }
  }

  // ---------- a message under two numbers ----------

  ghost predicate Distinct(files: seq<File>) {
    forall i, j :: 0 <= i < j < |files| ==> Base(files[i].name) != Base(files[j].name)
  }

  ghost predicate Holds(files: seq<File>, name: string) {
    exists f :: f in files && Base(f.name) == name
  }

  lemma DistinctTail(files: seq<File>)
    requires files != [] && Distinct(files)
    ensures Distinct(files[1..]) && forall f :: f in files[1..] ==> Base(f.name) != Base(files[0].name)
  {
    hide Base;
    var rest := files[1..];
    assert forall j :: 0 <= j < |rest| ==> rest[j] == files[j + 1];
  }

  lemma DistinctCons(f: File, rest: seq<File>)
    requires Distinct(rest) && forall g :: g in rest ==> Base(g.name) != Base(f.name)
    ensures Distinct([f] + rest)
  {
    hide Base;
  }

  lemma {:induction false} UnknownIs(messages: seq<File>, files: seq<File>)
    ensures forall f :: f in Unknown(messages, files) <==> f in files && f !in messages
    ensures Distinct(files) ==> Distinct(Unknown(messages, files))
    decreases |files|
  {
    hide Base, Distinct;
    if files != [] {
      UnknownIs(messages, files[1..]);
      assert files == [files[0]] + files[1..];
      var rest := Unknown(messages, files[1..]);
      assert Unknown(messages, files) == (if files[0] in messages then [] else [files[0]]) + rest;
      assert [] + rest == rest;
      if Distinct(files) {
        DistinctTail(files);
        DistinctCons(files[0], rest);
      }
    } else {
      DistinctNone();
    }
  }

  lemma DistinctNone()
    ensures Distinct([])
  {
  }

  lemma TwiceThere(a: seq<File>, b: seq<File>, f: File, g: File)
    requires g in a && f in b && Base(f.name) == Base(g.name)
    ensures !Distinct(a + b)
  {
    hide Base;
    var i :| 0 <= i < |a| && a[i] == g;
    var j :| 0 <= j < |b| && b[j] == f;
    assert (a + b)[i] == g && (a + b)[|a| + j] == f;
  }

  // IDLE knows messages by their whole path: the client is told of a message twice exactly when
  // one it knows now has another path, as after a flag change in another session.
  lemma IdleDistinct(st: State, files: seq<File>)
    requires st.authenticated && st.selected && Distinct(st.messages) && Distinct(files)
    ensures var after := Step(st, IdleTick(files)).1.messages;
            Distinct(after) <==> forall f :: f in files && Holds(st.messages, Base(f.name)) ==> f in st.messages
  {
    hide Base;
    var ms := st.messages;
    var added := Unknown(ms, files);
    UnknownIs(ms, files);
    var after := ms + added;
    assert Step(st, IdleTick(files)).1.messages == after;
    if Distinct(after) {
      forall f | f in files && Holds(ms, Base(f.name))
        ensures f in ms
      {
        if f !in ms {
          var g :| g in ms && Base(g.name) == Base(f.name);
          TwiceThere(ms, added, f, g);
        }
      }
    }
    if forall f :: f in files && Holds(ms, Base(f.name)) ==> f in ms {
      forall i, j | 0 <= i < j < |after|
        ensures Base(after[i].name) != Base(after[j].name)
      {
        if i < |ms| <= j {
          var f := added[j - |ms|];
          assert f in added;
          assert after[i] == ms[i] && ms[i] in ms;
          assert !Holds(ms, Base(f.name));
        }
      }
    }
  }
}
