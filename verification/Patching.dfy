/** Back-patching: how the code the compiler holds while it runs relates to the symbolic code
    of `CodeGen`. A jump whose address is not known yet is emitted with address 0, and its
    position listed in the entry of the loop or switch that will patch it. */
module Patching {
  import opened Options
  import opened Values
  import opened Syntax
  import opened Bytecode
  import opened CodeGen

  // An entry of `loop_stack_`; `target` is the `continue` address, if known from the start.
  datatype Entry = Entry(isSwitch: bool, floor: nat, target: Option<nat>, breaks: seq<nat>, continues: seq<nat>)

  // What the compiler holds.
  datatype Snap = Snap(code: Code, stack: seq<Entry>, cs: CState, pending: seq<Stmts>)

  function Loops(stack: seq<Entry>): seq<Loop> {
    seq(|stack|, i requires 0 <= i < |stack| => Loop(stack[i].isSwitch, stack[i].floor))
  }

  // ---------- one instruction ----------

  function TargetOf(i: Instr): Option<Target> {
    match i
    case Jump(t) => Some(t)
    case JumpIfFalse(_, t) => Some(t)
    case JumpIfTrue(_, t) => Some(t)
    case JumpIfNull(_, t) => Some(t)
    case TryPush(t) => Some(t)
    case _ => None
  }

  function Retarget(i: Instr, t: Target): Instr {
    match i
    case Jump(_) => Jump(t)
    case JumpIfFalse(a, _) => JumpIfFalse(a, t)
    case JumpIfTrue(a, _) => JumpIfTrue(a, t)
    case JumpIfNull(a, _) => JumpIfNull(a, t)
    case TryPush(_) => TryPush(t)
    case _ => i
  }

  // The address a target is emitted with.
  function Emitted(t: Target, stack: seq<Entry>): Target {
    if t.At? then t
    else if t.ToContinue? && t.level < |stack| && stack[t.level].target.Some? then At(stack[t.level].target.value)
    else At(0)
  }

  function EmittedInstr(i: Instr, stack: seq<Entry>): Instr {
    if TargetOf(i).Some? then Retarget(i, Emitted(TargetOf(i).value, stack)) else i
  }

  function EmittedCode(c: Code, stack: seq<Entry>): (r: Code)
    ensures |r| == |c|
  {
    seq(|c|, k requires 0 <= k < |c| => EmittedInstr(c[k], stack))
  }

  // ---------- lists of positions ----------

  // Which list a jump goes to.
  datatype Mark = Breaks(level: nat) | Continues(level: nat) | CaseOf(level: nat, index: nat)

  predicate Hits(i: Instr, m: Mark) {
    match TargetOf(i)
    case None => false
    case Some(t) =>
      match m
      case Breaks(l) => t == ToBreak(l) || t == ToEnd(l)
      case Continues(l) => t == ToContinue(l)
      case CaseOf(l, k) => t == ToCase(l, k)
  }

  function Places(c: Code, base: nat, m: Mark): seq<nat> {
    if c == [] then []
    else Places(c[..|c| - 1], base, m) + (if Hits(c[|c| - 1], m) then [base + |c| - 1] else [])
  }

  lemma {:induction false} PlacesIn(c: Code, base: nat, m: Mark)
    ensures forall p :: p in Places(c, base, m) <==> base <= p < base + |c| && Hits(c[p - base], m)
    decreases |c|
  {
    hide Hits;
    if c != [] {
      var d := c[..|c| - 1];
      PlacesIn(d, base, m);
      assert forall k :: 0 <= k < |d| ==> d[k] == c[k];
    }
  }

  lemma {:induction false} PlacesCat(c: Code, d: Code, base: nat, m: Mark)
    ensures Places(c + d, base, m) == Places(c, base, m) + Places(d, base + |c|, m)
    decreases |d|
  {
    hide Hits;
    if d == [] {
      assert c + d == c;
    } else {
      var e := d[..|d| - 1];
      assert (c + d)[..|c + d| - 1] == c + e;
      PlacesCat(c, e, base, m);
    }
  }

  lemma {:induction false} PlacesSame(c: Code, d: Code, base: nat, m: Mark)
    requires |c| == |d| && forall k :: 0 <= k < |c| ==> (Hits(c[k], m) <==> Hits(d[k], m))
    ensures Places(c, base, m) == Places(d, base, m)
    decreases |c|
  {
    hide Hits;
    if c != [] {
      PlacesSame(c[..|c| - 1], d[..|d| - 1], base, m);
    }
  }

  function ListedEntry(e: Entry, level: nat, c: Code, base: nat): Entry {
    e.(breaks := e.breaks + Places(c, base, Breaks(level)),
       continues := if e.target.Some? then e.continues else e.continues + Places(c, base, Continues(level)))
  }

  function Listed(stack: seq<Entry>, c: Code, base: nat): seq<Entry> {
    seq(|stack|, l requires 0 <= l < |stack| => ListedEntry(stack[l], l, c, base))
  }

  // ---------- emitting ----------

  // `c` has been emitted since `a`, and the state is `cs` since.
  ghost predicate After(a: Snap, c: Code, cs: CState, b: Snap) {
    && b.code == a.code + EmittedCode(c, a.stack)
    && b.stack == Listed(a.stack, c, |a.code|)
    && b.cs == cs && b.pending == a.pending
  }

  lemma AfterFacts(a: Snap, c: Code, cs: CState, b: Snap)
    requires After(a, c, cs, b)
    ensures |b.code| == |a.code| + |c| && |b.stack| == |a.stack| && Loops(b.stack) == Loops(a.stack)
    ensures b.cs == cs && b.pending == a.pending
    ensures forall l :: 0 <= l < |a.stack| ==>
              b.stack[l].target == a.stack[l].target && b.stack[l].isSwitch == a.stack[l].isSwitch
  {
    hide Places;
  }

  lemma AfterNothing(a: Snap)
    ensures After(a, [], a.cs, a)
  {
    forall l | 0 <= l < |a.stack|
      ensures ListedEntry(a.stack[l], l, [], |a.code|) == a.stack[l]
    {
    }
    assert a.stack == Listed(a.stack, [], |a.code|);
    assert a.code == a.code + EmittedCode([], a.stack);
  }

  lemma AfterState(a: Snap, c: Code, cs: CState, b: Snap, cs1: CState, b1: Snap)
    requires After(a, c, cs, b) && b1 == b.(cs := cs1)
    ensures After(a, c, cs1, b1)
  {
    hide Places;
  }

  lemma AfterInstr(a: Snap, i: Instr, b: Snap)
    requires TargetOf(i).Some? ==> TargetOf(i).value.At?
    requires b == a.(code := a.code + [i])
    ensures After(a, [i], a.cs, b)
  {
    assert EmittedCode([i], a.stack) == [i];
    assert Places([i], |a.code|, Breaks(0)) == Places([], |a.code|, Breaks(0)) + [] by {
      assert [i][..0] == [];
    }
    forall l | 0 <= l < |a.stack|
      ensures ListedEntry(a.stack[l], l, [i], |a.code|) == a.stack[l]
    {
      assert [i][..0] == [];
      assert Places([i], |a.code|, Breaks(l)) == [] && Places([i], |a.code|, Continues(l)) == [];
    }
    assert a.stack == Listed(a.stack, [i], |a.code|);
  }

  lemma EmittedSame(c: Code, s: seq<Entry>, t: seq<Entry>)
    requires |s| == |t| && forall l :: 0 <= l < |s| ==> s[l].target == t[l].target
    ensures EmittedCode(c, s) == EmittedCode(c, t)
  {
  }

  lemma AfterCat(a: Snap, c: Code, cs1: CState, b: Snap, d: Code, cs2: CState, e: Snap)
    requires After(a, c, cs1, b) && After(b, d, cs2, e)
    ensures After(a, c + d, cs2, e)
  {
    hide Places, EmittedInstr;
    AfterFacts(a, c, cs1, b);
    EmittedSame(d, a.stack, b.stack);
    assert EmittedCode(c + d, a.stack) == EmittedCode(c, a.stack) + EmittedCode(d, a.stack);
    ListedCat(a.stack, c, d, |a.code|);
  }

  lemma ListedCat(stack: seq<Entry>, c: Code, d: Code, base: nat)
    ensures Listed(Listed(stack, c, base), d, base + |c|) == Listed(stack, c + d, base)
  {
    hide Places;
    forall l | 0 <= l < |stack|
      ensures ListedEntry(ListedEntry(stack[l], l, c, base), l, d, base + |c|) == ListedEntry(stack[l], l, c + d, base)
    {
      PlacesCat(c, d, base, Breaks(l));
      PlacesCat(c, d, base, Continues(l));
    }
  }

  // ---------- patching ----------

  // The jumps listed, in a piece of code at `base`, now go to `t`.
  function Retargeted(c: Code, base: nat, list: seq<nat>, t: nat): (r: Code)
    ensures |r| == |c|
  {
    seq(|c|, k requires 0 <= k < |c| => if base + k in list then Retarget(c[k], At(t)) else c[k])
  }

  lemma RetargetNone(c: Code, base: nat, t: nat)
    ensures Retargeted(c, base, [], t) == c
  {
  }

  lemma RetargetLeft(c: Code, d: Code, base: nat, list: seq<nat>, t: nat)
    requires forall p :: p in list ==> p < base + |c|
    ensures Retargeted(c + d, base, list, t) == Retargeted(c, base, list, t) + d
  {
    hide Retarget;
  }

  lemma RetargetRight(c: Code, d: Code, base: nat, list: seq<nat>, t: nat)
    requires forall p :: p in list ==> base + |c| <= p
    ensures Retargeted(c + d, base, list, t) == c + Retargeted(d, base + |c|, list, t)
  {
    hide Retarget;
    var r, s := Retargeted(c + d, base, list, t), c + Retargeted(d, base + |c|, list, t);
    forall k | 0 <= k < |c + d|
      ensures r[k] == s[k]
    {
      if k >= |c| {
        assert base + k == base + |c| + (k - |c|);
      }
    }
  }

  lemma RetargetOne(c: Code, i: Instr, d: Code, base: nat, t: nat)
    ensures Retargeted(c + [i] + d, base, [base + |c|], t) == c + [Retarget(i, At(t))] + d
  {
    hide Retarget;
  }

  // Holes that no list of an open entry holds may be patched.
  ghost predicate Holes(c: Code, base: nat, list: seq<nat>) {
    forall p :: p in list ==> base <= p < base + |c| && Hole(c[p - base])
  }

  predicate Hole(i: Instr) {
    TargetOf(i).Some? && (TargetOf(i).value.At? || TargetOf(i).value.ToCase?)
  }

  lemma AfterPatch(a: Snap, c: Code, cs: CState, b: Snap, list: seq<nat>, t: nat, b1: Snap)
    requires After(a, c, cs, b) && Holes(c, |a.code|, list)
    requires b1 == b.(code := Retargeted(b.code, 0, list, t))
    ensures After(a, Retargeted(c, |a.code|, list, t), cs, b1)
  {
    var base := |a.code|;
    var d := Retargeted(c, base, list, t);
    forall k | 0 <= k < |b.code|
      ensures b1.code[k] == (a.code + EmittedCode(d, a.stack))[k]
    {
      PatchAt(a, c, b, list, t, k);
    }
    assert b1.code == a.code + EmittedCode(d, a.stack);
    forall l | 0 <= l < |a.stack|
      ensures ListedEntry(a.stack[l], l, c, base) == ListedEntry(a.stack[l], l, d, base)
    {
      PatchLists(c, base, list, t, Breaks(l));
      PatchLists(c, base, list, t, Continues(l));
    }
    assert Listed(a.stack, c, base) == Listed(a.stack, d, base);
  }

  lemma PatchAt(a: Snap, c: Code, b: Snap, list: seq<nat>, t: nat, k: nat)
    requires b.code == a.code + EmittedCode(c, a.stack) && Holes(c, |a.code|, list) && k < |b.code|
    ensures Retargeted(b.code, 0, list, t)[k] == (a.code + EmittedCode(Retargeted(c, |a.code|, list, t), a.stack))[k]
  {
    var base := |a.code|;
    if k >= base {
      var j := k - base;
      assert b.code[k] == EmittedInstr(c[j], a.stack);
      assert base + j == k;
    }
  }

  lemma PatchLists(c: Code, base: nat, list: seq<nat>, t: nat, m: Mark)
    requires Holes(c, base, list) && !m.CaseOf?
    ensures Places(c, base, m) == Places(Retargeted(c, base, list, t), base, m)
  {
    hide Places;
    var d := Retargeted(c, base, list, t);
    forall k | 0 <= k < |c|
      ensures Hits(c[k], m) <==> Hits(d[k], m)
    {
      if base + k in list {
        assert Hole(c[base + k - base]);
      }
    }
    PlacesSame(c, d, base, m);
  }

  // ---------- common shapes ----------

  // Code emitted after changes of the state alone.
  lemma FromState(a: Snap, b: Snap, c: Code, cs: CState, d: Snap)
    requires b == a.(cs := b.cs) && After(b, c, cs, d)
    ensures After(a, c, cs, d)
  {
    hide After;
    AfterNothing(a);
    AfterState(a, [], a.cs, a, b.cs, b);
    AfterCat(a, [], b.cs, b, c, cs, d);
    assert [] + c == c;
  }

  // One more instruction, with changes of the state before and after it.
  lemma AfterNext(a: Snap, c: Code, cs: CState, b: Snap, b1: Snap, i: Instr, d: Snap, e: Snap)
    requires After(a, c, cs, b) && b1 == b.(cs := b1.cs) && d == b1.(code := b1.code + [i]) && e == d.(cs := e.cs)
    requires TargetOf(i).Some? ==> TargetOf(i).value.At?
    ensures After(a, c + [i], e.cs, e)
  {
    hide After;
    AfterState(a, c, cs, b, b1.cs, b1);
    AfterInstr(b1, i, d);
    AfterCat(a, c, b1.cs, b1, [i], b1.cs, d);
    AfterState(a, c + [i], b1.cs, d, e.cs, e);
  }

  predicate Settled(c: Code) {
    forall k :: 0 <= k < |c| && TargetOf(c[k]).Some? ==> TargetOf(c[k]).value.At?
  }

  // Several more instructions, with a change of the state.
  lemma {:induction false} AfterTail(a: Snap, c: Code, cs: CState, b: Snap, tail: Code, e: Snap)
    requires After(a, c, cs, b) && e == b.(code := b.code + tail, cs := e.cs) && Settled(tail)
    ensures After(a, c + tail, e.cs, e)
    decreases |tail|
  {
    hide After;
    if tail == [] {
      assert b.code + tail == b.code && c + tail == c;
      AfterState(a, c, cs, b, e.cs, e);
    } else {
      var i, b1 := tail[0], b.(code := b.code + [tail[0]]);
      AfterNext(a, c, cs, b, b, i, b1, b1);
      assert b.code + tail == b1.code + tail[1..] && c + tail == c + [i] + tail[1..];
      assert forall k :: 0 <= k < |tail[1..]| ==> tail[1..][k] == tail[k + 1];
      AfterTail(a, c + [i], b1.cs, b1, tail[1..], e);
    }
  }

  // One jump patched.
  lemma PatchOne(a: Snap, c: Code, hole: Instr, d: Code, cs: CState, b: Snap, t: nat, b1: Snap)
    requires After(a, c + [hole] + d, cs, b) && TargetOf(hole) == Some(At(0))
    requires b1 == b.(code := Retargeted(b.code, 0, [|a.code| + |c|], t))
    ensures After(a, c + [Retarget(hole, At(t))] + d, cs, b1)
  {
    hide After, Retargeted;
    var list := [|a.code| + |c|];
    RetargetOne(c, hole, d, |a.code|, t);
    AfterPatch(a, c + [hole] + d, cs, b, list, t, b1);
  }

  // A jump behind the code, and the jump at `p` patched to go past it.
  function Crossed(e: Snap, p: nat): Snap {
    e.(code := Retargeted(e.code + [Jump(At(0))], 0, [p], |e.code| + 1))
  }

  lemma CrossedSize(e: Snap, p: nat)
    ensures var h := Crossed(e, p);
            |h.code| == |e.code| + 1 && h.cs == e.cs && h.stack == e.stack && h.pending == e.pending
  {
  }

  lemma DiamondThen(a: Snap, c: Code, cs: CState, b: Snap, hole: Instr, d: Snap, t: Code, cs1: CState, e: Snap, h: Snap)
    requires After(a, c, cs, b) && TargetOf(hole) == Some(At(0)) && d == b.(code := b.code + [hole], cs := d.cs)
    requires After(d, t, cs1, e) && h == Crossed(e, |b.code|)
    ensures After(a, c + [Retarget(hole, At(|e.code| + 1))] + t + [Jump(At(0))], cs1, h)
  {
    hide After, Retargeted;
    AfterFacts(a, c, cs, b);
    AfterNext(a, c, cs, b, b, hole, b.(code := b.code + [hole]), d);
    AfterCat(a, c + [hole], d.cs, d, t, cs1, e);
    var k := e.(code := e.code + [Jump(At(0))]);
    AfterFacts(d, t, cs1, e);
    AfterNext(a, c + [hole] + t, cs1, e, e, Jump(At(0)), k, k);
    assert c + [hole] + t + [Jump(At(0))] == c + [hole] + (t + [Jump(At(0))]);
    PatchOne(a, c, hole, t + [Jump(At(0))], cs1, k, |e.code| + 1, h);
    var i := Retarget(hole, At(|e.code| + 1));
    assert c + [i] + (t + [Jump(At(0))]) == c + [i] + t + [Jump(At(0))];
  }

  // Two branches: a jump past the first, and one behind it past the second.
  lemma Diamond(a: Snap, c: Code, cs: CState, b: Snap, hole: Instr, d: Snap, t: Code, cs1: CState, e: Snap, h: Snap,
                f: Code, cs2: CState, i: Snap, j: Snap)
    requires After(a, c, cs, b) && TargetOf(hole) == Some(At(0)) && d == b.(code := b.code + [hole], cs := d.cs)
    requires After(d, t, cs1, e) && h == Crossed(e, |b.code|)
    requires After(h, f, cs2, i) && j == i.(code := Retargeted(i.code, 0, [|e.code|], |i.code|))
    ensures After(a, c + [Retarget(hole, At(|e.code| + 1))] + t + [Jump(At(|i.code|))] + f, cs2, j)
  {
    hide After, Retargeted, Crossed;
    DiamondThen(a, c, cs, b, hole, d, t, cs1, e, h);
    var before := c + [Retarget(hole, At(|e.code| + 1))] + t;
    AfterCat(a, before + [Jump(At(0))], cs1, h, f, cs2, i);
    AfterFacts(a, before + [Jump(At(0))], cs1, h);
    CrossedSize(e, |b.code|);
    PatchOne(a, before, Jump(At(0)), f, cs2, i, |i.code|, j);
  }

  // The pending blocks play no part in what is emitted.
  lemma AfterPending(a: Snap, c: Code, cs: CState, b: Snap, ps: seq<Stmts>)
    requires After(a, c, cs, b)
    ensures After(a.(pending := ps), c, cs, b.(pending := ps))
  {
    hide Places, EmittedInstr;
  }

  // Jumps patched in the middle of the code.
  lemma PatchMiddle(a: Snap, x: Code, y: Code, z: Code, cs: CState, b: Snap, list: seq<nat>, t: nat, b1: Snap)
    requires After(a, x + y + z, cs, b) && Holes(y, |a.code| + |x|, list)
    requires b1 == b.(code := Retargeted(b.code, 0, list, t))
    ensures After(a, x + Retargeted(y, |a.code| + |x|, list, t) + z, cs, b1)
  {
    hide After, Retargeted, Hole;
    var base := |a.code|;
    forall p | p in list
      ensures base + |x| <= p < base + |x| + |y| && Hole((x + y + z)[p - base])
    {
      assert (x + y + z)[p - base] == y[p - (base + |x|)];
    }
    AfterPatch(a, x + y + z, cs, b, list, t, b1);
    RetargetLeft(x + y, z, base, list, t);
    RetargetRight(x, y, base, list, t);
  }

  // ---------- jumps to be listed ----------

  lemma PlacesOne(i: Instr, base: nat, m: Mark)
    ensures Places([i], base, m) == if Hits(i, m) then [base] else []
  {
    hide Hits;
    assert [i][..0] == [];
  }

  lemma AfterBreak(a: Snap, b: Snap)
    requires a.stack != []
    requires var l := |a.stack| - 1; var e := a.stack[l];
             b == a.(code := a.code + [Jump(At(0))], stack := a.stack[l := e.(breaks := e.breaks + [|a.code|])])
    ensures After(a, [Jump(ToBreak(|a.stack| - 1))], a.cs, b)
  {
    var i := Jump(ToBreak(|a.stack| - 1));
    assert EmittedCode([i], a.stack) == [Jump(At(0))];
    forall l | 0 <= l < |a.stack|
      ensures ListedEntry(a.stack[l], l, [i], |a.code|) == b.stack[l]
    {
      PlacesOne(i, |a.code|, Breaks(l));
      PlacesOne(i, |a.code|, Continues(l));
    }
    assert b.stack == Listed(a.stack, [i], |a.code|);
  }

  lemma AfterContinue(a: Snap, level: nat, b: Snap)
    requires level < |a.stack|
    requires var e := a.stack[level];
             if e.target.Some? then b == a.(code := a.code + [Jump(At(e.target.value))])
             else b == a.(code := a.code + [Jump(At(0))],
                          stack := a.stack[level := e.(continues := e.continues + [|a.code|])])
    ensures After(a, [Jump(ToContinue(level))], a.cs, b)
  {
    var i := Jump(ToContinue(level));
    assert EmittedCode([i], a.stack) == [EmittedInstr(i, a.stack)];
    forall l | 0 <= l < |a.stack|
      ensures ListedEntry(a.stack[l], l, [i], |a.code|) == b.stack[l]
    {
      PlacesOne(i, |a.code|, Breaks(l));
      PlacesOne(i, |a.code|, Continues(l));
    }
    assert b.stack == Listed(a.stack, [i], |a.code|);
  }

  // ---------- closing a loop or switch ----------

  // Code as its outer entries see it once the entry at `level` is popped: the jumps of that
  // entry have the address they were emitted with.
  function Inner(i: Instr, level: nat, target: Option<nat>): Instr {
    match TargetOf(i)
    case None => i
    case Some(t) =>
      if t == ToBreak(level) || t == ToEnd(level) then Retarget(i, At(0))
      else if t == ToContinue(level) then Retarget(i, At(if target.Some? then target.value else 0))
      else i
  }

  function InnerCode(c: Code, level: nat, target: Option<nat>): (r: Code)
    ensures |r| == |c|
  {
    seq(|c|, k requires 0 <= k < |c| => Inner(c[k], level, target))
  }

  lemma Popped(a: Snap, e: Entry, c: Code, cs: CState, b: Snap)
    requires After(a.(stack := a.stack + [e]), c, cs, b)
    ensures var level := |a.stack|;
            && |b.stack| == level + 1 && b.stack[level] == ListedEntry(e, level, c, |a.code|)
            && After(a, InnerCode(c, level, e.target), cs, b.(stack := b.stack[..level]))
  {
    hide Places;
    var level := |a.stack|;
    var d := InnerCode(c, level, e.target);
    var inner := a.stack + [e];
    forall k | 0 <= k < |c|
      ensures EmittedInstr(c[k], inner) == EmittedInstr(d[k], a.stack)
    {
      PoppedInstr(c[k], a.stack, e);
    }
    assert EmittedCode(c, inner) == EmittedCode(d, a.stack);
    forall l | 0 <= l < level
      ensures ListedEntry(inner[l], l, c, |a.code|) == ListedEntry(a.stack[l], l, d, |a.code|)
    {
      PoppedLists(c, level, e.target, |a.code|, Breaks(l));
      PoppedLists(c, level, e.target, |a.code|, Continues(l));
    }
    assert Listed(a.stack, d, |a.code|) == b.stack[..level];
  }

  lemma PoppedInstr(i: Instr, stack: seq<Entry>, e: Entry)
    ensures EmittedInstr(i, stack + [e]) == EmittedInstr(Inner(i, |stack|, e.target), stack)
  {
  }

  lemma PoppedLists(c: Code, level: nat, target: Option<nat>, base: nat, m: Mark)
    requires m.level != level && !m.CaseOf?
    ensures Places(c, base, m) == Places(InnerCode(c, level, target), base, m)
  {
    hide Places;
    var d := InnerCode(c, level, target);
    forall k | 0 <= k < |c|
      ensures Hits(c[k], m) <==> Hits(d[k], m)
    {
      InnerHits(c[k], level, target, m);
    }
    PlacesSame(c, d, base, m);
  }

  lemma InnerHits(i: Instr, level: nat, target: Option<nat>, m: Mark)
    requires m.level != level && !m.CaseOf?
    ensures Hits(i, m) <==> Hits(Inner(i, level, target), m)
  {
  }

  // The jumps a list was made of are holes once the entry is popped.
  lemma ListHoles(c: Code, base: nat, m: Mark, target: Option<nat>)
    requires !m.CaseOf?
    ensures Holes(InnerCode(c, m.level, target), base, Places(c, base, m))
    ensures forall p :: p in Places(c, base, m) ==> base <= p < base + |c|
  {
    hide Places;
    PlacesIn(c, base, m);
    var d := InnerCode(c, m.level, target);
    forall p | p in Places(c, base, m)
      ensures base <= p < base + |c| && Hole(d[p - base])
    {
      assert Hits(c[p - base], m);
      InnerHole(c[p - base], m, target);
    }
  }

  lemma InnerHole(i: Instr, m: Mark, target: Option<nat>)
    requires Hits(i, m) && !m.CaseOf?
    ensures Hole(Inner(i, m.level, target))
  {
  }

  // Patching keeps holes.
  lemma HolesKept(c: Code, base: nat, list: seq<nat>, list1: seq<nat>, t: nat)
    requires Holes(c, base, list)
    ensures Holes(Retargeted(c, base, list1, t), base, list)
  {
    forall p | p in list
      ensures Hole(Retargeted(c, base, list1, t)[p - base])
    {
      assert Hole(c[p - base]);
      StillHole(c[p - base], t);
    }
  }

  lemma StillHole(i: Instr, t: nat)
    requires Hole(i)
    ensures Hole(Retarget(i, At(t)))
  {
  }

  // The `continue` list of an entry popped after `c`.
  function Continuing(c: Code, base: nat, level: nat, target: Option<nat>): seq<nat> {
    if target.Some? then [] else Places(c, base, Continues(level))
  }

  // Patching both lists of a popped entry is patching the code.
  lemma Closed(c: Code, level: nat, base: nat, target: Option<nat>, brk: nat, cont: nat)
    requires target.Some? ==> target.value == cont
    ensures Retargeted(Retargeted(InnerCode(c, level, target), base, Continuing(c, base, level, target), cont),
                       base, Places(c, base, Breaks(level)), brk)
         == Patch(c, level, Fix(brk, cont, []))
  {
    hide Places;
    var conts := Continuing(c, base, level, target);
    var brks := Places(c, base, Breaks(level));
    PlacesIn(c, base, Continues(level));
    PlacesIn(c, base, Breaks(level));
    var r := Retargeted(Retargeted(InnerCode(c, level, target), base, conts, cont), base, brks, brk);
    var fx := Fix(brk, cont, []);
    forall k | 0 <= k < |c|
      ensures r[k] == Patch(c, level, fx)[k]
    {
      assert base + k in brks <==> Hits(c[base + k - base], Breaks(level));
      assert base + k in Places(c, base, Continues(level)) <==> Hits(c[base + k - base], Continues(level));
      ClosedInstr(c[k], level, target, fx);
    }
  }

  lemma ClosedInstr(i: Instr, level: nat, target: Option<nat>, fx: Fix)
    requires (target.Some? ==> target.value == fx.cont) && fx.starts == []
    ensures MapTarget(i, level, fx)
         == (if Hits(i, Breaks(level)) then Retarget(Inner(i, level, target), At(fx.brk))
             else if Hits(i, Continues(level)) && target.None? then Retarget(Inner(i, level, target), At(fx.cont))
             else Inner(i, level, target))
  {
  }
}
