/** Whether a program needs the interpreter: the search over function prototypes. */
module Prototypes {

  import opened Options
  import opened Strings

  // An operand of an instruction.
  type Byte = x: nat | x < 256

  datatype Instr = LoadGlobal(b: Byte, c: Byte) | OtherInstr

  datatype Constant = Str(text: string) | OtherConstant

  // A prototype, named by its address; `nested` may hold null pointers.
  datatype Proto = Proto(code: seq<Instr>, constants: seq<Constant>, nested: seq<Option<int>>)

  datatype Global = Function(proto: Option<int>) | OtherGlobal

  type Protos = map<int, Proto>
  type Globals = map<string, Global>

  predicate Live(h: Protos, p: Option<int>) {
    p.Some? ==> p.value in h
  }

  ghost predicate Closed(h: Protos, g: Globals) {
    && (forall p, k :: p in h && 0 <= k < |h[p].nested| ==> Live(h, h[p].nested[k]))
    && (forall n :: n in g && g[n].Function? ==> Live(h, g[n].proto))
  }

  // The instruction loads this name: the operands are the high and the low byte of the place
  // of a constant that holds it.
  ghost predicate Names(p: Proto, ins: Instr, name: string) {
    ins.LoadGlobal? && exists n: nat :: n < |p.constants| && NamedAt(p, ins, name, n)
  }

  predicate NamedAt(p: Proto, ins: Instr, name: string, n: nat)
    requires ins.LoadGlobal? && n < |p.constants|
  {
    p.constants[n] == Str(name) && n / 256 == ins.b && n % 256 == ins.c
  }

  // The name as the search reads it.
  function Loaded(p: Proto, ins: Instr): Option<string> {
    if ins.OtherInstr? then None
    else
      var ni := 256 * ins.b + ins.c;
      if ni >= |p.constants| || !p.constants[ni].Str? then None else Some(p.constants[ni].text)
  }

  lemma LoadedIs(p: Proto, ins: Instr, name: string)
    ensures Loaded(p, ins) == Some(name) <==> Names(p, ins, name)
  {
    if ins.LoadGlobal? {
      var ni: nat := 256 * ins.b + ins.c;
      assert ni / 256 == ins.b && ni % 256 == ins.c;
      if Loaded(p, ins) == Some(name) {
        assert NamedAt(p, ins, name, ni);
      }
      if Names(p, ins, name) {
        var n: nat :| n < |p.constants| && NamedAt(p, ins, name, n);
        assert n == 256 * (n / 256) + n % 256;
      }
    }
  }

  ghost predicate Qualified(name: string) {
    exists i :: 0 <= i < |name| - 1 && name[i] == ':' && name[i + 1] == ':'
  }

  lemma QualifiedIs(name: string)
    ensures Find(name, "::").Some? <==> Qualified(name)
  {
    hide Find;
    FindSpec(name, "::");
    var f := Find(name, "::");
    if f.Some? {
      assert name[f.value] == name[f.value..f.value + 2][0] && name[f.value + 1] == name[f.value..f.value + 2][1];
    }
    if Qualified(name) {
      var i :| 0 <= i < |name| - 1 && name[i] == ':' && name[i + 1] == ':';
      assert name[i..i + 2] == "::";
      assert At(name, "::", i);
    }
  }

  ghost predicate Missing(g: Globals, name: string) {
    name !in g && Qualified(name)
  }

  // One instruction leads there: it loads a global function with this prototype.
  ghost predicate LeadsTo(g: Globals, p: Proto, ins: Instr, q: int) {
    exists name :: Names(p, ins, name) && name in g && g[name] == Function(Some(q))
  }

  ghost predicate Edge(h: Protos, g: Globals, p: int, q: int) {
    && p in h
    && ((exists i :: 0 <= i < |h[p].code| && LeadsTo(g, h[p], h[p].code[i], q))
        || (exists k :: 0 <= k < |h[p].nested| && h[p].nested[k] == Some(q)))
  }

  ghost predicate LoadsMissing(h: Protos, g: Globals, p: int, name: string) {
    p in h && Missing(g, name) && exists i :: 0 <= i < |h[p].code| && Names(h[p], h[p].code[i], name)
  }

  ghost predicate Path(h: Protos, g: Globals, path: seq<int>) {
    path != [] && forall i :: 0 <= i < |path| - 1 ==> Edge(h, g, path[i], path[i + 1])
  }

  // Some prototype reachable from `p` loads the missing name.
  ghost predicate Needs(h: Protos, g: Globals, p: int, name: string) {
    exists path :: Path(h, g, path) && path[0] == p && LoadsMissing(h, g, path[|path| - 1], name)
  }

  lemma NeedsHere(h: Protos, g: Globals, p: int, name: string)
    requires LoadsMissing(h, g, p, name)
    ensures Needs(h, g, p, name)
  {
    assert Path(h, g, [p]);
    assert [p][0] == p && [p][|[p]| - 1] == p;
  }

  lemma NeedsThrough(h: Protos, g: Globals, p: int, q: int, name: string)
    requires Edge(h, g, p, q) && Needs(h, g, q, name)
    ensures Needs(h, g, p, name)
  {
    hide LoadsMissing, Edge;
    var path :| Path(h, g, path) && path[0] == q && LoadsMissing(h, g, path[|path| - 1], name);
    var longer := [p] + path;
    forall i | 0 <= i < |longer| - 1
      ensures Edge(h, g, longer[i], longer[i + 1])
    {
      if i > 0 {
        assert longer[i] == path[i - 1] && longer[i + 1] == path[i];
      }
    }
    assert Path(h, g, longer) && longer[|longer| - 1] == path[|path| - 1];
  }

  // The prototypes visited since `before` load nothing missing, and lead only to visited ones.
  ghost predicate Settled(h: Protos, g: Globals, before: set<int>, seen: set<int>) {
    forall p :: p in seen && p !in before ==>
      (forall name :: !LoadsMissing(h, g, p, name)) && (forall q :: Edge(h, g, p, q) ==> q in seen)
  }

  lemma {:induction false} SettledPath(h: Protos, g: Globals, seen: set<int>, path: seq<int>)
    requires Settled(h, g, {}, seen) && Path(h, g, path) && path[0] in seen
    ensures path[|path| - 1] in seen
    decreases |path|
  {
    if |path| > 1 {
      assert Edge(h, g, path[0], path[1]);
      var rest := path[1..];
      forall i | 0 <= i < |rest| - 1
        ensures Edge(h, g, rest[i], rest[i + 1])
      {
        assert rest[i] == path[i + 1] && rest[i + 1] == path[i + 2];
      }
      SettledPath(h, g, seen, rest);
    }
  }

  class Search {
    var seen: set<int>
    var which: string

    constructor ()
      ensures seen == {}
    {
      seen, which := {}, "";
    }

    // Depth first, over cycles too: `seen` is shared by the whole search.
    method Visit(h: Protos, g: Globals, p: Option<int>) returns (found: bool)
      requires Closed(h, g) && Live(h, p) && seen <= h.Keys
      modifies this
      ensures old(seen) <= seen <= h.Keys
      ensures found ==> p.Some? && Needs(h, g, p.value, which)
      ensures !found ==> (p.Some? ==> p.value in seen) && Settled(h, g, old(seen), seen)
      decreases h.Keys - seen
    {
      hide Needs, Path, Names, Find, Loaded;
      if p.None? || p.value in seen {
        return false;
      }
      var id := p.value;
      ghost var before := seen;
      seen := seen + {id};
      var proto := h[id];
      var i := 0;
      while i < |proto.code|
        invariant 0 <= i <= |proto.code| && before + {id} <= seen <= h.Keys
        invariant forall j :: 0 <= j < i ==> Scanned(g, proto, proto.code[j], seen)
        invariant Settled(h, g, before + {id}, seen)
      {
        var ins := proto.code[i];
        var name := Loaded(proto, ins);
        OneName(proto, ins);
        if name.Some? {
          if name.value !in g {
            QualifiedIs(name.value);
            if Find(name.value, "::").Some? {
              which := name.value;
              NeedsHere(h, g, id, which);
              return true;
            }
          } else if g[name.value].Function? {
            ghost var mid := seen;
            found := Visit(h, g, g[name.value].proto);
            if found {
              assert LeadsTo(g, proto, ins, g[name.value].proto.value);
              assert Edge(h, g, id, g[name.value].proto.value);
              NeedsThrough(h, g, id, g[name.value].proto.value, which);
              return;
            }
            SettledMore(h, g, before + {id}, mid, seen);
          }
        }
        i := i + 1;
      }
      i := 0;
      while i < |proto.nested|
        invariant 0 <= i <= |proto.nested| && before + {id} <= seen <= h.Keys
        invariant forall j :: 0 <= j < |proto.code| ==> Scanned(g, proto, proto.code[j], seen)
        invariant forall j :: 0 <= j < i && proto.nested[j].Some? ==> proto.nested[j].value in seen
        invariant Settled(h, g, before + {id}, seen)
      {
        ghost var mid := seen;
        found := Visit(h, g, proto.nested[i]);
        if found {
          NeedsThrough(h, g, id, proto.nested[i].value, which);
          return;
        }
        SettledMore(h, g, before + {id}, mid, seen);
        i := i + 1;
      }
      found := false;
    }
  }

  // An instruction that needs no further visit.
  ghost predicate Scanned(g: Globals, p: Proto, ins: Instr, seen: set<int>) {
    && (forall name :: Names(p, ins, name) ==> !Missing(g, name))
    && (forall q :: LeadsTo(g, p, ins, q) ==> q in seen)
  }

  lemma OneName(p: Proto, ins: Instr)
    ensures forall name :: Names(p, ins, name) <==> Loaded(p, ins) == Some(name)
  {
    forall name
      ensures Names(p, ins, name) <==> Loaded(p, ins) == Some(name)
    {
      LoadedIs(p, ins, name);
    }
  }

  lemma SettledMore(h: Protos, g: Globals, before: set<int>, mid: set<int>, seen: set<int>)
    requires before <= mid <= seen && Settled(h, g, before, mid) && Settled(h, g, mid, seen)
    ensures Settled(h, g, before, seen)
  {
    forall p | p in seen && p !in before
      ensures (forall name :: !LoadsMissing(h, g, p, name)) && (forall q :: Edge(h, g, p, q) ==> q in seen)
    {
      if p in mid {
        assert forall q :: Edge(h, g, p, q) ==> q in mid;
      }
    }
  }

  // The search ends, and says yes exactly when some reachable prototype loads a qualified name
  // that is no global; it reports such a name.
  method NeedsInterpreter(h: Protos, g: Globals, root: int) returns (found: bool, which: string)
    requires Closed(h, g) && root in h
    ensures found <==> exists name :: Needs(h, g, root, name)
    ensures found ==> Needs(h, g, root, which)
  {
    var search := new Search();
    found := search.Visit(h, g, Some(root));
    which := search.which;
    if !found {
      forall name
        ensures !Needs(h, g, root, name)
      {
        if Needs(h, g, root, name) {
          var path :| Path(h, g, path) && path[0] == root && LoadsMissing(h, g, path[|path| - 1], name);
          SettledPath(h, g, search.seen, path);
          assert false;
        }
      }
    }
  }
}
