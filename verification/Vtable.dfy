/** Vtable layout over class hierarchies: the checker numbers virtual methods down the parent
    chain, and the emitter fills each slot with the method that lookup by name would find. */
module Vtable {
  import opened Hierarchy

  type Name = nat

  /** A method as declared; `sig` stands for its parameter and result types. */
  datatype Method = Method(name: Name, isVirtual: bool, isOverride: bool, sig: nat, hasDefaults: bool)

  /** A class as declared; `parent` is -1 for none. */
  datatype ClassDecl = ClassDecl(parent: int, fields: seq<Name>, methods: seq<Method>)

  /** A layout: the slot of each own method, -1 for those not virtual, and the slots in all. */
  datatype Layout = Rejected | Laid(slots: seq<int>, nvslots: nat)

  /** A method found: method `idx` of class `cls`. */
  datatype Found = Missing | At(cls: nat, idx: nat)

  function ParentsOf(prog: seq<ClassDecl>): (ps: Parents)
    ensures |ps| == |prog| && forall c :: 0 <= c < |prog| ==> ps[c] == prog[c].parent
  {
    seq(|prog|, c requires 0 <= c < |prog| => prog[c].parent)
  }

  /** Parents exist and no class is its own ancestor: `rank` falls towards the root. */
  predicate Acyclic(prog: seq<ClassDecl>, rank: seq<nat>) {
    && |rank| == |prog|
    && forall c :: 0 <= c < |prog| ==>
        -1 <= prog[c].parent < |prog| && (prog[c].parent >= 0 ==> rank[prog[c].parent] < rank[c])
  }

  function Own(methods: seq<Method>, name: Name): (i: int)
    ensures -1 <= i < |methods|
    ensures i >= 0 ==> methods[i].name == name && forall j :: 0 <= j < i ==> methods[j].name != name
    ensures i < 0 ==> forall j :: 0 <= j < |methods| ==> methods[j].name != name
  {
    if methods == [] then -1
    else if methods[0].name == name then 0
    else var i := Own(methods[1..], name); if i < 0 then -1 else i + 1
  }

  /** class_find_method. */
  function Find(prog: seq<ClassDecl>, rank: seq<nat>, c: int, name: Name): (f: Found)
    requires Acyclic(prog, rank) && -1 <= c < |prog|
    ensures f.At? ==> f.cls < |prog| && f.idx < |prog[f.cls].methods| && prog[f.cls].methods[f.idx].name == name
    decreases if c < 0 then 0 else rank[c] + 1
  {
    if c < 0 then Missing
    else if Own(prog[c].methods, name) >= 0 then At(c, Own(prog[c].methods, name))
    else Find(prog, rank, prog[c].parent, name)
  }

  /** class_find_field. */
  predicate HasField(prog: seq<ClassDecl>, rank: seq<nat>, c: int, name: Name)
    requires Acyclic(prog, rank) && -1 <= c < |prog|
    decreases if c < 0 then 0 else rank[c] + 1
  {
    c >= 0 && (name in prog[c].fields || HasField(prog, rank, prog[c].parent, name))
  }

  // ---------------------------------------------------------------- layout

  /** The checks on one method; `inh` is the inherited method of its name, if any. */
  predicate Accepts(prog: seq<ClassDecl>, rank: seq<nat>, c: nat, i: nat, inh: Found)
    requires Acyclic(prog, rank) && c < |prog| && i < |prog[c].methods|
    requires inh.At? ==> inh.cls < |prog| && inh.idx < |prog[inh.cls].methods|
  {
    var m := prog[c].methods[i];
    && (if m.isOverride then
          inh.At? && (var b := prog[inh.cls].methods[inh.idx]; (b.isVirtual || b.isOverride) && m.sig == b.sig)
        else inh == Missing)
    && (m.isVirtual || m.isOverride ==> !m.hasDefaults)
    && (forall j :: 0 <= j < i ==> prog[c].methods[j].name != m.name)
    && !HasField(prog, rank, c, m.name)
  }

  /** The layout of a class. */
  function LayoutOf(prog: seq<ClassDecl>, rank: seq<nat>, c: nat): (l: Layout)
    requires Acyclic(prog, rank) && c < |prog|
    ensures l.Laid? ==> |l.slots| == |prog[c].methods|
    decreases rank[c], |prog[c].methods| + 1
  {
    var p := prog[c].parent;
    if p < 0 then Number(prog, rank, c, |prog[c].methods|, 0)
    else
      var up := LayoutOf(prog, rank, p);
      if up.Rejected? then Rejected
      else if exists f :: f in prog[c].fields && HasField(prog, rank, p, f) then Rejected
      else Number(prog, rank, c, |prog[c].methods|, up.nvslots)
  }

  /** The first `i` methods numbered, new slots from `base` on. */
  function Number(prog: seq<ClassDecl>, rank: seq<nat>, c: nat, i: nat, base: nat): (l: Layout)
    requires Acyclic(prog, rank) && c < |prog| && i <= |prog[c].methods|
    ensures l.Laid? ==> |l.slots| == i
    decreases rank[c], i
  {
    if i == 0 then Laid([], base) else
    var l := Number(prog, rank, c, i - 1, base);
    if l.Rejected? then Rejected else
    var m := prog[c].methods[i - 1];
    var inh := Find(prog, rank, prog[c].parent, m.name);
    if !Accepts(prog, rank, c, i - 1, inh) then Rejected
    else if m.isOverride then Laid(l.slots + [SlotAt(prog, rank, c, inh)], l.nvslots)
    else if m.isVirtual then Laid(l.slots + [l.nvslots], l.nvslots + 1)
    else Laid(l.slots + [-1], l.nvslots)
  }

  /** The slot of a method of an ancestor of `c`. */
  function SlotAt(prog: seq<ClassDecl>, rank: seq<nat>, c: nat, f: Found): int
    requires Acyclic(prog, rank) && c < |prog|
    decreases rank[c], 0
  {
    if f.At? && f.cls < |prog| && rank[f.cls] < rank[c] then
      var l := LayoutOf(prog, rank, f.cls);
      if l.Laid? && f.idx < |l.slots| then l.slots[f.idx] else -1
    else -1
  }

  // ---------------------------------------------------------------- what the numbering gives

  /** The slot of a method that was found; -1 for a method that is not virtual. */
  function Slot(prog: seq<ClassDecl>, rank: seq<nat>, f: Found): int
    requires Acyclic(prog, rank)
  {
    if f.At? && f.cls < |prog| then
      var l := LayoutOf(prog, rank, f.cls);
      if l.Laid? && f.idx < |l.slots| then l.slots[f.idx] else -1
    else -1
  }

  /** The slot in which lookup by name ends; -2 when the name is not found. */
  function SlotOfName(prog: seq<ClassDecl>, rank: seq<nat>, c: int, name: Name): int
    requires Acyclic(prog, rank) && -1 <= c < |prog|
  {
    if Find(prog, rank, c, name) == Missing then -2 else Slot(prog, rank, Find(prog, rank, c, name))
  }

  function SlotsIn(prog: seq<ClassDecl>, rank: seq<nat>, c: int): nat
    requires Acyclic(prog, rank) && -1 <= c < |prog|
  {
    if c < 0 || LayoutOf(prog, rank, c).Rejected? then 0 else LayoutOf(prog, rank, c).nvslots
  }

  predicate Accepted(prog: seq<ClassDecl>, rank: seq<nat>, c: int)
    requires Acyclic(prog, rank) && -1 <= c < |prog|
  {
    c < 0 || LayoutOf(prog, rank, c).Laid?
  }

  lemma {:induction false} FoundAbove(prog: seq<ClassDecl>, rank: seq<nat>, c: int, name: Name)
    requires Acyclic(prog, rank) && -1 <= c < |prog|
    ensures Find(prog, rank, c, name).At? ==> c >= 0 && rank[Find(prog, rank, c, name).cls] <= rank[c]
    decreases if c < 0 then 0 else rank[c] + 1
  {
    if c >= 0 && Own(prog[c].methods, name) < 0 { FoundAbove(prog, rank, prog[c].parent, name); }
  }

  predicate Fresh(m: Method) { m.isVirtual && !m.isOverride }

  /** Slot `s` was given to one of the first `i` methods. */
  ghost predicate Given(ms: seq<Method>, slots: seq<int>, i: nat, s: int)
    requires i <= |ms| && i <= |slots|
  {
    exists j :: 0 <= j < i && Fresh(ms[j]) && slots[j] == s
  }

  /** The first `i` methods' slots: inherited ones for overrides, new ones in order for virtual
      methods, none for the rest. */
  ghost predicate Numbered(prog: seq<ClassDecl>, rank: seq<nat>, c: nat, i: nat, base: nat, l: Layout)
    requires Acyclic(prog, rank) && c < |prog| && i <= |prog[c].methods| && l.Laid? && |l.slots| == i
  {
    var p, ms := prog[c].parent, prog[c].methods;
    && l.nvslots >= base
    && (forall j :: 0 <= j < i && ms[j].isOverride ==> l.slots[j] == SlotOfName(prog, rank, p, ms[j].name))
    && (forall j :: 0 <= j < i && Fresh(ms[j]) ==> base <= l.slots[j] < l.nvslots)
    && (forall j :: 0 <= j < i && !ms[j].isOverride && !ms[j].isVirtual ==> l.slots[j] == -1)
    && (forall j, k :: 0 <= j < k < i && Fresh(ms[j]) && Fresh(ms[k]) ==> l.slots[j] < l.slots[k])
    && (forall s :: base <= s < l.nvslots ==> Given(ms, l.slots, i, s))
  }

  ghost predicate AllAccepted(prog: seq<ClassDecl>, rank: seq<nat>, c: nat, i: nat)
    requires Acyclic(prog, rank) && c < |prog| && i <= |prog[c].methods|
  {
    forall j :: 0 <= j < i ==> Accepts(prog, rank, c, j, Find(prog, rank, prog[c].parent, prog[c].methods[j].name))
  }

  lemma {:induction false} NumberFacts(prog: seq<ClassDecl>, rank: seq<nat>, c: nat, i: nat, base: nat)
    requires Acyclic(prog, rank) && c < |prog| && i <= |prog[c].methods| && Number(prog, rank, c, i, base).Laid?
    ensures Numbered(prog, rank, c, i, base, Number(prog, rank, c, i, base)) && AllAccepted(prog, rank, c, i)
  {
    hide Number, Numbered, AllAccepted;
    NumberedSlots(prog, rank, c, i, base);
    NumberedAccepted(prog, rank, c, i, base);
  }

  lemma {:induction false} NumberedAccepted(prog: seq<ClassDecl>, rank: seq<nat>, c: nat, i: nat, base: nat)
    requires Acyclic(prog, rank) && c < |prog| && i <= |prog[c].methods| && Number(prog, rank, c, i, base).Laid?
    ensures AllAccepted(prog, rank, c, i)
    decreases i
  {
    if i > 0 {
      hide Accepts, Find, LayoutOf, Number, SlotOfName;
      NumberUnfold(prog, rank, c, i, base);
      NumberedAccepted(prog, rank, c, i - 1, base);
    }
  }

  lemma {:induction false} NumberedSlots(prog: seq<ClassDecl>, rank: seq<nat>, c: nat, i: nat, base: nat)
    requires Acyclic(prog, rank) && c < |prog| && i <= |prog[c].methods| && Number(prog, rank, c, i, base).Laid?
    ensures Numbered(prog, rank, c, i, base, Number(prog, rank, c, i, base))
    decreases i
  {
    if i > 0 {
      hide Accepts, Find, LayoutOf, Numbered, Number, SlotOfName;
      NumberUnfold(prog, rank, c, i, base);
      NumberedSlots(prog, rank, c, i - 1, base);
      NumberStep(prog, rank, c, i, base, Number(prog, rank, c, i - 1, base), Number(prog, rank, c, i, base));
    } else {
      hide LayoutOf, Accepts, Find, SlotOfName;
    }
  }

  lemma {:induction false} NumberUnfold(prog: seq<ClassDecl>, rank: seq<nat>, c: nat, i: nat, base: nat)
    requires Acyclic(prog, rank) && c < |prog| && 0 < i <= |prog[c].methods| && Number(prog, rank, c, i, base).Laid?
    ensures Number(prog, rank, c, i - 1, base).Laid?
    ensures var l0, l, m := Number(prog, rank, c, i - 1, base), Number(prog, rank, c, i, base), prog[c].methods[i - 1];
      && l.slots[..i - 1] == l0.slots
      && Accepts(prog, rank, c, i - 1, Find(prog, rank, prog[c].parent, m.name))
      && (if m.isOverride then l.slots[i - 1] == SlotOfName(prog, rank, prog[c].parent, m.name)
          && l.nvslots == l0.nvslots
          else if m.isVirtual then l.slots[i - 1] == l0.nvslots && l.nvslots == l0.nvslots + 1
          else l.slots[i - 1] == -1 && l.nvslots == l0.nvslots)
  {
    hide Accepts, Find, LayoutOf;
    var m, p := prog[c].methods[i - 1], prog[c].parent;
    FoundAbove(prog, rank, p, m.name);
    OverrideFound(prog, rank, c, i - 1, p);
  }

  lemma {:induction false} NumberStep(prog: seq<ClassDecl>, rank: seq<nat>, c: nat, i: nat, base: nat, l0: Layout,
          l: Layout)
    requires Acyclic(prog, rank) && c < |prog| && 0 < i <= |prog[c].methods| && l0.Laid? && l.Laid?
        && |l0.slots| == i - 1
    requires Numbered(prog, rank, c, i - 1, base, l0) && |l.slots| == i && l.slots[..i - 1] == l0.slots
    requires var m := prog[c].methods[i - 1];
      if m.isOverride then l.slots[i - 1] == SlotOfName(prog, rank, prog[c].parent, m.name) && l.nvslots == l0.nvslots
      else if m.isVirtual then l.slots[i - 1] == l0.nvslots && l.nvslots == l0.nvslots + 1
      else l.slots[i - 1] == -1 && l.nvslots == l0.nvslots
    ensures Numbered(prog, rank, c, i, base, l)
  {
    hide SlotOfName;
    var ms := prog[c].methods;
    assert forall j :: 0 <= j < i - 1 ==> l.slots[j] == l0.slots[j];
    forall s | base <= s < l.nvslots ensures Given(ms, l.slots, i, s) {
      if s < l0.nvslots {
        assert Given(ms, l0.slots, i - 1, s);
        var j :| 0 <= j < i - 1 && Fresh(ms[j]) && l0.slots[j] == s;
        assert l.slots[j] == s;
      } else {
        assert l.slots[i - 1] == s && Fresh(ms[i - 1]);
      }
    }
  }

  lemma {:induction false} OverrideFound(prog: seq<ClassDecl>, rank: seq<nat>, c: nat, j: nat, p: int)
    requires Acyclic(prog, rank) && c < |prog| && j < |prog[c].methods| && p == prog[c].parent
    ensures Accepts(prog, rank, c, j, Find(prog, rank, p, prog[c].methods[j].name)) && prog[c].methods[j].isOverride ==>
      Find(prog, rank, p, prog[c].methods[j].name).At? && p >= 0
  {
    hide HasField;
  }

  /** A class's own names, and the names it leaves to its parent. */
  lemma {:induction false} NameHere(prog: seq<ClassDecl>, rank: seq<nat>, c: nat, name: Name)
    requires Acyclic(prog, rank) && c < |prog| && Accepted(prog, rank, c)
    ensures Accepted(prog, rank, prog[c].parent)
    ensures var l, p, i := LayoutOf(prog, rank, c), prog[c].parent, Own(prog[c].methods, name);
      && l == Number(prog, rank, c, |prog[c].methods|, SlotsIn(prog, rank, p))
      && (i >= 0 ==> Find(prog, rank, c, name) == At(c, i) && SlotOfName(prog, rank, c, name) == l.slots[i])
      && (i < 0 ==> Find(prog, rank, c, name) == Find(prog, rank, p, name))
      && (i < 0 ==> SlotOfName(prog, rank, c, name) == SlotOfName(prog, rank, p, name))
  {
    hide Number, HasField;
  }

  /** A subclass keeps every slot of its parent, with the signature; names the parent does not
      know get slots behind the parent's. */
  lemma {:induction false} ParentSlotsKept(prog: seq<ClassDecl>, rank: seq<nat>, c: nat, name: Name)
    requires Acyclic(prog, rank) && c < |prog| && Accepted(prog, rank, c)
    ensures var p := prog[c].parent;
      && (Find(prog, rank, p, name).At? ==>
            && Find(prog, rank, c, name).At? && SlotOfName(prog, rank, c, name) == SlotOfName(prog, rank, p, name)
            && var f, g := Find(prog, rank, c, name), Find(prog, rank, p, name);
               prog[f.cls].methods[f.idx].sig == prog[g.cls].methods[g.idx].sig)
      && (Find(prog, rank, p, name) == Missing ==>
            SlotOfName(prog, rank, c, name) < 0
                || SlotsIn(prog, rank, p) <= SlotOfName(prog, rank, c, name) < SlotsIn(prog, rank, c))
  {
    hide Number, LayoutOf, HasField, Find;
    var p, i, n := prog[c].parent, Own(prog[c].methods, name), |prog[c].methods|;
    NameHere(prog, rank, c, name);
    NumberFacts(prog, rank, c, n, SlotsIn(prog, rank, p));
    if i >= 0 { assert AllAccepted(prog, rank, c, n)
        && Accepts(prog, rank, c, i, Find(prog, rank, p, prog[c].methods[i].name)); }
  }

  /** Slot `s` belongs to some name. */
  ghost predicate Named(prog: seq<ClassDecl>, rank: seq<nat>, c: int, s: int)
    requires Acyclic(prog, rank) && -1 <= c < |prog|
  {
    exists name :: SlotOfName(prog, rank, c, name) == s
  }

  /** Lookup by name and slots below `nvslots` match one to one, and exactly the virtual methods
      have slots. */
  ghost predicate OneToOne(prog: seq<ClassDecl>, rank: seq<nat>, c: int)
    requires Acyclic(prog, rank) && -1 <= c < |prog|
  {
    && (forall name :: -2 <= SlotOfName(prog, rank, c, name) < SlotsIn(prog, rank, c))
    && (forall name :: var f := Find(prog, rank, c, name); f.At? ==>
          (SlotOfName(prog, rank, c, name) >= 0 <==>
              prog[f.cls].methods[f.idx].isVirtual || prog[f.cls].methods[f.idx].isOverride))
    && (forall a, b :: SlotOfName(prog, rank, c, a) == SlotOfName(prog, rank, c, b) >= 0 ==> a == b)
    && (forall s :: 0 <= s < SlotsIn(prog, rank, c) ==> Named(prog, rank, c, s))
  }

  lemma {:induction false} SlotsOneToOne(prog: seq<ClassDecl>, rank: seq<nat>, c: int)
    requires Acyclic(prog, rank) && -1 <= c < |prog| && Accepted(prog, rank, c)
    ensures OneToOne(prog, rank, c)
    decreases if c < 0 then 0 else rank[c] + 1
  {
    if c >= 0 {
      hide Number, LayoutOf, HasField, Accepts, SlotOfName, SlotsIn;
      NameHere(prog, rank, c, 0);
      SlotsOneToOne(prog, rank, prog[c].parent);
      forall name { NameFacts(prog, rank, c, name); }
      forall s | 0 <= s < SlotsIn(prog, rank, c) ensures Named(prog, rank, c, s) { SlotNamed(prog, rank, c, s); }
      forall a, b | SlotOfName(prog, rank, c, a) == SlotOfName(prog, rank, c, b) >= 0
          ensures a == b { SlotOnce(prog, rank, c, a, b); }
    }
  }

  lemma {:induction false} NameFacts(prog: seq<ClassDecl>, rank: seq<nat>, c: nat, name: Name)
    requires Acyclic(prog, rank) && c < |prog| && Accepted(prog, rank, c)
    requires Accepted(prog, rank, prog[c].parent) && OneToOne(prog, rank, prog[c].parent)
    ensures -2 <= SlotOfName(prog, rank, c, name) < SlotsIn(prog, rank, c)
    ensures var f := Find(prog, rank, c, name); f.At? ==>
      (SlotOfName(prog, rank, c, name) >= 0 <==>
          prog[f.cls].methods[f.idx].isVirtual || prog[f.cls].methods[f.idx].isOverride)
  {
    hide Number, LayoutOf, HasField, Find;
    var p, i, n := prog[c].parent, Own(prog[c].methods, name), |prog[c].methods|;
    NameHere(prog, rank, c, name);
    NumberFacts(prog, rank, c, n, SlotsIn(prog, rank, p));
    ParentSlotsKept(prog, rank, c, name);
    if i >= 0 { assert AllAccepted(prog, rank, c, n)
        && Accepts(prog, rank, c, i, Find(prog, rank, p, prog[c].methods[i].name)); }
  }

  lemma {:induction false} SlotNamed(prog: seq<ClassDecl>, rank: seq<nat>, c: nat, s: nat)
    requires Acyclic(prog, rank) && c < |prog| && Accepted(prog, rank, c)
    requires Accepted(prog, rank, prog[c].parent) && OneToOne(prog, rank, prog[c].parent) && s < SlotsIn(prog, rank, c)
    ensures Named(prog, rank, c, s)
  {
    hide Number, LayoutOf, HasField, Find;
    var p, ms := prog[c].parent, prog[c].methods;
    NameHere(prog, rank, c, 0);
    NumberFacts(prog, rank, c, |ms|, SlotsIn(prog, rank, p));
    if s < SlotsIn(prog, rank, p) {
      assert Named(prog, rank, p, s);
      var name :| SlotOfName(prog, rank, p, name) == s;
      ParentSlotsKept(prog, rank, c, name);
      FoundName(prog, rank, p, name);
    } else {
      var l := Number(prog, rank, c, |ms|, SlotsIn(prog, rank, p));
      assert Given(ms, l.slots, |ms|, s);
      var j :| 0 <= j < |ms| && Fresh(ms[j]) && l.slots[j] == s;
      OwnIs(prog, rank, c, j);
      NameHere(prog, rank, c, ms[j].name);
    }
  }

  lemma {:induction false} FoundName(prog: seq<ClassDecl>, rank: seq<nat>, c: int, name: Name)
    requires Acyclic(prog, rank) && -1 <= c < |prog| && SlotOfName(prog, rank, c, name) >= -1
    ensures Find(prog, rank, c, name).At?
  {
  }

  /** Names within a class differ, so each method is found under its name. */
  lemma {:induction false} OwnIs(prog: seq<ClassDecl>, rank: seq<nat>, c: nat, j: nat)
    requires Acyclic(prog, rank) && c < |prog| && j < |prog[c].methods| && AllAccepted(prog, rank, c, |prog[c].methods|)
    ensures Own(prog[c].methods, prog[c].methods[j].name) == j
  {
    hide HasField, Find;
    var i := Own(prog[c].methods, prog[c].methods[j].name);
    var k := if i < j then j else i;
    assert k >= 0 && Accepts(prog, rank, c, k, Find(prog, rank, prog[c].parent, prog[c].methods[k].name));
  }

  lemma {:induction false} SlotOnce(prog: seq<ClassDecl>, rank: seq<nat>, c: nat, a: Name, b: Name)
    requires Acyclic(prog, rank) && c < |prog| && Accepted(prog, rank, c)
    requires Accepted(prog, rank, prog[c].parent) && OneToOne(prog, rank, prog[c].parent)
    requires SlotOfName(prog, rank, c, a) == SlotOfName(prog, rank, c, b) >= 0
    ensures a == b
  {
    hide Number, LayoutOf, HasField, Find, Accepts;
    var p, ms := prog[c].parent, prog[c].methods;
    NameHere(prog, rank, c, a);
    NameHere(prog, rank, c, b);
    ParentSlotsKept(prog, rank, c, a);
    ParentSlotsKept(prog, rank, c, b);
    NumberFacts(prog, rank, c, |ms|, SlotsIn(prog, rank, p));
    SlotSource(prog, rank, c, a);
    SlotSource(prog, rank, c, b);
  }

  /** A slot is the parent's, or was given to the class's own method of that name. */
  lemma {:induction false} SlotSource(prog: seq<ClassDecl>, rank: seq<nat>, c: nat, name: Name)
    requires Acyclic(prog, rank) && c < |prog| && Accepted(prog, rank, c) && SlotOfName(prog, rank, c, name) >= 0
    requires Accepted(prog, rank, prog[c].parent) && OneToOne(prog, rank, prog[c].parent)
    ensures var p, ms, i := prog[c].parent, prog[c].methods, Own(prog[c].methods, name);
      if SlotOfName(prog, rank, c, name) < SlotsIn(prog, rank, p)
      then SlotOfName(prog, rank, c, name) == SlotOfName(prog, rank, p, name)
      else
        && i >= 0 && Fresh(ms[i]) && LayoutOf(prog, rank, c).Laid?
        && LayoutOf(prog, rank, c).slots[i] == SlotOfName(prog, rank, c, name)
  {
    hide Number, LayoutOf, HasField, Find, Accepts;
    var p, i, n := prog[c].parent, Own(prog[c].methods, name), |prog[c].methods|;
    NameHere(prog, rank, c, name);
    NumberFacts(prog, rank, c, n, SlotsIn(prog, rank, p));
    ParentSlotsKept(prog, rank, c, name);
  }

  // ---------------------------------------------------------------- dispatch

  /** The first method with slot `s`, or -1. */
  function WithSlot(slots: seq<int>, s: nat): (i: int)
    ensures -1 <= i < |slots| && (i >= 0 ==> slots[i] == s) && (i < 0 ==> s !in slots)
  {
    if slots == [] then -1
    else if slots[0] == s then 0
    else var i := WithSlot(slots[1..], s); if i < 0 then -1 else i + 1
  }

  /** vslot_impl: the nearest class up the chain with a method in that slot. */
  function VslotImpl(prog: seq<ClassDecl>, rank: seq<nat>, c: int, s: nat): Found
    requires Acyclic(prog, rank) && -1 <= c < |prog|
    decreases if c < 0 then 0 else rank[c] + 1
  {
    if c < 0 then Missing else
    var l := LayoutOf(prog, rank, c);
    if l.Laid? && WithSlot(l.slots, s) >= 0 then At(c, WithSlot(l.slots, s))
    else VslotImpl(prog, rank, prog[c].parent, s)
  }

  /** The method in a slot is the one lookup finds for the slot's name. */
  lemma {:induction false} ImplIsLookup(prog: seq<ClassDecl>, rank: seq<nat>, c: int, name: Name)
    requires Acyclic(prog, rank) && -1 <= c < |prog| && Accepted(prog, rank, c) && SlotOfName(prog, rank, c, name) >= 0
    ensures VslotImpl(prog, rank, c, SlotOfName(prog, rank, c, name)) == Find(prog, rank, c, name)
    decreases if c < 0 then 0 else rank[c] + 1
  {
    FoundName(prog, rank, c, name);
    FoundAbove(prog, rank, c, name);
    hide Number, LayoutOf, HasField, Find, Accepts, SlotOfName;
    var s := SlotOfName(prog, rank, c, name);
    var l := LayoutOf(prog, rank, c);
    SlotsOneToOne(prog, rank, c);
    NameHere(prog, rank, c, name);
    var i := WithSlot(l.slots, s);
    if i >= 0 {
      NumberFacts(prog, rank, c, |prog[c].methods|, SlotsIn(prog, rank, prog[c].parent));
      OwnIs(prog, rank, c, i);
      NameHere(prog, rank, c, prog[c].methods[i].name);
      assert SlotOfName(prog, rank, c, prog[c].methods[i].name) == s;
    } else {
      assert Own(prog[c].methods, name) < 0;
      ImplIsLookup(prog, rank, prog[c].parent, name);
    }
  }

  /** Every slot of an accepted class has a method, so no vtable entry is missing. */
  lemma {:induction false} EverySlotFilled(prog: seq<ClassDecl>, rank: seq<nat>, c: nat, s: nat)
    requires Acyclic(prog, rank) && c < |prog| && Accepted(prog, rank, c) && s < SlotsIn(prog, rank, c)
    ensures VslotImpl(prog, rank, c, s).At?
  {
    hide Number, LayoutOf, HasField, Find, Accepts, SlotOfName, VslotImpl, SlotsIn;
    SlotsOneToOne(prog, rank, c);
    assert Named(prog, rank, c, s);
    var name :| SlotOfName(prog, rank, c, name) == s;
    ImplIsLookup(prog, rank, c, name);
    FoundName(prog, rank, c, name);
  }

  /** A call through the slot a method has in the static class `b`, on an object of a class `c`
      derived from it, runs the method that lookup by name finds from `c`, with the same signature. */
  lemma {:induction false} DispatchIsLookup(prog: seq<ClassDecl>, rank: seq<nat>, c: nat, b: nat, name: Name)
    requires Acyclic(prog, rank) && c < |prog| && b < |prog| && Accepted(prog, rank, c)
        && Reaches(ParentsOf(prog), c, b)
    requires SlotOfName(prog, rank, b, name) >= 0
    ensures var s := SlotOfName(prog, rank, b, name);
      && s < SlotsIn(prog, rank, c) && VslotImpl(prog, rank, c, s) == Find(prog, rank, c, name)
      && Find(prog, rank, b, name).At? && Find(prog, rank, c, name).At?
      && var f, g := Find(prog, rank, c, name), Find(prog, rank, b, name);
         prog[f.cls].methods[f.idx].sig == prog[g.cls].methods[g.idx].sig
  {
    SlotKept(prog, rank, c, b, name);
    hide Number, LayoutOf, HasField, Find, Accepts, SlotOfName, VslotImpl, SlotsIn;
    SlotsOneToOne(prog, rank, c);
    ImplIsLookup(prog, rank, c, name);
  }

  lemma {:induction false} SlotKept(prog: seq<ClassDecl>, rank: seq<nat>, c: nat, b: nat, name: Name)
    requires Acyclic(prog, rank) && c < |prog| && b < |prog| && Accepted(prog, rank, c)
        && Reaches(ParentsOf(prog), c, b)
    requires SlotOfName(prog, rank, b, name) >= 0
    ensures SlotOfName(prog, rank, c, name) == SlotOfName(prog, rank, b, name)
    ensures Find(prog, rank, b, name).At? && Find(prog, rank, c, name).At?
    ensures var f, g := Find(prog, rank, c, name), Find(prog, rank, b, name);
      prog[f.cls].methods[f.idx].sig == prog[g.cls].methods[g.idx].sig
    decreases rank[c]
  {
    FoundName(prog, rank, b, name);
    if c != b {
      var p := prog[c].parent;
      hide Number, LayoutOf, HasField, Find, Accepts, SlotOfName;
      var k: nat :| Up(ParentsOf(prog), c, k) == b;
      UpOne(ParentsOf(prog), c, k - 1);
      assert p >= 0 && Reaches(ParentsOf(prog), p, b);
      NameHere(prog, rank, c, name);
      SlotKept(prog, rank, p, b, name);
      ParentSlotsKept(prog, rank, c, name);
    }
  }

  // ---------------------------------------------------------------- laid out too early

  /** The program as it is while the parent of `c` is not set. */
  function Unset(prog: seq<ClassDecl>, c: nat): seq<ClassDecl>
    requires c < |prog|
  {
    prog[c := prog[c].(parent := -1)]
  }

  /** How many of the first `i` methods get a new slot. */
  function FreshCount(ms: seq<Method>, i: nat): nat
    requires i <= |ms|
  {
    if i == 0 then 0 else FreshCount(ms, i - 1) + if Fresh(ms[i - 1]) then 1 else 0
  }

  lemma {:induction false} NumberCount(prog: seq<ClassDecl>, rank: seq<nat>, c: nat, i: nat, base: nat)
    requires Acyclic(prog, rank) && c < |prog| && i <= |prog[c].methods| && Number(prog, rank, c, i, base).Laid?
    ensures Number(prog, rank, c, i, base).nvslots == base + FreshCount(prog[c].methods, i)
    decreases i
  {
    if i > 0 {
      hide Accepts, Find, LayoutOf, Number, SlotOfName;
      NumberUnfold(prog, rank, c, i, base);
      NumberCount(prog, rank, c, i - 1, base);
    } else {
      hide Accepts, Find, LayoutOf;
    }
  }

  /** Without slots above there is nothing to override. */
  lemma {:induction false} NoOverride(prog: seq<ClassDecl>, rank: seq<nat>, c: nat, i: nat)
    requires Acyclic(prog, rank) && c < |prog| && Accepted(prog, rank, c) && i < |prog[c].methods|
    requires SlotsIn(prog, rank, prog[c].parent) == 0
    ensures !prog[c].methods[i].isOverride
  {
    hide Number, LayoutOf, HasField, Find, SlotOfName, SlotsIn;
    var p, m := prog[c].parent, prog[c].methods[i];
    NameHere(prog, rank, c, m.name);
    NumberFacts(prog, rank, c, |prog[c].methods|, SlotsIn(prog, rank, p));
    SlotsOneToOne(prog, rank, p);
    assert Accepts(prog, rank, c, i, Find(prog, rank, p, m.name));
    OverrideFound(prog, rank, c, i, p);
  }

  lemma {:induction false} SameNumbers(prog: seq<ClassDecl>, rank: seq<nat>, c: nat, i: nat)
    requires c < |prog| && Acyclic(prog, rank) && Acyclic(Unset(prog, c), rank) && i <= |prog[c].methods|
    requires forall j :: 0 <= j < i ==> !prog[c].methods[j].isOverride
    requires Number(prog, rank, c, i, 0).Laid? && Number(Unset(prog, c), rank, c, i, 0).Laid?
    ensures Number(prog, rank, c, i, 0) == Number(Unset(prog, c), rank, c, i, 0)
    decreases i
  {
    if i > 0 {
      hide Accepts, Find, LayoutOf, Number, SlotOfName;
      NumberUnfold(prog, rank, c, i, 0);
      NumberUnfold(Unset(prog, c), rank, c, i, 0);
      SameNumbers(prog, rank, c, i - 1);
      SameLayout(Number(prog, rank, c, i, 0), Number(Unset(prog, c), rank, c, i, 0), i);
    } else {
      hide Accepts, Find, LayoutOf;
    }
  }

  lemma {:induction false} SameLayout(a: Layout, b: Layout, i: nat)
    requires a.Laid? && b.Laid? && |a.slots| == |b.slots| == i > 0 && a.nvslots == b.nvslots
    requires a.slots[..i - 1] == b.slots[..i - 1] && a.slots[i - 1] == b.slots[i - 1]
    ensures a == b
  {
    assert a.slots == a.slots[..i - 1] + [a.slots[i - 1]] && b.slots == b.slots[..i - 1] + [b.slots[i - 1]];
  }

  /** A class laid out before its parent is set is laid out as a root.  When nothing is found wrong
      then or later, the layout is right exactly if the parent has no slots. */
  lemma {:induction false} EarlyLayout(prog: seq<ClassDecl>, rank: seq<nat>, c: nat)
    requires Acyclic(prog, rank) && c < |prog|
    ensures Acyclic(Unset(prog, c), rank)
    ensures LayoutOf(Unset(prog, c), rank, c).Laid? && LayoutOf(prog, rank, c).Laid? ==>
      (LayoutOf(Unset(prog, c), rank, c) == LayoutOf(prog, rank, c) <==> SlotsIn(prog, rank, prog[c].parent) == 0)
  {
    var early, n, base := Unset(prog, c), |prog[c].methods|, SlotsIn(prog, rank, prog[c].parent);
    if LayoutOf(early, rank, c).Laid? && LayoutOf(prog, rank, c).Laid? {
      NameHere(prog, rank, c, 0);
      NameHere(early, rank, c, 0);
      hide LayoutOf, Number, Accepts, Find;
      assert LayoutOf(early, rank, c) == Number(early, rank, c, n, 0);
      assert LayoutOf(prog, rank, c) == Number(prog, rank, c, n, base);
      NumberCount(prog, rank, c, n, base);
      NumberCount(early, rank, c, n, 0);
      if base == 0 {
        forall j | 0 <= j < n ensures !prog[c].methods[j].isOverride { NoOverride(prog, rank, c, j); }
        SameNumbers(prog, rank, c, n);
      }
    }
  }

  /** A class 0 with a virtual method, and a class 1 derived from it with a method of its own. */
  function Late(m: Method): seq<ClassDecl> {
    [ClassDecl(-1, [], [Method(0, true, false, 0, false)]), ClassDecl(0, [], [m])]
  }

  /** The layout of a class with one method and no field. */
  lemma {:induction false} OneMethod(prog: seq<ClassDecl>, rank: seq<nat>, c: nat, base: nat)
    requires Acyclic(prog, rank) && c < |prog| && |prog[c].methods| == 1 && prog[c].fields == []
    requires Accepted(prog, rank, prog[c].parent) && base == SlotsIn(prog, rank, prog[c].parent)
    ensures var m := prog[c].methods[0];
      var inh := Find(prog, rank, prog[c].parent, m.name);
      LayoutOf(prog, rank, c) ==
        if !Accepts(prog, rank, c, 0, inh) then Rejected
        else if m.isOverride then Laid([SlotAt(prog, rank, c, inh)], base)
        else if m.isVirtual then Laid([base], base + 1)
        else Laid([-1], base)
  {
    hide Accepts, Find, SlotAt;
    LayoutIsNumber(prog, rank, c);
    assert Number(prog, rank, c, 0, base) == Laid([], base);
    assert Number(prog, rank, c, 1, base) == LayoutOf(prog, rank, c);
  }

  lemma {:induction false} LateBase(m: Method)
    ensures Acyclic(Late(m), [0, 1]) && Acyclic(Unset(Late(m), 1), [0, 1])
    ensures LayoutOf(Late(m), [0, 1], 0) == Laid([0], 1) && Find(Late(m), [0, 1], 0, 0) == At(0, 0)
    ensures Find(Late(m), [0, 1], 0, 1) == Missing && Find(Late(m), [0, 1], -1, 0) == Missing
  {
    hide LayoutOf;
    var prog := Late(m);
    assert Find(prog, [0, 1], -1, 0) == Missing && Find(prog, [0, 1], -1, 1) == Missing;
    assert Own(prog[0].methods, 0) == 0;
    assert Own(prog[0].methods[1..], 1) == -1;
    assert !HasField(prog, [0, 1], -1, 0);
    OneMethod(prog, [0, 1], 0, 0);
  }

  /** Laid out early, an override is refused that is right, and a new virtual method gets the slot
      that is the parent's. */
  lemma {:induction false} EarlyLayoutWrong()
    ensures var prog, rank := Late(Method(0, false, true, 0, false)), [0, 1];
      && Acyclic(prog, rank) && Acyclic(Unset(prog, 1), rank)
      && LayoutOf(prog, rank, 1) == Laid([0], 1) && LayoutOf(Unset(prog, 1), rank, 1).Rejected?
    ensures var prog, rank := Late(Method(1, true, false, 0, false)), [0, 1];
      && Acyclic(prog, rank) && Acyclic(Unset(prog, 1), rank)
      && LayoutOf(prog, rank, 1) == Laid([1], 2) && LayoutOf(Unset(prog, 1), rank, 1) == Laid([0], 1)
      && SlotOfName(prog, rank, 0, 0) == 0
  {
    hide LayoutOf, Find, HasField, SlotAt;
    LateOne(Method(0, false, true, 0, false));
    LateOne(Method(1, true, false, 0, false));
  }

  lemma {:induction false} LateOne(m: Method)
    requires m == Method(0, false, true, 0, false) || m == Method(1, true, false, 0, false)
    ensures Acyclic(Late(m), [0, 1]) && Acyclic(Unset(Late(m), 1), [0, 1])
    ensures LayoutOf(Late(m), [0, 1], 1) == if m.isOverride then Laid([0], 1) else Laid([1], 2)
    ensures LayoutOf(Unset(Late(m), 1), [0, 1], 1) == if m.isOverride then Rejected else Laid([0], 1)
    ensures SlotOfName(Late(m), [0, 1], 0, 0) == 0
  {
    LateBase(m);
    hide LayoutOf, Find, HasField;
    LateFinal(m);
    LateEarly(m);
  }

  lemma {:induction false} LateInherits(m: Method)
    requires m == Method(0, false, true, 0, false) || m == Method(1, true, false, 0, false)
    requires Acyclic(Late(m), [0, 1])
    ensures Find(Late(m), [0, 1], 0, m.name) == if m.isOverride then At(0, 0) else Missing
    ensures Accepts(Late(m), [0, 1], 1, 0, Find(Late(m), [0, 1], 0, m.name))
  {
    LateBase(m);
    LateFields(Late(m), m.name);
    hide LayoutOf, Find, HasField;
  }

  lemma {:induction false} LateSlot(m: Method)
    requires Acyclic(Late(m), [0, 1])
    ensures SlotAt(Late(m), [0, 1], 1, At(0, 0)) == 0
    ensures Accepted(Late(m), [0, 1], 0) && SlotsIn(Late(m), [0, 1], 0) == 1
  {
    LateBase(m);
    hide LayoutOf;
  }

  lemma {:induction false} LateFinal(m: Method)
    requires m == Method(0, false, true, 0, false) || m == Method(1, true, false, 0, false)
    requires Acyclic(Late(m), [0, 1])
    ensures LayoutOf(Late(m), [0, 1], 1) == if m.isOverride then Laid([0], 1) else Laid([1], 2)
  {
    hide LayoutOf, Find, HasField, SlotAt, Accepts, Accepted, SlotsIn;
    LateInherits(m);
    LateSlot(m);
    OneMethod(Late(m), [0, 1], 1, 1);
  }

  lemma {:induction false} LateEarly(m: Method)
    requires m == Method(0, false, true, 0, false) || m == Method(1, true, false, 0, false)
    requires Acyclic(Unset(Late(m), 1), [0, 1])
    ensures LayoutOf(Unset(Late(m), 1), [0, 1], 1) == if m.isOverride then Rejected else Laid([0], 1)
  {
    var early := Unset(Late(m), 1);
    LateFields(early, m.name);
    assert Find(early, [0, 1], -1, m.name) == Missing;
    hide LayoutOf, Find, HasField;
    OneMethod(early, [0, 1], 1, 0);
  }

  lemma {:induction false} LateFields(prog: seq<ClassDecl>, name: Name)
    requires Acyclic(prog, [0, 1]) && |prog| == 2 && prog[0].fields == prog[1].fields == []
    requires prog[0].parent == -1 && prog[1].parent <= 0
    ensures !HasField(prog, [0, 1], 1, name)
  {
    assert !HasField(prog, [0, 1], -1, name);
    assert !HasField(prog, [0, 1], 0, name);
  }

  // ---------------------------------------------------------------- hierarchies as declared

  predicate Declared(prog: seq<ClassDecl>) {
    forall c :: 0 <= c < |prog| ==> -1 <= prog[c].parent < |prog|
  }

  ghost predicate Rising(prog: seq<ClassDecl>, c: int)
    requires Declared(prog) && -1 <= c < |prog|
  {
    Rooted(ParentsOf(prog), c)
  }

  /** The part of a program that has layouts: the classes whose chains end.  Any other is cut off. */
  ghost function Tree(prog: seq<ClassDecl>): (tree: seq<ClassDecl>)
    requires Declared(prog)
    ensures |tree| == |prog|
  {
    seq(|prog|, c requires 0 <= c < |prog| => if Rising(prog, c) then prog[c] else prog[c].(parent := -1))
  }

  ghost function HeightList(prog: seq<ClassDecl>): (rank: seq<nat>)
    requires Declared(prog)
    ensures |rank| == |prog|
  {
    seq(|prog|, c requires 0 <= c < |prog| => Height(ParentsOf(prog), c, |prog|))
  }

  /** Each class's distance from the end of its chain. */
  ghost function Heights(prog: seq<ClassDecl>): (rank: seq<nat>)
    requires Declared(prog)
    ensures |rank| == |prog| && Acyclic(Tree(prog), rank)
  {
    TreeIsAcyclic(prog);
    HeightList(prog)
  }

  lemma {:induction false} TreeAt(prog: seq<ClassDecl>, c: nat)
    requires Declared(prog) && c < |prog| && Rising(prog, c)
    ensures Tree(prog)[c] == prog[c] && Rising(prog, prog[c].parent)
  {
    RootedUp(ParentsOf(prog), c);
  }

  lemma {:induction false} TreeIsAcyclic(prog: seq<ClassDecl>)
    requires Declared(prog)
    ensures Acyclic(Tree(prog), HeightList(prog))
  {
    hide Height;
    forall c | 0 <= c < |prog| && Tree(prog)[c].parent >= 0
      ensures HeightList(prog)[Tree(prog)[c].parent] < HeightList(prog)[c]
    {
      HeightFalls(ParentsOf(prog), c);
    }
  }

  /** What the pass comes to on one class. */
  datatype Verdict = Fine | CycleFound | Refused

  /** The verdict on a class whose cycle test ends. */
  ghost function VerdictOn(prog: seq<ClassDecl>, c: nat): Verdict
    requires Declared(prog) && c < |prog|
  {
    if Cyclic(ParentsOf(prog), c) then CycleFound
    else if LayoutOf(Tree(prog), Heights(prog), c).Laid? then Fine
    else Refused
  }

  // ---------------------------------------------------------------- the pass, counted in steps

  datatype Run = Going | Done(v: Verdict)

  /** The pass over the classes from `c` on, each cycle test given `n` steps. */
  ghost function PassRun(prog: seq<ClassDecl>, c: nat, n: nat): Run
    requires Declared(prog) && c <= |prog|
    decreases |prog| - c
  {
    if c == |prog| then Done(Fine)
    else match Walk(ParentsOf(prog), prog[c].parent, c, n)
      case Running => Going
      case Yes => Done(CycleFound)
      case No => if VerdictOn(prog, c).Fine? then PassRun(prog, c + 1, n) else Done(VerdictOn(prog, c))
  }

  /** No class from `c` on is stuck unless one before it, from `c` on, is diagnosed. */
  ghost predicate PassEnds(prog: seq<ClassDecl>, c: nat)
    requires Declared(prog)
  {
    forall d :: c <= d < |prog| && Stuck(ParentsOf(prog), d) ==>
      exists e :: c <= e < d && !Stuck(ParentsOf(prog), e) && !VerdictOn(prog, e).Fine?
  }

  /** Up the chain of a class whose test said no, the tests say no within as many steps. */
  lemma {:induction false} AncestorsPass(prog: seq<ClassDecl>, c: nat, n: nat)
    requires Declared(prog) && c < |prog| && prog[c].parent >= 0
    requires Walk(ParentsOf(prog), prog[c].parent, c, n) == No
    ensures Walk(ParentsOf(prog), prog[prog[c].parent].parent, prog[c].parent, n) == No
  {
    hide Walk;
    var ps, p := ParentsOf(prog), prog[c].parent;
    WalkAnswers(ps, p, c, n);
    if Cyclic(ps, p) { CyclicIsNotRooted(ps, p); }
    WalkRuns(ps, p, c, n);
    var k: nat :| k <= n && Met(ps, p, c, k);
    assert Up(ps, p, k) < 0;
    UpOne(ps, p, k - 1);
    assert Met(ps, ps[p], p, k - 1);
    WalkRuns(ps, ps[p], p, n);
    WalkAnswers(ps, ps[p], p, n);
  }

  /** With steps enough the pass over the classes from `c` on comes to `v`. */
  ghost predicate Comes(prog: seq<ClassDecl>, c: nat, v: Verdict)
    requires Declared(prog) && c <= |prog|
  {
    exists n: nat :: PassRun(prog, c, n) == Done(v)
  }

  /** The pass ends exactly if no stuck class is met before a diagnosis, and it finds nothing wrong
      exactly if every class has a chain that ends and a layout. */
  lemma {:induction false} PassEndsExactly(prog: seq<ClassDecl>, c: nat)
    requires Declared(prog) && c <= |prog|
    ensures (exists v :: Comes(prog, c, v)) <==> PassEnds(prog, c)
    ensures Comes(prog, c, Fine) <==> forall d :: c <= d < |prog| ==> Rising(prog, d) && VerdictOn(prog, d).Fine?
    decreases |prog| - c
  {
    if c == |prog| {
      PassDone(prog, Fine);
    } else {
      hide Comes, VerdictOn, Stuck, Rising;
      PassEndsExactly(prog, c + 1);
      FineIsRising(prog, c);
      if Stuck(ParentsOf(prog), c) {
        forall v { StepStuck(prog, c, v); }
      } else if VerdictOn(prog, c).Fine? {
        StepFine(prog, c, Fine);
        StepFine(prog, c, CycleFound);
        StepFine(prog, c, Refused);
        PassEndsNext(prog, c);
      } else {
        StepBad(prog, c, VerdictOn(prog, c));
        StepBad(prog, c, Fine);
        BadEnds(prog, c);
      }
    }
  }

  lemma {:induction false} BadEnds(prog: seq<ClassDecl>, c: nat)
    requires Declared(prog) && c < |prog|
    requires !Stuck(ParentsOf(prog), c) && !VerdictOn(prog, c).Fine?
    ensures PassEnds(prog, c)
  {
    hide Stuck, VerdictOn;
  }

  lemma {:induction false} PassEndsNext(prog: seq<ClassDecl>, c: nat)
    requires Declared(prog) && c < |prog|
    requires !Stuck(ParentsOf(prog), c) && VerdictOn(prog, c).Fine?
    ensures PassEnds(prog, c) <==> PassEnds(prog, c + 1)
  {
    hide Stuck, VerdictOn;
    forall d | c + 1 <= d < |prog| && Stuck(ParentsOf(prog), d)
      ensures (exists e :: c <= e < d && !Stuck(ParentsOf(prog), e) && !VerdictOn(prog, e).Fine?) <==>
        (exists e :: c + 1 <= e < d && !Stuck(ParentsOf(prog), e) && !VerdictOn(prog, e).Fine?)
    {
    }
  }

  lemma {:induction false} PassDone(prog: seq<ClassDecl>, v: Verdict)
    requires Declared(prog)
    ensures Comes(prog, |prog|, v) <==> v == Fine
  {
    assert PassRun(prog, |prog|, 0) == Done(Fine);
  }

  /** A stuck class that is reached is never left. */
  lemma {:induction false} StepStuck(prog: seq<ClassDecl>, c: nat, v: Verdict)
    requires Declared(prog) && c < |prog| && Stuck(ParentsOf(prog), c)
    ensures !Comes(prog, c, v)
  {
    hide Stuck, VerdictOn, Walk;
    CycleTest(ParentsOf(prog), c);
    forall n: nat ensures PassRun(prog, c, n) == Going {
      assert Walk(ParentsOf(prog), ParentsOf(prog)[c], c, n) == Running;
    }
  }

  lemma {:induction false} StepFine(prog: seq<ClassDecl>, c: nat, v: Verdict)
    requires Declared(prog) && c < |prog|
    requires !Stuck(ParentsOf(prog), c) && VerdictOn(prog, c).Fine?
    ensures Comes(prog, c, v) <==> Comes(prog, c + 1, v)
  {
    var ps := ParentsOf(prog);
    FineIsRising(prog, c);
    hide VerdictOn, Walk, Rooted;
    CycleTest(ps, c);
    var k: nat :| Walk(ps, ps[c], c, k) == No;
    var d := c + 1;
    if n: nat :| PassRun(prog, d, n) == Done(v) {
      var m := if n < k then k else n;
      WalkLonger(ps, ps[c], c, k, m);
      PassLonger(prog, d, n, m);
      assert PassRun(prog, c, m) == Done(v);
    }
    if n: nat :| PassRun(prog, c, n) == Done(v) {
      var m := if n < k then k else n;
      PassLonger(prog, c, n, m);
      WalkLonger(ps, ps[c], c, k, m);
      assert PassRun(prog, d, m) == Done(v);
    }
  }

  lemma {:induction false} StepBad(prog: seq<ClassDecl>, c: nat, v: Verdict)
    requires Declared(prog) && c < |prog|
    requires !Stuck(ParentsOf(prog), c) && !VerdictOn(prog, c).Fine?
    ensures Comes(prog, c, v) <==> v == VerdictOn(prog, c)
  {
    var ps := ParentsOf(prog);
    CyclicIsNotRising(prog, c);
    hide VerdictOn, Walk, Rooted;
    CycleTest(ps, c);
    var k: nat :| Walk(ps, ps[c], c, k) != Running;
    forall n: nat { WalkAnswers(ps, ps[c], c, n); }
    assert PassRun(prog, c, k) == Done(VerdictOn(prog, c));
    if n: nat :| PassRun(prog, c, n) == Done(v) {
      PassLonger(prog, c, n, if n < k then k else n);
      PassLonger(prog, c, k, if n < k then k else n);
    }
  }

  lemma {:induction false} FineIsRising(prog: seq<ClassDecl>, c: nat)
    requires Declared(prog) && c < |prog|
    ensures VerdictOn(prog, c).Fine? && !Stuck(ParentsOf(prog), c) ==> Rising(prog, c)
    ensures Stuck(ParentsOf(prog), c) ==> !Rising(prog, c)
  {
  }

  lemma {:induction false} CyclicIsNotRising(prog: seq<ClassDecl>, c: nat)
    requires Declared(prog) && c < |prog|
    ensures Cyclic(ParentsOf(prog), c) ==> !Rising(prog, c) && VerdictOn(prog, c) == CycleFound
    ensures Rising(prog, c) ==> VerdictOn(prog, c) != CycleFound
  {
    if Cyclic(ParentsOf(prog), c) { CyclicIsNotRooted(ParentsOf(prog), c); }
  }

  /** More steps do not change an answer. */
  lemma {:induction false} WalkLonger(ps: Parents, sub: int, base: nat, n: nat, m: nat)
    requires InRange(ps) && -1 <= sub < |ps| && n <= m && Walk(ps, sub, base, n) != Running
    ensures Walk(ps, sub, base, m) == Walk(ps, sub, base, n)
    decreases n
  {
    if sub >= 0 && sub != base { WalkLonger(ps, ps[sub], base, n - 1, m - 1); }
  }

  lemma {:induction false} PassLonger(prog: seq<ClassDecl>, c: nat, n: nat, m: nat)
    requires Declared(prog) && c <= |prog|
    requires n <= m && PassRun(prog, c, n) != Going
    ensures PassRun(prog, c, m) == PassRun(prog, c, n)
    decreases |prog| - c
  {
    hide Walk, VerdictOn;
    if c < |prog| {
      WalkLonger(ParentsOf(prog), prog[c].parent, c, n, m);
      if Walk(ParentsOf(prog), prog[c].parent, c, n) == No
          && VerdictOn(prog, c).Fine? { PassLonger(prog, c + 1, n, m); }
    }
  }

  /** What the pass finds nothing wrong with is a hierarchy without cycles, laid out throughout. */
  lemma {:induction false} FineIsAcyclic(prog: seq<ClassDecl>)
    requires Declared(prog) && Comes(prog, 0, Fine)
    ensures Acyclic(prog, Heights(prog)) && forall c :: 0 <= c < |prog| ==> Accepted(prog, Heights(prog), c)
  {
    hide LayoutOf, Rooted, Heights;
    PassEndsExactly(prog, 0);
    forall c | 0 <= c < |prog| ensures Tree(prog)[c] == prog[c] { TreeAt(prog, c); }
    assert Tree(prog) == prog;
    forall c | 0 <= c < |prog| ensures Accepted(prog, Heights(prog), c) { assert VerdictOn(prog, c).Fine?; }
  }

  /** In a program the pass accepts, every virtual call through any static class runs the method
      that lookup finds in the class of the object. */
  lemma {:induction false} AcceptedProgramDispatches(prog: seq<ClassDecl>, c: nat, b: nat, name: Name)
    requires Declared(prog) && Comes(prog, 0, Fine) && c < |prog| && b < |prog| && Reaches(ParentsOf(prog), c, b)
    ensures Acyclic(prog, Heights(prog))
    ensures SlotOfName(prog, Heights(prog), b, name) >= 0 ==>
      var rank := Heights(prog);
      var s := SlotOfName(prog, rank, b, name);
      && s < SlotsIn(prog, rank, c) && VslotImpl(prog, rank, c, s) == Find(prog, rank, c, name)
      && Find(prog, rank, b, name).At? && Find(prog, rank, c, name).At?
      && var f, g := Find(prog, rank, c, name), Find(prog, rank, b, name);
         prog[f.cls].methods[f.idx].sig == prog[g.cls].methods[g.idx].sig
  {
    FineIsAcyclic(prog);
    hide LayoutOf, Find, VslotImpl, SlotOfName, SlotsIn, Heights, Comes, Accepted, Reaches;
    if SlotOfName(prog, Heights(prog), b, name) >= 0 { DispatchIsLookup(prog, Heights(prog), c, b, name); }
  }

  /** With A deriving from B, and B and C from each other, the pass never ends. */
  lemma {:induction false} PassHangs(prog: seq<ClassDecl>, n: nat)
    requires Declared(prog) && ParentsOf(prog) == HANGING
    ensures PassRun(prog, 0, n) == Going
  {
    WalkHangs(n);
  }

  // ---------------------------------------------------------------- the checker's pass

  /** layout_class and the state it updates: each class is laid out once, its parent first. */
  class Checker {
    const prog: seq<ClassDecl>
    ghost const tree: seq<ClassDecl>
    ghost const rank: seq<nat>
    var checked: seq<bool>
    var slots: seq<seq<int>>
    var nvslots: seq<nat>

    ghost predicate Knows() {
      Declared(prog) && tree == Tree(prog) && rank == Heights(prog) && Acyclic(tree, rank)
    }

    /** What is marked has the layout it should. */
    ghost predicate Valid()
      reads this
    {
      && Knows() && |checked| == |slots| == |nvslots| == |prog|
      && (forall c :: 0 <= c < |prog| && checked[c] ==>
          Rising(prog, c) && LayoutOf(tree, rank, c) == Laid(slots[c], nvslots[c]))
      && (forall c :: 0 <= c < |prog| && checked[c] && prog[c].parent >= 0 ==> checked[prog[c].parent])
    }

    constructor (prog: seq<ClassDecl>)
      requires Declared(prog)
      ensures Valid() && this.prog == prog && forall c :: 0 <= c < |prog| ==> !checked[c]
    {
      this.prog, tree, rank := prog, Tree(prog), Heights(prog);
      checked, slots, nvslots := seq(|prog|, _ => false), seq(|prog|, _ => []), seq(|prog|, _ => 0);
    }

    /** class_derives, where it ends. */
    method Derives(sub: int, base: nat) returns (r: bool)
      requires Knows() && -1 <= sub < |prog|
      requires Rooted(ParentsOf(prog), sub) || Reaches(ParentsOf(prog), sub, base)
      ensures r <==> Reaches(ParentsOf(prog), sub, base)
    {
      hide Rooted, Reaches;
      ghost var ps := ParentsOf(prog);
      ghost var n := StepsTo(ps, sub, base);
      ghost var n0 := n;
      WalkAnswers(ps, sub, base, n0);
      var k := sub;
      while k >= 0
        invariant -1 <= k < |prog| && Walk(ps, k, base, n) == Walk(ps, sub, base, n0) != Running
        decreases n, k
      {
        if k == base { return true; }
        k := prog[k].parent;
        n := n - 1;
      }
      return false;
    }

    method FindMethod(c: int, name: Name) returns (f: Found)
      requires Knows() && -1 <= c < |prog| && Rising(prog, c)
      ensures f == Find(tree, rank, c, name)
    {
      hide Rising, Tree;
      var k := c;
      while k >= 0
        invariant -1 <= k < |prog| && Rising(prog, k) && Find(tree, rank, k, name) == Find(tree, rank, c, name)
        decreases if k < 0 then 0 else rank[k] + 1
      {
        TreeAt(prog, k);
        var i := 0;
        while i < |prog[k].methods| && prog[k].methods[i].name != name
          invariant i <= |prog[k].methods| && forall j :: 0 <= j < i ==> prog[k].methods[j].name != name
        {
          i := i + 1;
        }
        if i < |prog[k].methods| {
          assert Own(prog[k].methods, name) == i;
          return At(k, i);
        }
        k := prog[k].parent;
      }
      return Missing;
    }

    method FindField(c: int, name: Name) returns (r: bool)
      requires Knows() && -1 <= c < |prog| && Rising(prog, c)
      ensures r == HasField(tree, rank, c, name)
    {
      hide Rising, Tree;
      var k := c;
      while k >= 0
        invariant -1 <= k < |prog| && Rising(prog, k) && HasField(tree, rank, k, name) == HasField(tree, rank, c, name)
        decreases if k < 0 then 0 else rank[k] + 1
      {
        TreeAt(prog, k);
        if name in prog[k].fields { return true; }
        k := prog[k].parent;
      }
      return false;
    }

    /** Anything but `Fine` is a fatal diagnostic that ends the check.  A class that is stuck below a
        cycle cannot be given: the test for a cycle would not end. */
    method LayoutClass(c: nat) returns (v: Verdict)
      requires Valid() && c < |prog| && !Stuck(ParentsOf(prog), c)
      modifies this
      ensures v == VerdictOn(prog, c)
      ensures v.Fine? ==> Valid() && checked[c] && forall d :: 0 <= d < |prog| && old(checked)[d] ==> checked[d]
      decreases if Rising(prog, c) then rank[c] else 0
    {
      hide HasField, Accepts, Find, Number, Rooted, Cyclic, Tree;
      CyclicIsNotRising(prog, c);
      if checked[c] { return Fine; }
      var p, n := prog[c].parent, 0;
      RootedUp(ParentsOf(prog), c);
      if p >= 0 {
        CyclicReaches(prog, c);
        var cycle := Derives(p, c);
        if cycle { return CycleFound; }
        TreeAt(prog, c);
        CyclicIsNotRising(prog, p);
        v := LayoutClass(p);
        if !v.Fine? {
          RejectedParent(tree, rank, c);
          return;
        }
        n := nvslots[p];
        var clash := Shadows(c);
        if clash {
          RejectedFields(tree, rank, c);
          return Refused;
        }
      } else {
        RootIsRising(prog, c);
        TreeAt(prog, c);
      }
      LayoutIsNumber(tree, rank, c);
      var ok, mine;
      ok, mine, n := NumberMethods(c, n);
      if !ok { return Refused; }
      checked, slots, nvslots := checked[c := true], slots[c := mine], nvslots[c := n];
      return Fine;
    }

    /** All classes in the order they are declared, up to the first diagnostic. */
    method LayoutAll() returns (v: Verdict)
      requires Valid() && PassEnds(prog, 0)
      modifies this
      ensures Comes(prog, 0, v)
      ensures v.Fine? ==> Valid() && forall c :: 0 <= c < |prog| ==> checked[c]
    {
      hide LayoutOf, Rooted, VerdictOn, Rising, Tree, Stuck, PassEnds, Comes;
      var c := 0;
      while c < |prog|
        invariant c <= |prog| && Valid() && PassEnds(prog, c)
        invariant forall d :: 0 <= d < c ==> checked[d]
        invariant forall v :: Comes(prog, 0, v) == Comes(prog, c, v)
      {
        PassStuck(prog, c);
        v := LayoutClass(c);
        if !v.Fine? {
          StepBad(prog, c, v);
          return;
        }
        forall w { StepFine(prog, c, w); }
        c := c + 1;
      }
      PassDone(prog, Fine);
      return Fine;
    }

    method Shadows(c: nat) returns (clash: bool)
      requires Knows() && c < |prog| && Rising(prog, c) && prog[c].parent >= 0
      ensures clash == exists f :: f in tree[c].fields && HasField(tree, rank, tree[c].parent, f)
    {
      hide Rising, Tree, HasField;
      TreeAt(prog, c);
      var i := 0;
      while i < |prog[c].fields|
        invariant i <= |prog[c].fields| && forall j :: 0 <= j < i ==>
            !HasField(tree, rank, prog[c].parent, prog[c].fields[j])
      {
        var hit := FindField(prog[c].parent, prog[c].fields[i]);
        if hit { return true; }
        i := i + 1;
      }
      return false;
    }

    /** One method's checks. */
    method Check(c: nat, i: nat, inh: Found) returns (ok: bool)
      requires Knows() && c < |prog| && Rising(prog, c) && i < |prog[c].methods| && prog[c] == tree[c]
      requires inh.At? ==> inh.cls < |prog| && inh.idx < |prog[inh.cls].methods| && prog[inh.cls] == tree[inh.cls]
      ensures ok == Accepts(tree, rank, c, i, inh)
    {
      hide Rising, Tree, HasField;
      var m := prog[c].methods[i];
      if m.isOverride {
        if inh == Missing { return false; }
        var b := prog[inh.cls].methods[inh.idx];
        if !(b.isVirtual || b.isOverride) || m.sig != b.sig { return false; }
      } else if inh != Missing {
        return false;
      }
      if (m.isVirtual || m.isOverride) && m.hasDefaults { return false; }
      var j := 0;
      while j < i
        invariant j <= i && forall k :: 0 <= k < j ==> prog[c].methods[k].name != m.name
      {
        if prog[c].methods[j].name == m.name { return false; }
        j := j + 1;
      }
      var clash := FindField(c, m.name);
      return !clash;
    }

    method NumberMethods(c: nat, base: nat) returns (ok: bool, mine: seq<int>, n: nat)
      requires Valid() && c < |prog| && Rising(prog, c) && base == SlotsIn(tree, rank, tree[c].parent)
      requires prog[c].parent >= 0 ==> checked[prog[c].parent]
      ensures ok <==> Number(tree, rank, c, |tree[c].methods|, base).Laid?
      ensures ok ==> Number(tree, rank, c, |tree[c].methods|, base) == Laid(mine, n)
    {
      hide HasField, Accepts, Find, LayoutOf, Rising, Tree;
      TreeAt(prog, c);
      mine, n := [], base;
      var i := 0;
      while i < |prog[c].methods|
        invariant i <= |prog[c].methods| && Number(tree, rank, c, i, base) == Laid(mine, n)
      {
        var m := prog[c].methods[i];
        var inh := FindMethod(prog[c].parent, m.name);
        FoundRising(prog, tree, rank, checked, prog[c].parent, m.name);
        ok := Check(c, i, inh);
        if !ok {
          StaysRejected(tree, rank, c, i + 1, base);
          return;
        }
        if m.isOverride {
          OverrideFound(tree, rank, c, i, prog[c].parent);
          FoundAbove(tree, rank, prog[c].parent, m.name);
          var slot := ReadSlot(c, inh);
          mine := mine + [slot];
        } else if m.isVirtual {
          mine, n := mine + [n], n + 1;
        } else {
          mine := mine + [-1];
        }
        i := i + 1;
      }
      ok := true;
    }

    /** An inherited method's slot, as its class's layout left it. */
    method ReadSlot(c: nat, f: Found) returns (slot: int)
      requires Valid() && c < |prog| && prog[c] == tree[c] && prog[c].parent >= 0 && checked[prog[c].parent]
      requires f.At? && f.cls < |prog| && f.idx < |tree[f.cls].methods| && rank[f.cls] <= rank[prog[c].parent]
      requires checked[f.cls]
      ensures slot == SlotAt(tree, rank, c, f)
    {
      slot := slots[f.cls][f.idx];
    }
  }

  lemma {:induction false} CyclicReaches(prog: seq<ClassDecl>, c: nat)
    requires Declared(prog) && c < |prog|
    ensures Cyclic(ParentsOf(prog), c) <==> Reaches(ParentsOf(prog), prog[c].parent, c)
  {
  }

  lemma {:induction false} RootIsRising(prog: seq<ClassDecl>, c: nat)
    requires Declared(prog) && c < |prog| && prog[c].parent < 0
    ensures Rising(prog, c) && Rising(prog, -1)
  {
    assert Up(ParentsOf(prog), c, 1) < 0 && Up(ParentsOf(prog), -1, 0) < 0;
  }

  /** The next class to lay out is not stuck. */
  lemma {:induction false} PassStuck(prog: seq<ClassDecl>, c: nat)
    requires Declared(prog) && c < |prog| && PassEnds(prog, c)
    ensures !Stuck(ParentsOf(prog), c) && (VerdictOn(prog, c).Fine? ==> PassEnds(prog, c + 1))
  {
    hide Stuck, VerdictOn;
  }

  /** Whatever lookup finds from a laid out class is in a laid out class. */
  lemma {:induction false} FoundRising(prog: seq<ClassDecl>, tree: seq<ClassDecl>, rank: seq<nat>, checked: seq<bool>,
                                       c: int, name: Name)
    requires Declared(prog) && tree == Tree(prog) && Acyclic(tree, rank) && -1 <= c < |prog| && Rising(prog, c)
    requires |checked| == |prog| && (c >= 0 ==> checked[c])
    requires forall d :: 0 <= d < |prog| && checked[d] && prog[d].parent >= 0 ==> checked[prog[d].parent]
    ensures var f := Find(tree, rank, c, name); f.At? ==> checked[f.cls] && prog[f.cls] == tree[f.cls]
    decreases if c < 0 then 0 else rank[c] + 1
  {
    hide Rising, Tree;
    if c >= 0 {
      TreeAt(prog, c);
      FoundRising(prog, tree, rank, checked, prog[c].parent, name);
    }
  }

  lemma {:induction false} RejectedParent(prog: seq<ClassDecl>, rank: seq<nat>, c: nat)
    requires Acyclic(prog, rank) && c < |prog| && prog[c].parent >= 0 && LayoutOf(prog, rank, prog[c].parent).Rejected?
    ensures LayoutOf(prog, rank, c).Rejected?
  {
  }

  lemma {:induction false} RejectedFields(prog: seq<ClassDecl>, rank: seq<nat>, c: nat)
    requires Acyclic(prog, rank) && c < |prog| && prog[c].parent >= 0
    requires exists f :: f in prog[c].fields && HasField(prog, rank, prog[c].parent, f)
    ensures LayoutOf(prog, rank, c).Rejected?
  {
  }

  lemma {:induction false} LayoutIsNumber(prog: seq<ClassDecl>, rank: seq<nat>, c: nat)
    requires Acyclic(prog, rank) && c < |prog| && Accepted(prog, rank, prog[c].parent)
    requires prog[c].parent >= 0 ==> !exists f :: f in prog[c].fields && HasField(prog, rank, prog[c].parent, f)
    ensures LayoutOf(prog, rank, c) == Number(prog, rank, c, |prog[c].methods|, SlotsIn(prog, rank, prog[c].parent))
  {
  }

  lemma {:induction false} StaysRejected(prog: seq<ClassDecl>, rank: seq<nat>, c: nat, i: nat, base: nat)
    requires Acyclic(prog, rank) && c < |prog| && i <= |prog[c].methods| && Number(prog, rank, c, i, base).Rejected?
    ensures Number(prog, rank, c, |prog[c].methods|, base).Rejected?
    decreases |prog[c].methods| - i
  {
    if i < |prog[c].methods| { StaysRejected(prog, rank, c, i + 1, base); }
  }
}
