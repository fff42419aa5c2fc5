/** The reference-counted heap: release with its cascade of deinits, and weak fields that become
    null when their target goes.  A deinit releases or drops the fields in order; `drop` records
    how far it has come.  Counts are negative for immortal objects. */
module RefHeap {
  import opened Basics
  import opened WeakTable

  datatype Field = Strong(to: Ref) | Weak(to: Ref)

  datatype Obj = Obj(rc: int, fields: seq<Field>, drop: nat)

  type Objs = map<Ref, Obj>

  // ---------------------------------------------------------------- the invariant

  predicate Holds(objs: Objs, p: Ref, i: nat, f: Field) {
    p in objs && objs[p].drop <= i < |objs[p].fields| && objs[p].fields[i] == f
  }

  /** The fields that own a reference to `o`. */
  function Owners(objs: Objs, o: Ref): set<Slot> {
    set p, i | p in objs && 0 <= i < |objs[p].fields| && Holds(objs, p, i, Strong(o)) :: Slot(p, i)
  }

  predicate Alive(objs: Objs, o: Ref) { o in objs && objs[o].rc != 0 }

  /** Counts are the owning references: fields not yet dropped, and the program's own (`roots`). */
  ghost predicate Counted(objs: Objs, roots: multiset<Ref>) {
    && 0 !in objs
    && (forall o :: o in roots ==> o in objs)
    && (forall p, i, o: Ref :: Holds(objs, p, i, Strong(o)) && o != 0 ==> o in objs)
    && (forall o :: o in objs && objs[o].rc >= 0 ==> objs[o].rc == |Owners(objs, o)| + roots[o])
    && (forall o :: o in objs ==> objs[o].drop <= |objs[o].fields| && (objs[o].rc != 0 ==> objs[o].drop == 0))
  }

  /** A weak field is registered once, under its target, if it has one; nothing else is. */
  ghost predicate Registered(objs: Objs, table: seq<seq<Entry>>) {
    && TableOk(table)
    && (forall q: Ref, s :: s in SlotsOf(table, q) <==> q != 0 && Holds(objs, s.obj, s.fld, Weak(q)))
    && (forall q: Ref :: Distinct(SlotsOf(table, q)))
  }

  ghost predicate Inv(objs: Objs, table: seq<seq<Entry>>, weakLive: int, roots: multiset<Ref>) {
    && Counted(objs, roots)
    && Registered(objs, table)
    && weakLive == Total(table)
    && (forall p, i, q: Ref :: Holds(objs, p, i, Weak(q)) && q != 0 ==> Alive(objs, q))
  }

  /** What an operation leaves of the other objects: strong fields as they were, a weak field
      null exactly when its target went, deinits at work where they were. */
  ghost predicate Survive(a: Objs, b: Objs) {
    && b.Keys <= a.Keys
    && (forall p :: p in a && a[p].rc <= 0 ==> p in b)
    && (forall p :: p in b ==>
         && |b[p].fields| == |a[p].fields| && b[p].drop == a[p].drop
         && (a[p].rc <= 0 || b[p].rc <= 0 ==> b[p].rc == a[p].rc))
    && (forall p, i :: p in b && a[p].drop <= i < |b[p].fields| ==>
         b[p].fields[i] == Left(a[p].fields[i], b))
  }

  /** A field after the operation that left `objs`. */
  function Left(f: Field, objs: Objs): Field {
    if f.Weak? && f.to != 0 && !Alive(objs, f.to) then Weak(0) else f
  }

  lemma {:induction false} SurviveTrans(a: Objs, b: Objs, c: Objs)
    requires Survive(a, b) && Survive(b, c)
    ensures Survive(a, c)
  {
    forall p, i | p in c && a[p].drop <= i < |c[p].fields| ensures c[p].fields[i] == Left(a[p].fields[i], c) {
      assert b[p].fields[i] == Left(a[p].fields[i], b);
    }
  }

  function Minus(objs: Objs, p: Ref): Objs {
    map x | x in objs && x != p :: objs[x]
  }

  /** The same seen past an object that is being torn down. */
  lemma {:induction false} SurviveMinus(a: Objs, b: Objs, p: Ref)
    requires Survive(a, b) && p in a && a[p].rc == 0
    ensures Survive(Minus(a, p), Minus(b, p))
  {
    var a1, b1 := Minus(a, p), Minus(b, p);
    forall x, i | x in b1 && a1[x].drop <= i < |b1[x].fields| ensures b1[x].fields[i] == Left(a1[x].fields[i], b1) {
      assert b[x].fields[i] == Left(a[x].fields[i], b);
    }
  }

  function Positive(objs: Objs): set<Ref> {
    set o | o in objs && objs[o].rc > 0
  }

  lemma {:induction false} SurvivePositive(a: Objs, b: Objs)
    requires Survive(a, b)
    ensures Positive(b) <= Positive(a) && |Positive(b)| <= |Positive(a)|
  {
    Smaller(Positive(b), Positive(a));
  }

  lemma {:induction false} Smaller(x: set<Ref>, y: set<Ref>)
    requires x <= y
    ensures |x| <= |y| && (x < y ==> |x| < |y|)
  {
    assert y == x + (y - x);
    if x < y {
      var e :| e in y && e !in x;
      assert |y - x| > 0;
    }
  }

  // ---------------------------------------------------------------- single steps keep it

  /** Same fields held by the same objects. */
  ghost predicate SameHolds(a: Objs, b: Objs) {
    forall p, i, f :: Holds(a, p, i, f) == Holds(b, p, i, f)
  }

  /** Same strong fields. */
  ghost predicate SameStrong(a: Objs, b: Objs) {
    forall p, i, o: Ref :: Holds(a, p, i, Strong(o)) == Holds(b, p, i, Strong(o))
  }

  lemma {:induction false} OwnersIn(objs: Objs, o: Ref)
    ensures forall p, i :: Slot(p, i) in Owners(objs, o) <==> Holds(objs, p, i, Strong(o))
  {
  }

  lemma {:induction false} OwnersSame(a: Objs, b: Objs, o: Ref)
    requires SameStrong(a, b)
    ensures Owners(a, o) == Owners(b, o)
  {
    OwnersIn(a, o);
    OwnersIn(b, o);
    forall s ensures s in Owners(a, o) <==> s in Owners(b, o) {
      assert s == Slot(s.obj, s.fld);
    }
  }

  /** One strong field added or given up changes one count by one. */
  lemma {:induction false} OwnersMinus(a: Objs, b: Objs, p: Ref, i: nat, q: Ref, o: Ref)
    requires Holds(a, p, i, Strong(q)) && o != 0
    requires forall x, j, t: Ref :: t != 0 ==>
        (Holds(b, x, j, Strong(t)) <==> Holds(a, x, j, Strong(t)) && !(x == p && j == i))
    ensures |Owners(b, o)| == |Owners(a, o)| - if o == q then 1 else 0
  {
    OwnersIn(a, o);
    OwnersIn(b, o);
    var gone := if o == q then {Slot(p, i)} else {};
    forall s ensures s in Owners(b, o) <==> s in Owners(a, o) - gone {
      assert s == Slot(s.obj, s.fld);
    }
    assert Owners(b, o) == Owners(a, o) - gone;
  }

  /** Counts moving with the roots, strong fields staying. */
  lemma {:induction false} CountedStep(a: Objs, b: Objs, roots: multiset<Ref>, roots1: multiset<Ref>)
    requires Counted(a, roots) && SameStrong(a, b) && a.Keys == b.Keys
    requires forall o :: o in roots1 ==> o in a
    requires forall o :: o in a ==> |b[o].fields| == |a[o].fields| && b[o].drop == a[o].drop
    requires forall o :: o in a && b[o].rc != 0 ==> a[o].rc != 0
    requires forall o :: o in a && b[o].rc >= 0 ==> a[o].rc >= 0 && b[o].rc + roots[o] == a[o].rc + roots1[o]
    ensures Counted(b, roots1)
  {
    forall o | o in b && b[o].rc >= 0 ensures b[o].rc == |Owners(b, o)| + roots1[o] { OwnersSame(a, b, o); }
    forall p, i, o: Ref | Holds(b, p, i, Strong(o)) && o != 0 ensures o in b { assert Holds(a, p, i, Strong(o)); }
  }

  lemma {:induction false} RegisteredStep(a: Objs, b: Objs, table: seq<seq<Entry>>)
    requires Registered(a, table) && forall p, i, q: Ref :: q != 0 ==>
        Holds(a, p, i, Weak(q)) == Holds(b, p, i, Weak(q))
    ensures Registered(b, table)
  {
  }

  /** With every weak target alive, nothing is left behind null. */
  lemma {:induction false} SurviveSame(a: Objs, b: Objs)
    requires a.Keys == b.Keys && SameHolds(a, b)
    requires forall p :: p in a ==> |b[p].fields| == |a[p].fields| && b[p].drop == a[p].drop
    requires forall p :: p in a && (a[p].rc <= 0 || b[p].rc <= 0) ==> b[p].rc == a[p].rc
    requires forall p, i, q: Ref :: Holds(a, p, i, Weak(q)) && q != 0 ==> Alive(a, q)
    ensures Survive(a, b)
  {
    forall p, i | p in b && a[p].drop <= i < |b[p].fields| ensures b[p].fields[i] == Left(a[p].fields[i], b) {
      var f := a[p].fields[i];
      assert Holds(a, p, i, f) && Holds(b, p, i, f);
    }
  }

  /** A count going up, or down but not to zero. */
  lemma {:induction false} Recount(a: Objs, table: seq<seq<Entry>>, weakLive: int, roots: multiset<Ref>, o: Ref,
          up: bool)
    requires Inv(a, table, weakLive, roots) && o in a && a[o].rc > 0
    requires up || (a[o].rc > 1 && o in roots)
    ensures var b := a[o := a[o].(rc := a[o].rc + if up then 1 else -1)];
      && Inv(b, table, weakLive, if up then roots + multiset{o} else roots - multiset{o})
      && Survive(a, b)
  {
    hide Registered;
    var b := a[o := a[o].(rc := a[o].rc + if up then 1 else -1)];
    assert SameHolds(a, b);
    CountedStep(a, b, roots, if up then roots + multiset{o} else roots - multiset{o});
    RegisteredStep(a, b, table);
    SurviveSame(a, b);
  }

  /** Every slot of `slots` nulled, nothing else changed. */
  ghost predicate NulledBy(a: Objs, b: Objs, slots: seq<Slot>) {
    && a.Keys == b.Keys
    && (forall p :: p in a ==> b[p].rc == a[p].rc && b[p].drop == a[p].drop && |b[p].fields| == |a[p].fields|)
    && (forall p, i :: p in a && 0 <= i < |a[p].fields| ==>
          b[p].fields[i] == if Slot(p, i) in slots then Weak(0) else a[p].fields[i])
  }

  /** What nulling the weak fields that point at `o` does to the fields. */
  lemma {:induction false} NulledHolds(a: Objs, b: Objs, slots: seq<Slot>, o: Ref)
    requires NulledBy(a, b, slots) && o != 0
    requires forall p, i :: Slot(p, i) in slots <==> Holds(a, p, i, Weak(o))
    ensures SameStrong(a, b)
    ensures forall p, i, q: Ref :: Holds(b, p, i, Weak(q)) && q != 0 <==> Holds(a, p, i, Weak(q)) && q != 0 && q != o
  {
    forall p, i, q: Ref ensures Holds(b, p, i, Weak(q)) && q != 0 <==> Holds(a, p, i, Weak(q)) && q != 0 && q != o {
      assert Slot(p, i) in slots <==> Holds(a, p, i, Weak(o));
    }
    forall p, i, t: Ref ensures Holds(a, p, i, Strong(t)) == Holds(b, p, i, Strong(t)) {
      assert Slot(p, i) in slots <==> Holds(a, p, i, Weak(o));
    }
  }

  lemma {:induction false} DieSurvive(a: Objs, b: Objs, slots: seq<Slot>, o: Ref)
    requires NulledBy(a, b, slots) && o in a && o != 0 && a[o].rc == 0
    requires forall p, i :: Slot(p, i) in slots <==> Holds(a, p, i, Weak(o))
    requires forall p, i, q: Ref :: Holds(a, p, i, Weak(q)) && q != 0 ==> q == o || Alive(a, q)
    ensures Survive(Minus(a, o), Minus(b, o))
  {
    forall p, i | p in Minus(b, o) && a[p].drop <= i < |b[p].fields|
      ensures b[p].fields[i] == Left(a[p].fields[i], Minus(b, o))
    {
      var f := a[p].fields[i];
      assert Slot(p, i) in slots <==> Holds(a, p, i, Weak(o));
      assert Holds(a, p, i, f);
    }
  }

  /** The last reference given up: the object dies, and what pointed weakly at it is null. */
  lemma {:induction false} Die(a: Objs, b: Objs, table: seq<seq<Entry>>, table1: seq<seq<Entry>>, weakLive: int,
          roots: multiset<Ref>, o: Ref)
    requires Inv(a, table, weakLive, roots) && o in roots && a[o].rc == 1
    requires NulledBy(a[o := a[o].(rc := 0)], b, SlotsOf(table, o)) && Relisted(table, table1, o, [])
    ensures Inv(b, table1, weakLive - |SlotsOf(table, o)|, roots - multiset{o})
    ensures Survive(Minus(a, o), Minus(b, o)) && b[o].drop == 0
  {
    hide ChainOk, Total, WeakHash, Listed, Survive, Owners, Distinct;
    var slots := SlotsOf(table, o);
    var a0 := a[o := a[o].(rc := 0)];
    forall p, i ensures Slot(p, i) in slots <==> Holds(a0, p, i, Weak(o)) {
      assert Slot(p, i) in slots <==> Holds(a, Slot(p, i).obj, Slot(p, i).fld, Weak(o));
    }
    assert SameHolds(a, a0);
    NulledHolds(a0, b, slots, o);
    DieSurvive(a0, b, slots, o);
    assert Minus(a0, o) == Minus(a, o);
    CountedStep(a, b, roots, roots - multiset{o});
    RegisteredWithout(a, b, table, table1, o);
    forall p, i, q: Ref | Holds(b, p, i, Weak(q)) && q != 0 ensures Alive(b, q) { assert Holds(a, p, i, Weak(q)); }
  }

  lemma {:induction false} RegisteredWithout(a: Objs, b: Objs, table: seq<seq<Entry>>, table1: seq<seq<Entry>>, o: Ref)
    requires Registered(a, table) && o != 0 && Relisted(table, table1, o, [])
    requires forall p, i, q: Ref :: Holds(b, p, i, Weak(q)) && q != 0 <==> Holds(a, p, i, Weak(q)) && q != 0 && q != o
    ensures Registered(b, table1)
  {
    hide ChainOk, Total, WeakHash, Listed;
    forall q: Ref, s ensures s in SlotsOf(table1, q) <==> q != 0 && Holds(b, s.obj, s.fld, Weak(q)) {
      assert s in SlotsOf(table, q) <==> q != 0 && Holds(a, s.obj, s.fld, Weak(q));
    }
  }

  /** A strong field stops owning: its reference becomes the program's own. */
  lemma {:induction false} OwnLess(a: Objs, b: Objs, roots: multiset<Ref>, p: Ref, i: nat, q: Ref)
    requires Counted(a, roots) && Holds(a, p, i, Strong(q)) && a.Keys == b.Keys && q != 0
    requires forall o :: o in a ==>
        b[o].rc == a[o].rc && b[o].drop <= |b[o].fields| && (b[o].rc != 0 ==> b[o].drop == 0)
    requires forall x, j, t: Ref :: t != 0 ==>
        (Holds(b, x, j, Strong(t)) <==> Holds(a, x, j, Strong(t)) && !(x == p && j == i))
    ensures Counted(b, roots + multiset{q})
  {
    forall o | o in b && b[o].rc >= 0 ensures b[o].rc == |Owners(b, o)| + (roots + multiset{q})[o] {
      OwnersMinus(a, b, p, i, q, o);
    }
    forall x, j, t: Ref | Holds(b, x, j, Strong(t)) && t != 0 ensures t in b { assert Holds(a, x, j, Strong(t)); }
  }

  /** The other way round: a reference of the program's is put into a field. */
  lemma {:induction false} OwnMore(a: Objs, b: Objs, roots: multiset<Ref>, p: Ref, i: nat, q: Ref)
    requires Counted(a, roots) && Holds(b, p, i, Strong(q)) && a.Keys == b.Keys && q in roots
    requires forall o :: o in a ==>
        b[o].rc == a[o].rc && b[o].drop <= |b[o].fields| && (b[o].rc != 0 ==> b[o].drop == 0)
    requires forall x, j, t: Ref :: t != 0 ==>
        (Holds(a, x, j, Strong(t)) <==> Holds(b, x, j, Strong(t)) && !(x == p && j == i))
    ensures Counted(b, roots - multiset{q})
  {
    forall o | o in b && b[o].rc >= 0 ensures b[o].rc == |Owners(b, o)| + (roots - multiset{q})[o] {
      OwnersMinus(b, a, p, i, q, o);
    }
    forall x, j, t: Ref | Holds(b, x, j, Strong(t)) && t != 0 ensures t in b {
      assert (x == p && j == i) || Holds(a, x, j, Strong(t));
    }
  }

  function SetField(objs: Objs, p: Ref, i: nat, f: Field): Objs
    requires p in objs && i < |objs[p].fields|
  {
    objs[p := objs[p].(fields := objs[p].fields[i := f])]
  }

  function Advance(objs: Objs, p: Ref): Objs
    requires p in objs
  {
    objs[p := objs[p].(drop := objs[p].drop + 1)]
  }

  /** Deinit passes a strong field: the field's reference is about to be released. */
  lemma {:induction false} PassStrong(a: Objs, table: seq<seq<Entry>>, weakLive: int, roots: multiset<Ref>, p: Ref,
          q: Ref)
    requires Inv(a, table, weakLive, roots) && p in a && a[p].rc == 0 && Holds(a, p, a[p].drop, Strong(q))
    ensures Inv(Advance(a, p), table, weakLive, if q == 0 then roots else roots + multiset{q})
    ensures q != 0 ==> q in a
  {
    hide Registered, Total;
    var b := Advance(a, p);
    forall x, j, f ensures Holds(b, x, j, f) <==> Holds(a, x, j, f) && !(x == p && j == a[p].drop) {
    }
    RegisteredStep(a, b, table);
    if q == 0 {
      CountedPass(a, b, roots);
    } else {
      OwnLess(a, b, roots, p, a[p].drop, q);
    }
  }

  /** Steps that change no strong field but null ones. */
  lemma {:induction false} CountedPass(a: Objs, b: Objs, roots: multiset<Ref>)
    requires Counted(a, roots) && a.Keys == b.Keys
    requires forall o :: o in a ==>
        b[o].rc == a[o].rc && b[o].drop <= |b[o].fields| && (b[o].rc != 0 ==> b[o].drop == 0)
    requires forall p, i, o: Ref :: o != 0 ==> Holds(a, p, i, Strong(o)) == Holds(b, p, i, Strong(o))
    ensures Counted(b, roots)
  {
    forall o | o in b && b[o].rc >= 0 ensures b[o].rc == |Owners(b, o)| + roots[o] {
      OwnersIn(a, o);
      OwnersIn(b, o);
      forall s ensures s in Owners(a, o) <==> s in Owners(b, o) { assert s == Slot(s.obj, s.fld); }
      assert Owners(a, o) == Owners(b, o);
    }
  }

  lemma {:induction false} WithoutDistinct<T>(s: seq<T>, x: T)
    requires Distinct(s)
    ensures Distinct(Without(s, x)) && forall y :: y in Without(s, x) <==> y in s && y != x
  {
    if s != [] {
      var t := s[1..];
      assert Distinct(t) && s[0] !in t by {
        assert forall i :: 0 <= i < |t| ==> t[i] == s[i + 1];
      }
      WithoutDistinct(t, x);
      assert s == [s[0]] + t;
      if s[0] != x { DistinctCons(s[0], Without(t, x)); }
    }
  }

  /** A slot taken out of the registry. */
  lemma {:induction false} RegisteredLess(a: Objs, b: Objs, table: seq<seq<Entry>>, table1: seq<seq<Entry>>, s: Slot,
          from: Ref)
    requires Registered(a, table) && from != 0 && Holds(a, s.obj, s.fld, Weak(from))
    requires Relisted(table, table1, from, Without(SlotsOf(table, from), s))
    requires forall x: Slot, q: Ref :: q != 0 ==>
        (Holds(b, x.obj, x.fld, Weak(q)) <==> x != s && Holds(a, x.obj, x.fld, Weak(q)))
    ensures Registered(b, table1) && s in SlotsOf(table, from)
  {
    hide ChainOk, Total, WeakHash, Listed;
    WithoutDistinct(SlotsOf(table, from), s);
    forall q: Ref, x ensures x in SlotsOf(table1, q) <==> q != 0 && Holds(b, x.obj, x.fld, Weak(q)) {
      assert x in SlotsOf(table, q) <==> q != 0 && Holds(a, x.obj, x.fld, Weak(q));
    }
  }

  /** A slot put into the registry. */
  lemma {:induction false} RegisteredMore(a: Objs, b: Objs, table: seq<seq<Entry>>, table1: seq<seq<Entry>>, s: Slot,
          to: Ref)
    requires Registered(a, table) && to != 0 && Holds(b, s.obj, s.fld, Weak(to))
    requires Relisted(table, table1, to, [s] + SlotsOf(table, to))
    requires forall x: Slot, q: Ref :: q != 0 ==>
        (Holds(a, x.obj, x.fld, Weak(q)) <==> x != s && Holds(b, x.obj, x.fld, Weak(q)))
    ensures Registered(b, table1)
  {
    hide ChainOk, Total, WeakHash, Listed;
    forall q: Ref, x ensures x in SlotsOf(table1, q) <==> q != 0 && Holds(b, x.obj, x.fld, Weak(q)) {
      assert x in SlotsOf(table, q) <==> q != 0 && Holds(a, x.obj, x.fld, Weak(q));
    }
    assert s in SlotsOf(table, to) <==> Holds(a, s.obj, s.fld, Weak(to));
    DistinctCons(s, SlotsOf(table, to));
  }

  /** Deinit passes a weak field: unregistered and nulled. */
  lemma {:induction false} PassWeak(a: Objs, table: seq<seq<Entry>>, table1: seq<seq<Entry>>, weakLive: int,
          roots: multiset<Ref>, p: Ref, q: Ref)
    requires Inv(a, table, weakLive, roots) && p in a && a[p].rc == 0 && Holds(a, p, a[p].drop, Weak(q))
    requires if q == 0 then table1 == table
        else Relisted(table, table1, q, Without(SlotsOf(table, q), Slot(p, a[p].drop)))
    ensures Inv(Advance(SetField(a, p, a[p].drop, Weak(0)), p), table1, if q == 0 then weakLive else weakLive - 1,
        roots)
    ensures q != 0 ==> Slot(p, a[p].drop) in SlotsOf(table, q)
  {
    hide Total, ChainOk, WeakHash, Listed, Registered;
    var s := Slot(p, a[p].drop);
    var b := Advance(SetField(a, p, a[p].drop, Weak(0)), p);
    forall x, j, f ensures Holds(b, x, j, f) <==> Holds(a, x, j, f) && Slot(x, j) != s {
    }
    CountedPass(a, b, roots);
    if q == 0 { RegisteredStep(a, b, table); } else { RegisteredLess(a, b, table, table1, s, q); }
  }

  /** A torn-down object can go: nothing refers to it and nothing of it is registered. */
  lemma {:induction false} Remove(a: Objs, table: seq<seq<Entry>>, weakLive: int, roots: multiset<Ref>, p: Ref)
    requires Inv(a, table, weakLive, roots) && p in a && a[p].rc == 0 && a[p].drop == |a[p].fields|
    ensures Inv(Minus(a, p), table, weakLive, roots)
  {
    hide Registered, Total;
    var b := Minus(a, p);
    forall x, j, f ensures Holds(b, x, j, f) <==> Holds(a, x, j, f) {
    }
    RegisteredStep(a, b, table);
    OwnersIn(a, p);
    assert |Owners(a, p)| == 0 && roots[p] == 0;
    assert forall x, j :: Slot(x, j) !in Owners(a, p);
    forall x, j ensures !Holds(a, x, j, Strong(p)) { assert Slot(x, j) !in Owners(a, p); }
    forall o | o in b && b[o].rc >= 0 ensures b[o].rc == |Owners(b, o)| + roots[o] { OwnersSame(a, b, o); }
    forall x, j, t: Ref | Holds(b, x, j, Strong(t)) && t != 0 ensures t in b { assert Holds(a, x, j, Strong(t)); }
    forall x, j, q: Ref | Holds(b, x, j, Weak(q)) && q != 0 ensures Alive(b, q) { assert Holds(a, x, j, Weak(q)); }
  }

  /** A new object: count one, every field null. */
  lemma {:induction false} Arrive(a: Objs, table: seq<seq<Entry>>, weakLive: int, roots: multiset<Ref>, p: Ref,
          fields: seq<Field>)
    requires Inv(a, table, weakLive, roots) && p != 0 && p !in a
    requires forall i :: 0 <= i < |fields| ==> fields[i].to == 0
    ensures Inv(a[p := Obj(1, fields, 0)], table, weakLive, roots + multiset{p})
    ensures Survive(a, Minus(a[p := Obj(1, fields, 0)], p))
  {
    hide Registered, Total;
    var b := a[p := Obj(1, fields, 0)];
    forall x, j, f: Field ensures f.to != 0 ==> Holds(b, x, j, f) == Holds(a, x, j, f) {
    }
    RegisteredStep(a, b, table);
    OwnersIn(b, p);
    forall s ensures s !in Owners(b, p) {
      assert s == Slot(s.obj, s.fld);
      assert Holds(b, s.obj, s.fld, Strong(p)) == Holds(a, s.obj, s.fld, Strong(p));
    }
    assert Owners(b, p) == {} && roots[p] == 0;
    forall o | o in a && a[o].rc >= 0 ensures a[o].rc == |Owners(b, o)| + roots[o] {
      OwnersIn(a, o);
      OwnersIn(b, o);
      forall s ensures s in Owners(a, o) <==> s in Owners(b, o) {
        assert s == Slot(s.obj, s.fld);
        assert Holds(b, s.obj, s.fld, Strong(o)) == Holds(a, s.obj, s.fld, Strong(o));
      }
      assert Owners(a, o) == Owners(b, o);
    }
    forall x, j, t: Ref | Holds(b, x, j, Strong(t)) && t != 0
        ensures t in b { assert Holds(b, x, j, Strong(t)) == Holds(a, x, j, Strong(t)); }
    forall x, j, q: Ref | Holds(b, x, j, Weak(q)) && q != 0
        ensures Alive(b, q) { assert Holds(b, x, j, Weak(q)) == Holds(a, x, j, Weak(q)); }
    assert Minus(b, p) == a;
    SurviveSame(a, a);
  }

  /** A field's reference taken out of it. */
  lemma {:induction false} TakeField(a: Objs, table: seq<seq<Entry>>, weakLive: int, roots: multiset<Ref>, p: Ref,
          i: nat, q: Ref)
    requires Inv(a, table, weakLive, roots) && Holds(a, p, i, Strong(q))
    ensures Inv(SetField(a, p, i, Strong(0)), table, weakLive, if q == 0 then roots else roots + multiset{q})
  {
    hide Registered, Total;
    var b := SetField(a, p, i, Strong(0));
    forall x, j, f: Field ensures f.to != 0 ==> (Holds(b, x, j, f) <==> Holds(a, x, j, f) && !(x == p && j == i)) {
    }
    RegisteredStep(a, b, table);
    if q == 0 { CountedPass(a, b, roots); } else { OwnLess(a, b, roots, p, i, q); }
    forall x, j, t: Ref | Holds(b, x, j, Weak(t)) && t != 0 ensures Alive(b, t) { assert Holds(a, x, j, Weak(t)); }
  }

  /** A reference of the program's put into a null field. */
  lemma {:induction false} FillField(a: Objs, table: seq<seq<Entry>>, weakLive: int, roots: multiset<Ref>, p: Ref,
          i: nat, q: Ref)
    requires Inv(a, table, weakLive, roots) && Holds(a, p, i, Strong(0)) && (q == 0 || q in roots)
    ensures Inv(SetField(a, p, i, Strong(q)), table, weakLive, if q == 0 then roots else roots - multiset{q})
  {
    hide Registered, Total;
    var b := SetField(a, p, i, Strong(q));
    forall x, j, f: Field ensures f.to != 0 ==> (Holds(a, x, j, f) <==> Holds(b, x, j, f) && !(x == p && j == i)) {
    }
    forall x, j, t: Ref ensures t != 0 ==> Holds(a, x, j, Weak(t)) == Holds(b, x, j, Weak(t)) {
    }
    RegisteredStep(a, b, table);
    if q == 0 { CountedPass(a, b, roots); } else { OwnMore(a, b, roots, p, i, q); }
    forall x, j, t: Ref | Holds(b, x, j, Weak(t)) && t != 0 ensures Alive(b, t) { assert Holds(a, x, j, Weak(t)); }
  }

  /** A weak field unregistered and nulled. */
  lemma {:induction false} ClearWeak(a: Objs, table: seq<seq<Entry>>, table1: seq<seq<Entry>>, weakLive: int,
          roots: multiset<Ref>, p: Ref, i: nat, q: Ref)
    requires Inv(a, table, weakLive, roots) && Holds(a, p, i, Weak(q)) && q != 0
    requires Relisted(table, table1, q, Without(SlotsOf(table, q), Slot(p, i)))
    ensures Inv(SetField(a, p, i, Weak(0)), table1, weakLive - 1, roots) && Slot(p, i) in SlotsOf(table, q)
  {
    hide Total, ChainOk, WeakHash, Listed, Registered;
    var s := Slot(p, i);
    var b := SetField(a, p, i, Weak(0));
    forall x, j, f: Field ensures f.to != 0 ==> (Holds(b, x, j, f) <==> Holds(a, x, j, f) && Slot(x, j) != s) {
    }
    forall x, j, f: Field ensures f.Strong? ==> Holds(b, x, j, f) == Holds(a, x, j, f) {
    }
    CountedPass(a, b, roots);
    RegisteredLess(a, b, table, table1, s, q);
    forall x, j, t: Ref | Holds(b, x, j, Weak(t)) && t != 0 ensures Alive(b, t) { assert Holds(a, x, j, Weak(t)); }
  }

  /** A null weak field pointed at a living object and registered. */
  lemma {:induction false} PointWeak(a: Objs, table: seq<seq<Entry>>, table1: seq<seq<Entry>>, weakLive: int,
          roots: multiset<Ref>, p: Ref, i: nat, q: Ref)
    requires Inv(a, table, weakLive, roots) && Holds(a, p, i, Weak(0)) && q != 0 && Alive(a, q)
    requires Relisted(table, table1, q, [Slot(p, i)] + SlotsOf(table, q))
    ensures Inv(SetField(a, p, i, Weak(q)), table1, weakLive + 1, roots)
  {
    hide Total, ChainOk, WeakHash, Listed, Registered;
    var s := Slot(p, i);
    var b := SetField(a, p, i, Weak(q));
    forall x, j, f: Field ensures f.to != 0 ==> (Holds(a, x, j, f) <==> Holds(b, x, j, f) && Slot(x, j) != s) {
    }
    forall x, j, f: Field ensures f.Strong? ==> Holds(b, x, j, f) == Holds(a, x, j, f) {
    }
    CountedPass(a, b, roots);
    RegisteredMore(a, b, table, table1, s, q);
    forall x, j, t: Ref | Holds(b, x, j, Weak(t)) && t != 0 ensures Alive(b, t) {
      if Slot(x, j) != s { assert Holds(a, x, j, Weak(t)); }
    }
  }

  lemma {:induction false} Unchanged(a: Objs, table: seq<seq<Entry>>, weakLive: int, roots: multiset<Ref>)
    requires Inv(a, table, weakLive, roots)
    ensures Survive(a, a)
  {
    SurviveSame(a, a);
  }

  /** Immortal objects are not counted. */
  lemma {:induction false} ImmortalRoot(a: Objs, table: seq<seq<Entry>>, weakLive: int, roots: multiset<Ref>, p: Ref,
          up: bool)
    requires Inv(a, table, weakLive, roots) && p in a && a[p].rc < 0
    ensures Inv(a, table, weakLive, if up then roots + multiset{p} else roots - multiset{p}) && Survive(a, a)
  {
    SurviveSame(a, a);
  }

  // ---------------------------------------------------------------- what stays

  /** A set of objects that keeps itself alive: each is immortal, or its deinit is at work, or the
      program holds it, or a field of one of the set does. */
  ghost predicate Stands(objs: Objs, roots: multiset<Ref>, s: set<Ref>) {
    s <= objs.Keys && forall o :: o in s ==> objs[o].rc <= 0 || o in roots || HeldIn(objs, s, o)
  }

  ghost predicate HeldIn(objs: Objs, s: set<Ref>, o: Ref) {
    exists p, i: nat :: p in s && Holds(objs, p, i, Strong(o))
  }

  /** Every such set is still there. */
  ghost predicate Spared(a: Objs, b: Objs, roots: multiset<Ref>) {
    forall s :: Stands(a, roots, s) ==> s <= b.Keys
  }

  /** `s` is the largest of them. */
  ghost predicate Largest(objs: Objs, roots: multiset<Ref>, s: set<Ref>) {
    Stands(objs, roots, s) && forall t :: Stands(objs, roots, t) ==> t <= s
  }

  /** An object in one of them. */
  ghost predicate Supported(objs: Objs, roots: multiset<Ref>, p: Ref) {
    exists s :: Stands(objs, roots, s) && p in s
  }

  lemma {:induction false} StandsAfter(a: Objs, b: Objs, roots: multiset<Ref>, s: set<Ref>)
    requires Survive(a, b) && Stands(a, roots, s) && s <= b.Keys
    ensures Stands(b, roots, s)
  {
    forall o | o in s && !(b[o].rc <= 0 || o in roots) ensures HeldIn(b, s, o) {
      assert HeldIn(a, s, o);
      var p, i: nat :| p in s && Holds(a, p, i, Strong(o));
      assert b[p].fields[i] == Left(a[p].fields[i], b);
      assert Holds(b, p, i, Strong(o));
    }
  }

  lemma {:induction false} SparedTrans(a: Objs, b: Objs, c: Objs, roots: multiset<Ref>)
    requires Survive(a, b) && Spared(a, b, roots) && Spared(b, c, roots)
    ensures Spared(a, c, roots)
  {
    hide Survive, Stands;
    forall s | Stands(a, roots, s) ensures s <= c.Keys { StandsAfter(a, b, roots, s); }
  }

  lemma {:induction false} SparedAll(a: Objs, b: Objs, roots: multiset<Ref>)
    requires a.Keys <= b.Keys
    ensures Spared(a, b, roots)
  {
  }

  /** Nothing that keeps itself alive has a dying object in it that is not seen. */
  lemma {:induction false} StandsMinus(a: Objs, b: Objs, roots: multiset<Ref>, s: set<Ref>, p: Ref)
    requires Stands(Minus(a, p), roots, s) && Minus(a, p) == Minus(b, p)
    ensures p !in s && Stands(b, roots, s)
  {
    forall o | o in s ensures b[o].rc <= 0 || o in roots || HeldIn(b, s, o) {
      assert Minus(a, p)[o] == Minus(b, p)[o] == b[o];
      if HeldIn(Minus(a, p), s, o) {
        var x, i: nat :| x in s && Holds(Minus(a, p), x, i, Strong(o));
        assert Minus(a, p)[x] == Minus(b, p)[x] == b[x];
        assert Holds(b, x, i, Strong(o));
      }
    }
  }

  lemma {:induction false} SparedMinus(a: Objs, c: Objs, b: Objs, roots: multiset<Ref>, p: Ref)
    requires Minus(a, p) == Minus(c, p) && Spared(c, b, roots)
    ensures Spared(Minus(a, p), Minus(b, p), roots)
  {
    hide Stands;
    forall s | Stands(Minus(a, p), roots, s) ensures s <= Minus(b, p).Keys { StandsMinus(a, c, roots, s, p); }
  }

  /** The last reference given up: the object is in no set that keeps itself alive. */
  lemma {:induction false} DieSpared(a: Objs, d: Objs, table: seq<seq<Entry>>, weakLive: int, roots: multiset<Ref>,
          p: Ref)
    requires Inv(a, table, weakLive, roots) && p in roots && a[p].rc == 1 && Survive(Minus(a, p), Minus(d, p))
    requires d.Keys == a.Keys
    ensures Spared(a, Minus(d, p), roots - multiset{p})
    ensures forall s :: Stands(a, roots - multiset{p}, s) ==> Stands(Minus(d, p), roots - multiset{p}, s)
  {
    hide Registered, Survive, Total;
    OwnersIn(a, p);
    assert Owners(a, p) == {} && p !in roots - multiset{p};
    forall s | Stands(a, roots - multiset{p}, s)
      ensures s <= Minus(d, p).Keys && Stands(Minus(d, p), roots - multiset{p}, s)
    {
      NotHeld(a, s, p);
      StandsIn(a, roots - multiset{p}, s, p);
      StandsAfter(Minus(a, p), Minus(d, p), roots - multiset{p}, s);
    }
  }

  lemma {:induction false} NotHeld(a: Objs, s: set<Ref>, p: Ref)
    requires Owners(a, p) == {}
    ensures !HeldIn(a, s, p)
  {
    OwnersIn(a, p);
    forall x, i: nat | x in s ensures !Holds(a, x, i, Strong(p)) { assert Slot(x, i) !in Owners(a, p); }
  }

  lemma {:induction false} StandsIn(a: Objs, roots: multiset<Ref>, s: set<Ref>, p: Ref)
    requires Stands(a, roots, s) && p !in s
    ensures Stands(Minus(a, p), roots, s)
  {
    forall o | o in s && !(a[o].rc <= 0 || o in roots) ensures HeldIn(Minus(a, p), s, o) {
      var x, i: nat :| x in s && Holds(a, x, i, Strong(o));
      assert Holds(Minus(a, p), x, i, Strong(o));
    }
  }

  lemma {:induction false} FreedSpared(a: Objs, d: Objs, c: Objs, roots: multiset<Ref>, p: Ref)
    requires forall s :: Stands(a, roots, s) ==> Stands(Minus(d, p), roots, s)
    requires Spared(Minus(d, p), c, roots)
    ensures Spared(a, c, roots)
  {
    hide Stands;
  }

  /** What is there after an operation, if it spares what keeps itself alive, is the largest such set
      of the heap before it. */
  lemma {:induction false} SurvivorsAreLargest(a: Objs, b: Objs, table: seq<seq<Entry>>, weakLive: int,
          roots: multiset<Ref>)
    requires Survive(a, b) && Spared(a, b, roots) && Inv(b, table, weakLive, roots)
    ensures Largest(a, roots, b.Keys)
  {
    hide Registered, Total;
    forall o | o in b.Keys && !(a[o].rc <= 0 || o in roots) ensures HeldIn(a, b.Keys, o) {
      OwnersIn(b, o);
      assert |Owners(b, o)| > 0;
      var s :| s in Owners(b, o);
      assert s == Slot(s.obj, s.fld);
      assert b[s.obj].fields[s.fld] == Left(a[s.obj].fields[s.fld], b);
      assert Holds(a, s.obj, s.fld, Strong(o));
    }
  }

  lemma {:induction false} LargestSpares(a: Objs, roots: multiset<Ref>, b: Objs)
    requires Largest(a, roots, b.Keys)
    ensures Spared(a, b, roots)
  {
    hide Stands;
  }

  /** Where no object goes, all of them keep themselves alive. */
  lemma {:induction false} Settled(a: Objs, b: Objs, table: seq<seq<Entry>>, weakLive: int, roots: multiset<Ref>)
    requires Survive(a, b) && a.Keys == b.Keys && Inv(b, table, weakLive, roots)
    ensures Largest(a, roots, b.Keys)
  {
    SparedAll(a, b, roots);
    SurvivorsAreLargest(a, b, table, weakLive, roots);
  }

  lemma {:induction false} DroppedWeak(a: Objs, b: Objs, table: seq<seq<Entry>>, weakLive: int, roots: multiset<Ref>,
          p: Ref)
    requires p in a && a[p].rc == 0 && a[p].drop < |a[p].fields|
    requires b == Advance(SetField(a, p, a[p].drop, Weak(0)), p) && Inv(b, table, weakLive, roots)
    ensures Largest(Advance(a, p), roots, b.Keys)
  {
    hide Registered, Total;
    forall o | o in b.Keys && !(b[o].rc <= 0 || o in roots) ensures HeldIn(Advance(a, p), b.Keys, o) {
      OwnersIn(b, o);
      assert |Owners(b, o)| > 0;
      var s :| s in Owners(b, o);
      assert s == Slot(s.obj, s.fld);
      assert Holds(Advance(a, p), s.obj, s.fld, Strong(o));
    }
  }

  lemma {:induction false} LargestHas(objs: Objs, roots: multiset<Ref>, s: set<Ref>, p: Ref)
    requires Largest(objs, roots, s)
    ensures p in s <==> Supported(objs, roots, p)
  {
    hide Stands;
  }

  // ---------------------------------------------------------------- what is reachable stays

  /** Strong fields lead from one of the program's references to `p`. */
  ghost predicate Leads(objs: Objs, roots: multiset<Ref>, steps: seq<Slot>, p: Ref) {
    p != 0 &&
    if steps == [] then p in roots else
    var s := steps[|steps| - 1];
    Holds(objs, s.obj, s.fld, Strong(p)) && Leads(objs, roots, steps[..|steps| - 1], s.obj)
  }

  /** Whatever the program can still reach is alive after any operation, its strong fields as
      they were: a release frees only what is out of reach. */
  lemma {:induction false} ReachableSurvives(a: Objs, b: Objs, table: seq<seq<Entry>>, weakLive: int,
                                             roots: multiset<Ref>, steps: seq<Slot>, p: Ref)
    requires Survive(a, b) && Inv(b, table, weakLive, roots) && Leads(a, roots, steps, p)
    ensures Alive(b, p) && Leads(b, roots, steps, p)
    decreases |steps|
  {
    hide Registered, Total;
    if steps != [] {
      var s := steps[|steps| - 1];
      ReachableSurvives(a, b, table, weakLive, roots, steps[..|steps| - 1], s.obj);
      assert b[s.obj].fields[s.fld] == Left(a[s.obj].fields[s.fld], b);
      assert Holds(b, s.obj, s.fld, Strong(p));
      OwnersIn(b, p);
      assert Slot(s.obj, s.fld) in Owners(b, p);
    }
  }

  /** Strong fields but those of `p` lead to `x`: cutting a field of `p` leaves `x` supported. */
  lemma {:induction false} PathSupports(objs: Objs, roots: multiset<Ref>, steps: seq<Slot>, x: Ref, p: Ref, i: nat)
    requires Counted(objs, roots) && Leads(objs, roots, steps, x) && p in objs && i < |objs[p].fields|
    requires forall k :: 0 <= k < |steps| ==> steps[k].obj != p
    ensures Supported(SetField(objs, p, i, Strong(0)), roots, x)
    decreases |steps|
  {
    hide Owners;
    var cut := SetField(objs, p, i, Strong(0));
    if steps == [] {
      assert Stands(cut, roots, {x});
    } else {
      var s, rest := steps[|steps| - 1], steps[..|steps| - 1];
      PathSupports(objs, roots, rest, s.obj, p, i);
      var set0 :| Stands(cut, roots, set0) && s.obj in set0;
      assert Holds(cut, s.obj, s.fld, Strong(x));
      forall o | o in set0 + {x} && !(cut[o].rc <= 0 || o in roots) ensures HeldIn(cut, set0 + {x}, o) {
        if o in set0 { assert HeldIn(cut, set0, o); }
      }
      assert Stands(cut, roots, set0 + {x});
    }
  }

  lemma {:induction false} PathTo(objs: Objs, roots: multiset<Ref>, steps: seq<Slot>, x: Ref, k: nat)
    requires Leads(objs, roots, steps, x) && k < |steps|
    ensures Leads(objs, roots, steps[..k], steps[k].obj)
    decreases |steps|
  {
    var rest := steps[..|steps| - 1];
    if k < |rest| {
      PathTo(objs, roots, rest, steps[|steps| - 1].obj, k);
      assert rest[..k] == steps[..k];
    } else {
      assert rest == steps[..k];
    }
  }

  /** An object that strong fields lead to does not hang on one of its own fields, whatever the way. */
  lemma {:induction false} ReachedIsSupported(objs: Objs, roots: multiset<Ref>, steps: seq<Slot>, p: Ref, i: nat)
    requires Counted(objs, roots) && Leads(objs, roots, steps, p) && p in objs && i < |objs[p].fields|
    ensures Supported(SetField(objs, p, i, Strong(0)), roots, p)
    decreases |steps|
  {
    hide Counted, Leads, Supported;
    if k :| 0 <= k < |steps| && steps[k].obj == p {
      PathTo(objs, roots, steps, p, k);
      ReachedIsSupported(objs, roots, steps[..k], p, i);
    } else {
      PathSupports(objs, roots, steps, p, p, i);
    }
  }

  // ---------------------------------------------------------------- an object lost by a store

  /** Objects 1 and 2 hold each other, and object 3, the program's, points weakly at object 1. */
  function Ring(): Objs {
    map[1 := Obj(1, [Strong(2)], 0), 2 := Obj(1, [Strong(1)], 0), 3 := Obj(1, [Weak(1)], 0)]
  }

  function RingTable(): seq<seq<Entry>> {
    [[Entry(1, [Slot(3, 0)])]] + seq(BUCKETS - 1, _ => [])
  }

  lemma {:induction false} RingNodes(n: nat)
    requires n <= BUCKETS
    ensures Total(RingTable()[..n]) == if n == 0 then 0 else 1
  {
    if n > 0 {
      RingNodes(n - 1);
      assert RingTable()[..n][..n - 1] == RingTable()[..n - 1];
      assert RingTable()[..n][n - 1] == RingTable()[n - 1];
      if n == 1 { assert Nodes(RingTable()[0][1..]) == 0; }
    }
  }

  lemma {:induction false} RingCounted()
    ensures Counted(Ring(), multiset{3})
  {
    var a := Ring();
    OwnersIn(a, 1);
    OwnersIn(a, 2);
    OwnersIn(a, 3);
    assert Owners(a, 1) == {Slot(2, 0)};
    assert Owners(a, 2) == {Slot(1, 0)};
    assert Owners(a, 3) == {};
  }

  lemma {:induction false} RingSlots(q: Ref)
    ensures SlotsOf(RingTable(), q) == if q == 1 then [Slot(3, 0)] else []
  {
    var t := RingTable();
    assert WeakHash(1) == 0 && t[0] == [Entry(1, [Slot(3, 0)])];
    if WeakHash(q) > 0 {
      assert t[WeakHash(q)] == [];
    } else if q != 1 {
      assert t[0][1..] == [];
      assert Listed(t[0][1..], q) == [];
    }
  }

  lemma {:induction false} RingRegistered()
    ensures Registered(Ring(), RingTable())
  {
    var t := RingTable();
    forall b | 0 <= b < BUCKETS ensures ChainOk(t[b], b) { if b > 0 { assert t[b] == []; } }
    forall q: Ref ensures SlotsOf(t, q) == if q == 1 then [Slot(3, 0)] else [] { RingSlots(q); }
    hide Total, SlotsOf, RingTable;
  }

  /** Without the field, nothing keeps object 2, and so nothing keeps object 1. */
  lemma {:induction false} RingLost()
    ensures !Supported(SetField(Ring(), 1, 0, Strong(0)), multiset{3}, 1)
  {
    var cut := SetField(Ring(), 1, 0, Strong(0));
    assert [Strong(2)][0 := Strong(0)] == [Strong(0)];
    assert cut == map[1 := Obj(1, [Strong(0)], 0), 2 := Obj(1, [Strong(1)], 0), 3 := Obj(1, [Weak(1)], 0)];
    forall s | Stands(cut, multiset{3}, s) ensures 1 !in s {
      assert !HeldIn(cut, s, 2);
      assert 2 !in s;
      assert 1 in s ==> HeldIn(cut, s, 1);
      assert HeldIn(cut, s, 1) ==> 2 in s;
    }
  }

  /** A store into object 1, reached through the weak reference, frees it before the write: the
      heap is sound and the object alive, and without the field's old reference nothing keeps it. */
  lemma {:induction false} StoreLosesItsObject()
    ensures Inv(Ring(), RingTable(), 1, multiset{3}) && Alive(Ring(), 1)
    ensures Holds(Ring(), 3, 0, Weak(1)) && Holds(Ring(), 1, 0, Strong(2))
    ensures !Supported(SetField(Ring(), 1, 0, Strong(0)), multiset{3}, 1)
  {
    hide Counted, Registered, Supported, Total;
    RingCounted();
    RingRegistered();
    RingNodes(BUCKETS);
    RingWhole();
    RingLost();
  }

  lemma {:induction false} RingWhole()
    ensures RingTable()[..BUCKETS] == RingTable()
  {
  }

  /** And whatever stays, immortal objects and deinits at work aside, still has an owner. */
  lemma {:induction false} SurvivorsAreOwned(b: Objs, table: seq<seq<Entry>>, weakLive: int, roots: multiset<Ref>,
          p: Ref) returns (s: Slot)
    requires Inv(b, table, weakLive, roots) && p in b && b[p].rc > 0
    ensures p in roots || Holds(b, s.obj, s.fld, Strong(p))
  {
    s := Slot(0, 0);
    if p !in roots {
      assert |Owners(b, p)| > 0;
      s :| s in Owners(b, p);
    }
  }

  // ---------------------------------------------------------------- the runtime's operations

  class Heap {
    var objs: Objs
    var table: seq<seq<Entry>>
    var weakLive: int
    ghost var roots: multiset<Ref>

    ghost predicate Valid()
      reads this
    {
      Inv(objs, table, weakLive, roots)
    }

    /** vt_retain: null and immortal objects are left alone. */
    method Retain(p: Ref)
      requires Valid() && (p == 0 || Alive(objs, p))
      modifies this
      ensures Valid() && roots == if p == 0 then old(roots) else old(roots) + multiset{p}
      ensures Survive(old(objs), objs) && old(objs).Keys == objs.Keys
    {
      hide Inv, Survive;
      if p == 0 {
        Unchanged(objs, table, weakLive, roots);
        return;
      }
      if objs[p].rc < 0 {
        ImmortalRoot(objs, table, weakLive, roots, p, true);
      } else {
        Recount(objs, table, weakLive, roots, p, true);
        objs := objs[p := objs[p].(rc := objs[p].rc + 1)];
      }
      roots := roots + multiset{p};
    }

    /** vt_weak_on_free: null every weak slot that points at `p`. */
    method Orphan(p: Ref)
      requires TableOk(table)
      requires forall s :: s in SlotsOf(table, p) ==> s.obj in objs && s.fld < |objs[s.obj].fields|
      modifies this
      ensures NulledBy(old(objs), objs, SlotsOf(old(table), p)) && Relisted(old(table), table, p, [])
      ensures weakLive == old(weakLive) - |SlotsOf(old(table), p)| && roots == old(roots)
    {
      hide ChainOk, Total, WeakHash, Listed;
      var slots;
      table, slots := TakeOut(table, p);
      var n := 0;
      while n < |slots|
        invariant n <= |slots| && NulledBy(old(objs), objs, slots[..n]) && weakLive == old(weakLive) - n
        invariant Relisted(old(table), table, p, []) && roots == old(roots)
      {
        assert slots[n] in SlotsOf(old(table), p);
        objs := SetField(objs, slots[n].obj, slots[n].fld, Weak(0));
        weakLive := weakLive - 1;
        n := n + 1;
      }
      assert slots[..n] == slots;
    }

    /** vt_release: give up one of the program's references; the last one frees the object. */
    method Release(p: Ref)
      requires Valid() && (p == 0 || p in roots)
      modifies this
      ensures Valid() && roots == old(roots) - multiset{p}
      ensures Survive(old(objs), objs) && Largest(old(objs), roots, objs.Keys)
      ensures p != 0 ==> (p !in objs <==> old(objs[p].rc) == 1)
      ensures |Positive(objs)| <= |Positive(old(objs))|
      decreases |Positive(objs)|, 0
    {
      hide Inv, Survive, Stands, Largest;
      ghost var a := objs;
      if p == 0 {
        Unchanged(objs, table, weakLive, roots);
        NullRoot(objs, table, weakLive, roots, p);
        Settled(a, objs, table, weakLive, roots);
        return;
      }
      RootCounted(objs, table, weakLive, roots, p);
      if objs[p].rc < 0 {
        ImmortalRoot(objs, table, weakLive, roots, p, false);
        roots := roots - multiset{p};
        Settled(a, objs, table, weakLive, roots);
        return;
      }
      if objs[p].rc > 1 {
        Recount(objs, table, weakLive, roots, p, false);
        objs := objs[p := objs[p].(rc := objs[p].rc - 1)];
        roots := roots - multiset{p};
        SurvivePositive(a, objs);
        Settled(a, objs, table, weakLive, roots);
        return;
      }
      ghost var t, wl, rs := table, weakLive, roots;
      SlotsInObjects(objs, table, weakLive, roots, p);
      objs := objs[p := objs[p].(rc := 0)];
      if weakLive != 0 {
        Orphan(p);
      } else {
        NothingListed(table, p);
      }
      Die(a, objs, t, table, wl, rs, p);
      DieSpared(a, objs, t, wl, rs, p);
      roots := roots - multiset{p};
      FewerPositive(a, objs, p);
      ghost var d := objs;
      Teardown(p);
      SurviveFreed(a, d, objs, p);
      LargestSpares(Minus(d, p), roots, objs);
      FreedSpared(a, d, objs, roots, p);
      SurvivorsAreLargest(a, objs, table, weakLive, roots);
      SurvivePositive(a, objs);
    }

    /** Deinit's next field: a strong one is released, a weak one dropped. */
    method DeinitField(p: Ref)
      requires Valid() && p in objs && objs[p].rc == 0 && objs[p].drop < |objs[p].fields|
      modifies this
      ensures Valid() && roots == old(roots) && Survive(Minus(old(objs), p), Minus(objs, p))
      ensures Largest(Advance(old(objs), p), roots, objs.Keys) && Spared(Minus(old(objs), p), Minus(objs, p), roots)
      ensures p in objs && objs[p].rc == 0 && objs[p].drop == old(objs[p].drop) + 1
          && |objs[p].fields| == old(|objs[p].fields|)
      ensures |Positive(objs)| <= |Positive(old(objs))|
      decreases |Positive(objs)|, 1
    {
      hide Inv, Survive, Positive, Stands, Largest, Spared;
      ghost var a := objs;
      match objs[p].fields[objs[p].drop]
      case Strong(q) =>
        PassStrong(objs, table, weakLive, roots, p, q);
        objs := Advance(objs, p);
        ghost var c := objs;
        assert Minus(c, p) == Minus(a, p);
        SamePositive(a, c, p);
        if q != 0 { roots := roots + multiset{q}; }
        NullRoot(objs, table, weakLive, roots, q);
        Release(q);
        DyingStays(c, objs, p);
        SurviveMinus(c, objs, p);
        LargestSpares(c, roots, objs);
        SparedMinus(a, c, objs, roots, p);
      case Weak(q) =>
        WeakDrop(p, q);
        assert Minus(objs, p) == Minus(a, p);
        SamePositive(a, objs, p);
        Unchanged(a, old(table), old(weakLive), roots);
        SurviveMinus(a, a, p);
        SparedAll(Minus(a, p), Minus(objs, p), roots);
        DroppedWeak(a, objs, table, weakLive, roots, p);
    }

    /** vt_weak_drop on the next field of a dead object. */
    method WeakDrop(p: Ref, q: Ref)
      requires Valid() && p in objs && objs[p].rc == 0 && Holds(objs, p, objs[p].drop, Weak(q))
      modifies this
      ensures Valid() && roots == old(roots)
      ensures objs == Advance(SetField(old(objs), p, old(objs[p].drop), Weak(0)), p)
    {
      hide Total, ChainOk, WeakHash, Listed, Registered, Counted, Without;
      var i := objs[p].drop;
      ghost var t, wl := table, weakLive;
      if q != 0 {
        SlotsInObjects(objs, table, weakLive, roots, q);
        var gone;
        table, gone := Detach(table, Slot(p, i), q);
        weakLive := weakLive - gone;
      }
      PassWeak(objs, t, table, wl, roots, p, q);
      objs := Advance(SetField(objs, p, i, Weak(0)), p);
    }

    /** The deinit of a dead object, and its memory given back. */
    method Teardown(p: Ref)
      requires Valid() && p in objs && objs[p].rc == 0 && objs[p].drop == 0
      modifies this
      ensures Valid() && roots == old(roots) && Survive(Minus(old(objs), p), objs) && p !in objs
      ensures Largest(Minus(old(objs), p), roots, objs.Keys)
      decreases |Positive(objs)|, 2
    {
      hide Inv, Survive, Positive, Stands, Largest, Spared;
      ghost var a := objs;
      var n := |objs[p].fields|;
      var i := 0;
      Unchanged(objs, table, weakLive, roots);
      SurviveMinus(a, a, p);
      SparedAll(Minus(a, p), Minus(a, p), roots);
      while i < n
        invariant 0 <= i <= n && Valid() && roots == old(roots)
        invariant p in objs && objs[p].rc == 0 && objs[p].drop == i && |objs[p].fields| == n
        invariant Spared(Minus(a, p), Minus(objs, p), roots)
        invariant Survive(Minus(a, p), Minus(objs, p)) && |Positive(objs)| <= |Positive(a)|
        decreases n - i
      {
        ghost var b := objs;
        DeinitField(p);
        SparedTrans(Minus(a, p), Minus(b, p), Minus(objs, p), roots);
        SurviveTrans(Minus(a, p), Minus(b, p), Minus(objs, p));
        i := i + 1;
      }
      Remove(objs, table, weakLive, roots, p);
      objs := Minus(objs, p);
      SurvivorsAreLargest(Minus(a, p), objs, table, weakLive, roots);
    }

    /** A new object with every field null. */
    method Alloc(p: Ref, fields: seq<Field>)
      requires Valid() && p != 0 && p !in objs && forall i :: 0 <= i < |fields| ==> fields[i].to == 0
      modifies this
      ensures Valid() && objs == old(objs)[p := Obj(1, fields, 0)] && roots == old(roots) + multiset{p}
    {
      Arrive(objs, table, weakLive, roots, p, fields);
      objs := objs[p := Obj(1, fields, 0)];
      roots := roots + multiset{p};
    }

    /** The reference in a strong field released, the field null.  The object itself lives on
        exactly if it does not hang on that field. */
    method ReleaseField(p: Ref, i: nat)
      requires Valid() && Alive(objs, p) && i < |objs[p].fields| && objs[p].fields[i].Strong?
      modifies this
      ensures Valid() && roots == old(roots)
      ensures Alive(objs, p) <==> Supported(SetField(old(objs), p, i, Strong(0)), roots, p)
      ensures Alive(objs, p) ==> Holds(objs, p, i, Strong(0))
      ensures Survive(SetField(old(objs), p, i, Strong(0)), objs)
      ensures Largest(SetField(old(objs), p, i, Strong(0)), roots, objs.Keys)
    {
      hide Inv, Survive, Owners, Supported, Stands, Largest;
      var was := objs[p].fields[i].to;
      NoDrop(objs, table, weakLive, roots, p);
      TakeField(objs, table, weakLive, roots, p, i, was);
      objs := SetField(objs, p, i, Strong(0));
      ghost var a, rs := objs, roots;
      if was != 0 { roots := roots + multiset{was}; }
      NullRoot(objs, table, weakLive, roots, was);
      Release(was);
      assert roots == rs;
      LargestHas(a, roots, objs.Keys, p);
      SlotStays(a, objs, p, i);
    }

    /** `obj.fld = v` on a strong field: the old reference released, then the new one put in.  `ok`
        is false when the object is gone by the time of the write. */
    method Store(p: Ref, i: nat, v: Ref) returns (ok: bool, ghost between: Objs)
      requires Valid() && Alive(objs, p) && i < |objs[p].fields| && objs[p].fields[i].Strong? && (v == 0 || v in roots)
      modifies this
      ensures ok <==> Supported(SetField(old(objs), p, i, Strong(0)), old(roots), p)
      ensures Valid() && roots == if ok then old(roots) - multiset{v} else old(roots)
      ensures Survive(SetField(old(objs), p, i, Strong(0)), between)
      ensures Largest(SetField(old(objs), p, i, Strong(0)), old(roots), between.Keys)
      ensures ok ==> Holds(between, p, i, Strong(0)) && objs == SetField(between, p, i, Strong(v)) && Alive(objs, p)
      ensures !ok ==> objs == between && p !in objs
    {
      hide Inv, Survive, Owners, Supported, Stands, Largest;
      NullRoot(objs, table, weakLive, roots, v);
      ghost var a := SetField(objs, p, i, Strong(0));
      ReleaseField(p, i);
      between := objs;
      AliveOrGone(a, objs, p);
      if p !in objs { return false, between; }
      FillField(objs, table, weakLive, roots, p, i, v);
      objs := SetField(objs, p, i, Strong(v));
      if v != 0 { roots := roots - multiset{v}; }
      return true, between;
    }

    /** vt_weak_set. */
    method WeakSet(p: Ref, i: nat, q: Ref)
      requires Valid() && Alive(objs, p) && i < |objs[p].fields| && objs[p].fields[i].Weak?
          && (q == 0 || Alive(objs, q))
      modifies this
      ensures Valid() && objs == SetField(old(objs), p, i, Weak(q)) && roots == old(roots)
    {
      hide Inv, Total, ChainOk, WeakHash, Listed, Without;
      var was := objs[p].fields[i].to;
      NoDrop(objs, table, weakLive, roots, p);
      if was == q {
        assert objs[p].fields[i := Weak(q)] == objs[p].fields;
        return;
      }
      ghost var a, t, wl := objs, table, weakLive;
      if was != 0 {
        SlotsInObjects(objs, table, weakLive, roots, was);
        var gone;
        table, gone := Detach(table, Slot(p, i), was);
        ClearWeak(a, t, table, wl, roots, p, i, was);
        weakLive := weakLive - gone;
      }
      ghost var b := SetField(a, p, i, Weak(0));
      if was == 0 {
        assert a[p].fields[i := Weak(0)] == a[p].fields;
        assert b == a;
      }
      objs := SetField(objs, p, i, Weak(q));
      assert a[p].fields[i := Weak(0)][i := Weak(q)] == a[p].fields[i := Weak(q)];
      if q != 0 {
        SlotsInObjects(b, table, weakLive, roots, q);
        ghost var t1, wl1 := table, weakLive;
        table := Attach(table, Slot(p, i), q);
        weakLive := weakLive + 1;
        PointWeak(b, t1, table, wl1, roots, p, i, q);
        assert objs == SetField(b, p, i, Weak(q));
      } else {
        assert objs == b;
      }
    }
  }

  lemma {:induction false} SlotStays(a: Objs, b: Objs, p: Ref, i: nat)
    requires Survive(a, b) && Alive(a, p) && Holds(a, p, i, Strong(0)) && a[p].drop == 0
    ensures Alive(b, p) <==> p in b
    ensures p in b ==> Holds(b, p, i, Strong(0)) && b[p].drop == 0
  {
    if p in b { assert b[p].fields[i] == Left(a[p].fields[i], b); }
  }

  lemma {:induction false} AliveOrGone(a: Objs, b: Objs, p: Ref)
    requires Survive(a, b) && Alive(a, p)
    ensures Alive(b, p) <==> p in b
  {
  }

  lemma {:induction false} NoDrop(a: Objs, table: seq<seq<Entry>>, weakLive: int, roots: multiset<Ref>, p: Ref)
    requires Inv(a, table, weakLive, roots) && Alive(a, p)
    ensures a[p].drop == 0
  {
  }

  lemma {:induction false} NullRoot(a: Objs, table: seq<seq<Entry>>, weakLive: int, roots: multiset<Ref>, q: Ref)
    requires Inv(a, table, weakLive, roots)
    ensures 0 !in roots
    ensures q == 0 ==> roots - multiset{q} == roots
  {
  }

  lemma {:induction false} RootCounted(a: Objs, table: seq<seq<Entry>>, weakLive: int, roots: multiset<Ref>, p: Ref)
    requires Inv(a, table, weakLive, roots) && p in roots
    ensures p in a && a[p].rc != 0
  {
  }

  lemma {:induction false} SlotsInObjects(a: Objs, table: seq<seq<Entry>>, weakLive: int, roots: multiset<Ref>, p: Ref)
    requires Inv(a, table, weakLive, roots)
    ensures TableOk(table) && weakLive == Total(table)
    ensures forall s :: s in SlotsOf(table, p) ==> s.obj in a && s.fld < |a[s.obj].fields|
  {
    hide ChainOk, Total, WeakHash, Listed;
    forall s | s in SlotsOf(table, p) ensures s.obj in a && s.fld < |a[s.obj].fields| {
      assert Holds(a, s.obj, s.fld, Weak(p));
    }
  }

  lemma {:induction false} FewerPositive(a: Objs, b: Objs, p: Ref)
    requires a.Keys == b.Keys && p in a && a[p].rc > 0 && b[p].rc == 0
    requires forall x :: x in a && x != p ==> b[x].rc == a[x].rc
    ensures |Positive(b)| < |Positive(a)|
  {
    assert p in Positive(a) && p !in Positive(b);
    Smaller(Positive(b), Positive(a));
  }

  lemma {:induction false} SamePositive(a: Objs, b: Objs, p: Ref)
    requires p in a && p in b && a[p].rc == 0 && b[p].rc == 0 && Minus(a, p) == Minus(b, p)
    ensures Positive(a) == Positive(b)
  {
    forall x ensures x in Positive(a) <==> x in Positive(b) {
      if x != p {
        assert x in a <==> x in Minus(a, p);
        assert x in b <==> x in Minus(b, p);
        if x in a { assert Minus(a, p)[x] == Minus(b, p)[x]; }
      }
    }
  }

  lemma {:induction false} DyingStays(a: Objs, b: Objs, p: Ref)
    requires Survive(a, b) && p in a && a[p].rc == 0
    ensures p in b && b[p].rc == 0 && b[p].drop == a[p].drop && |b[p].fields| == |a[p].fields|
  {
  }

  /** From just before an object died to just after it was freed. */
  lemma {:induction false} SurviveFreed(a: Objs, d: Objs, c: Objs, p: Ref)
    requires p in a && a[p].rc > 0 && p !in c
    requires Survive(Minus(a, p), Minus(d, p)) && Survive(Minus(d, p), c)
    ensures Survive(a, c)
  {
    SurviveTrans(Minus(a, p), Minus(d, p), c);
    var a1 := Minus(a, p);
    forall x, i | x in c && a[x].drop <= i < |c[x].fields| ensures c[x].fields[i] == Left(a[x].fields[i], c) {
      assert a1[x] == a[x] && c[x].fields[i] == Left(a1[x].fields[i], c);
    }
  }
}
