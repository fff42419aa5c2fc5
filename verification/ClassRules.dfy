/** The rules a class keeps to be laid out, said of the classes up its chain. */
module ClassRules {
  import opened Hierarchy
  import opened Vtable

  /** The class `k` steps up from `c`, -1 behind the end of the chain. */
  ghost function Anc(prog: seq<ClassDecl>, c: int, k: nat): (a: int)
    requires Declared(prog) && -1 <= c < |prog|
    ensures -1 <= a < |prog|
  {
    Up(ParentsOf(prog), c, k)
  }

  ghost predicate Declares(prog: seq<ClassDecl>, a: int, name: Name)
    requires -1 <= a < |prog|
  {
    a >= 0 && exists i :: 0 <= i < |prog[a].methods| && prog[a].methods[i].name == name
  }

  /** A field `k` steps up from `c` has the name. */
  ghost predicate FieldAt(prog: seq<ClassDecl>, c: int, k: nat, name: Name)
    requires Declared(prog) && -1 <= c < |prog|
  {
    Anc(prog, c, k) >= 0 && name in prog[Anc(prog, c, k)].fields
  }

  /** The method of that name nearest to `c` is declared `k` steps up. */
  ghost predicate NearestAt(prog: seq<ClassDecl>, c: int, k: nat, name: Name)
    requires Declared(prog) && -1 <= c < |prog|
  {
    Declares(prog, Anc(prog, c, k), name) && forall j: nat :: j < k ==> !Declares(prog, Anc(prog, c, j), name)
  }

  /** `m` may stand for the first method of its name in class `a`. */
  ghost predicate Replaces(prog: seq<ClassDecl>, m: Method, a: int)
    requires -1 <= a < |prog|
  {
    a >= 0 && exists i :: 0 <= i < |prog[a].methods| && Stands(prog[a].methods, m, i)
  }

  ghost predicate Stands(ms: seq<Method>, m: Method, i: nat)
    requires i < |ms|
  {
    && ms[i].name == m.name && (forall j :: 0 <= j < i ==> ms[j].name != m.name)
    && (ms[i].isVirtual || ms[i].isOverride) && ms[i].sig == m.sig
  }

  /** An override has something virtual of its signature to override, and the nearest of its name; any
      other method has a name that is new. */
  ghost predicate Fitting(prog: seq<ClassDecl>, c: nat, m: Method)
    requires Declared(prog) && c < |prog|
  {
    var p := prog[c].parent;
    if m.isOverride then exists k: nat :: NearestAt(prog, p, k, m.name) && Replaces(prog, m, Anc(prog, p, k))
    else forall k: nat :: !Declares(prog, Anc(prog, p, k), m.name)
  }

  /** The rules: no field has an inherited field's name; method names are new in the class and shared
      with no field of the class or above; what may be overridden has no default arguments. */
  ghost predicate Lawful(prog: seq<ClassDecl>, c: nat)
    requires Declared(prog) && c < |prog|
  {
    var ms := prog[c].methods;
    && (forall k: nat, f :: f in prog[c].fields ==> !FieldAt(prog, prog[c].parent, k, f))
    && (forall i, j :: 0 <= j < i < |ms| ==> ms[j].name != ms[i].name)
    && (forall k: nat, i :: 0 <= i < |ms| ==> !FieldAt(prog, c, k, ms[i].name))
    && (forall i :: 0 <= i < |ms| && (ms[i].isVirtual || ms[i].isOverride) ==> !ms[i].hasDefaults)
    && (forall i :: 0 <= i < |ms| ==> Fitting(prog, c, ms[i]))
  }

  // ---------------------------------------------------------------- the searches up the chain

  lemma {:induction false} AncUp(prog: seq<ClassDecl>, c: nat, k: nat)
    requires Declared(prog) && c < |prog|
    ensures Anc(prog, c, 0) == c && Anc(prog, c, k + 1) == Anc(prog, prog[c].parent, k)
  {
  }

  lemma {:induction false} NoneAbove(prog: seq<ClassDecl>, k: nat)
    requires Declared(prog)
    ensures Anc(prog, -1, k) == -1
  {
  }

  lemma {:induction false} FieldIs(prog: seq<ClassDecl>, rank: seq<nat>, c: int, name: Name)
    requires Acyclic(prog, rank) && -1 <= c < |prog|
    ensures HasField(prog, rank, c, name) <==> exists k: nat :: FieldAt(prog, c, k, name)
    decreases if c < 0 then 0 else rank[c] + 1
  {
    hide Anc;
    if c < 0 {
      forall k: nat ensures !FieldAt(prog, c, k, name) { NoneAbove(prog, k); }
    } else {
      var p := prog[c].parent;
      FieldIs(prog, rank, p, name);
      AncUp(prog, c, 0);
      if k: nat :| FieldAt(prog, p, k, name) {
        AncUp(prog, c, k);
        assert FieldAt(prog, c, k + 1, name);
      }
      if k: nat :| FieldAt(prog, c, k, name) {
        if k > 0 {
          AncUp(prog, c, k - 1);
          assert FieldAt(prog, p, k - 1, name);
        }
      }
      if name in prog[c].fields { assert FieldAt(prog, c, 0, name); }
    }
  }

  /** Lookup answers with the first method of the name in the nearest class that has one. */
  lemma {:induction false} FindIs(prog: seq<ClassDecl>, rank: seq<nat>, c: int, name: Name)
    requires Acyclic(prog, rank) && -1 <= c < |prog|
    ensures var f := Find(prog, rank, c, name);
      && (f == Missing <==> forall k: nat :: !Declares(prog, Anc(prog, c, k), name))
      && (forall k: nat :: NearestAt(prog, c, k, name) ==>
            f == At(Anc(prog, c, k), Own(prog[Anc(prog, c, k)].methods, name)))
      && (f.At? ==> exists k: nat :: NearestAt(prog, c, k, name))
    decreases if c < 0 then 0 else rank[c] + 1
  {
    hide Anc;
    if c < 0 {
      forall k: nat ensures !Declares(prog, Anc(prog, c, k), name) { NoneAbove(prog, k); }
    } else {
      var p := prog[c].parent;
      AncUp(prog, c, 0);
      if Own(prog[c].methods, name) >= 0 {
        FoundHere(prog, c, name);
      } else {
        FindIs(prog, rank, p, name);
        NotHere(prog, c, name);
        var f := Find(prog, rank, c, name);
        forall k: nat | NearestAt(prog, c, k, name)
          ensures f == At(Anc(prog, c, k), Own(prog[Anc(prog, c, k)].methods, name))
        {
          AncUp(prog, c, k - 1);
          assert NearestAt(prog, c, (k - 1) + 1, name);
        }
        if f.At? {
          var k: nat :| NearestAt(prog, p, k, name);
          assert NearestAt(prog, c, k + 1, name);
        }
      }
    }
  }

  lemma {:induction false} FoundHere(prog: seq<ClassDecl>, c: nat, name: Name)
    requires Declared(prog) && c < |prog| && Own(prog[c].methods, name) >= 0
    ensures NearestAt(prog, c, 0, name) && forall k: nat :: k > 0 ==> !NearestAt(prog, c, k, name)
  {
    var i := Own(prog[c].methods, name);
    assert prog[c].methods[i].name == name;
    assert Anc(prog, c, 0) == c && Declares(prog, c, name);
  }

  lemma {:induction false} NotHere(prog: seq<ClassDecl>, c: nat, name: Name)
    requires Declared(prog) && c < |prog| && Own(prog[c].methods, name) < 0
    ensures !Declares(prog, c, name) && !NearestAt(prog, c, 0, name)
    ensures forall k: nat :: NearestAt(prog, c, k + 1, name) <==> NearestAt(prog, prog[c].parent, k, name)
    ensures (forall k: nat :: !Declares(prog, Anc(prog, c, k), name)) <==>
            forall k: nat :: !Declares(prog, Anc(prog, prog[c].parent, k), name)
  {
    hide Anc;
    var p := prog[c].parent;
    AncUp(prog, c, 0);
    forall k: nat ensures Anc(prog, c, k + 1) == Anc(prog, p, k) { AncUp(prog, c, k); }
    forall k: nat ensures NearestAt(prog, c, k + 1, name) <==> NearestAt(prog, p, k, name) {
      if NearestAt(prog, p, k, name) {
        forall j: nat | j < k + 1 ensures !Declares(prog, Anc(prog, c, j), name) {
          if j > 0 { assert !Declares(prog, Anc(prog, p, j - 1), name); }
        }
      }
      if NearestAt(prog, c, k + 1, name) {
        forall j: nat | j < k ensures !Declares(prog, Anc(prog, p, j), name) {
          assert !Declares(prog, Anc(prog, c, j + 1), name);
        }
      }
    }
    if forall k: nat :: !Declares(prog, Anc(prog, p, k), name) {
      forall k: nat ensures !Declares(prog, Anc(prog, c, k), name) {
        if k > 0 { assert !Declares(prog, Anc(prog, p, k - 1), name); }
      }
    }
    if forall k: nat :: !Declares(prog, Anc(prog, c, k), name) {
      forall k: nat ensures !Declares(prog, Anc(prog, p, k), name) {
        assert !Declares(prog, Anc(prog, c, k + 1), name);
      }
    }
  }

  // ---------------------------------------------------------------- the verdict

  /** The checks on one method are the rules on it. */
  lemma {:induction false} AcceptsIs(prog: seq<ClassDecl>, rank: seq<nat>, c: nat, i: nat)
    requires Acyclic(prog, rank) && c < |prog| && i < |prog[c].methods|
    ensures var m := prog[c].methods[i];
      Accepts(prog, rank, c, i, Find(prog, rank, prog[c].parent, m.name)) <==>
        && Fitting(prog, c, m) && (m.isVirtual || m.isOverride ==> !m.hasDefaults)
        && (forall j :: 0 <= j < i ==> prog[c].methods[j].name != m.name)
        && (forall k: nat :: !FieldAt(prog, c, k, m.name))
  {
    hide Anc, Find, HasField, NearestAt, FieldAt;
    var m, p := prog[c].methods[i], prog[c].parent;
    FieldIs(prog, rank, c, m.name);
    FindIs(prog, rank, p, m.name);
    if m.isOverride {
      forall k: nat | NearestAt(prog, p, k, m.name)
        ensures var f := Find(prog, rank, p, m.name);
                f.At? && (Replaces(prog, m, Anc(prog, p, k)) <==> Stands(prog[f.cls].methods, m, f.idx))
      {
        StandsOnce(prog, m, Anc(prog, p, k));
      }
    }
  }

  lemma {:induction false} StandsOnce(prog: seq<ClassDecl>, m: Method, a: nat)
    requires a < |prog| && Own(prog[a].methods, m.name) >= 0
    ensures Replaces(prog, m, a) <==> Stands(prog[a].methods, m, Own(prog[a].methods, m.name))
  {
  }

  lemma {:induction false} Numbers(prog: seq<ClassDecl>, rank: seq<nat>, c: nat, i: nat, base: nat)
    requires Acyclic(prog, rank) && c < |prog| && i <= |prog[c].methods|
    ensures Number(prog, rank, c, i, base).Laid? <==> AllAccepted(prog, rank, c, i)
    decreases i
  {
    if Number(prog, rank, c, i, base).Laid? {
      NumberedAccepted(prog, rank, c, i, base);
    } else if i > 0 {
      hide Accepts, Find, LayoutOf, SlotAt;
      Numbers(prog, rank, c, i - 1, base);
    }
  }

  /** Over an accepted parent, a class is accepted if and only if it is lawful. */
  lemma {:induction false} AcceptedIffLawful(prog: seq<ClassDecl>, rank: seq<nat>, c: nat)
    requires Acyclic(prog, rank) && c < |prog| && Accepted(prog, rank, prog[c].parent)
    ensures Accepted(prog, rank, c) <==> Lawful(prog, c)
  {
    hide Find, HasField, FieldAt, Fitting, Number, LayoutOf, Lawful, AllAccepted;
    var p, ms := prog[c].parent, prog[c].methods;
    Numbers(prog, rank, c, |ms|, SlotsIn(prog, rank, p));
    LawfulIs(prog, rank, c);
    if exists f :: f in prog[c].fields && HasField(prog, rank, p, f) {
      NoField(prog, rank);
      RejectedFields(prog, rank, c);
    } else {
      LayoutIsNumber(prog, rank, c);
    }
  }

  lemma {:induction false} LawfulIs(prog: seq<ClassDecl>, rank: seq<nat>, c: nat)
    requires Acyclic(prog, rank) && c < |prog|
    ensures Lawful(prog, c) <==>
      && AllAccepted(prog, rank, c, |prog[c].methods|)
      && !exists f :: f in prog[c].fields && HasField(prog, rank, prog[c].parent, f)
  {
    hide Accepts, Find, HasField, FieldAt, Fitting;
    var p, ms := prog[c].parent, prog[c].methods;
    forall i: nat | i < |ms|
      ensures Accepts(prog, rank, c, i, Find(prog, rank, p, ms[i].name)) <==>
        && Fitting(prog, c, ms[i]) && (ms[i].isVirtual || ms[i].isOverride ==> !ms[i].hasDefaults)
        && (forall j :: 0 <= j < i ==> ms[j].name != ms[i].name)
        && (forall k: nat :: !FieldAt(prog, c, k, ms[i].name))
    {
      AcceptsIs(prog, rank, c, i);
    }
    forall f: Name ensures HasField(prog, rank, p, f) <==> exists k: nat :: FieldAt(prog, p, k, f) {
      FieldIs(prog, rank, p, f);
    }
  }

  lemma {:induction false} NoField(prog: seq<ClassDecl>, rank: seq<nat>)
    requires Acyclic(prog, rank)
    ensures forall name :: !HasField(prog, rank, -1, name)
  {
  }

  lemma {:induction false} ParentAccepted(prog: seq<ClassDecl>, rank: seq<nat>, c: nat)
    requires Acyclic(prog, rank) && c < |prog| && Accepted(prog, rank, c)
    ensures Accepted(prog, rank, prog[c].parent)
  {
    hide Number;
  }

  lemma {:induction false} AllLawful(prog: seq<ClassDecl>, rank: seq<nat>, c: int)
    requires Acyclic(prog, rank) && -1 <= c < |prog| && forall d :: 0 <= d < |prog| ==> Lawful(prog, d)
    ensures Accepted(prog, rank, c)
    decreases if c < 0 then 0 else rank[c] + 1
  {
    hide LayoutOf, Lawful;
    if c >= 0 {
      AllLawful(prog, rank, prog[c].parent);
      AcceptedIffLawful(prog, rank, c);
    }
  }

  /** The pass accepts a program if and only if every chain of parents ends and every class is lawful. */
  lemma {:induction false} PassIffLawful(prog: seq<ClassDecl>)
    requires Declared(prog)
    ensures Comes(prog, 0, Fine) <==>
      forall c :: 0 <= c < |prog| ==> Rooted(ParentsOf(prog), c) && Lawful(prog, c)
  {
    hide LayoutOf, Rooted, Heights, Lawful, Comes;
    PassEndsExactly(prog, 0);
    if Comes(prog, 0, Fine) {
      FineIsAcyclic(prog);
      forall c | 0 <= c < |prog| ensures Rooted(ParentsOf(prog), c) && Lawful(prog, c) {
        assert Rising(prog, c);
        ParentAccepted(prog, Heights(prog), c);
        AcceptedIffLawful(prog, Heights(prog), c);
      }
    }
    if forall c :: 0 <= c < |prog| ==> Rooted(ParentsOf(prog), c) && Lawful(prog, c) {
      forall c | 0 <= c < |prog| ensures Tree(prog)[c] == prog[c] { TreeAt(prog, c); }
      assert Tree(prog) == prog;
      forall c | 0 <= c < |prog| ensures Rising(prog, c) && VerdictOn(prog, c).Fine? {
        AllLawful(prog, Heights(prog), c);
        if Cyclic(ParentsOf(prog), c) { CyclicIsNotRising(prog, c); }
      }
    }
  }
}
