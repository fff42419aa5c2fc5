/** The dictionary of a categorical column: distinct texts packed in an arena, found again through
    an open-addressed index that probes linearly.  It behaves as a plain list of distinct texts. */
module Dictionary {
  import opened Basics
  import opened ColTable

  // ---------------------------------------------------------------- the list it stands for

  function IndexOf(list: seq<Text>, s: Text): (k: nat)
    requires s in list
    ensures k < |list| && list[k] == s
  {
    if list[0] == s then 0 else 1 + IndexOf(list[1..], s)
  }

  /** Interning on the plain list: the old code of a known text, a new last code otherwise. */
  function Interned(list: seq<Text>, s: Text): (r: (seq<Text>, nat)) {
    if s in list then (list, IndexOf(list, s)) else (list + [s], |list|)
  }

  function InternAll(list: seq<Text>, ss: seq<Text>): (r: (seq<Text>, seq<nat>))
    ensures |r.1| == |ss|
    decreases |ss|
  {
    if ss == [] then (list, []) else
    var (list1, code) := Interned(list, ss[0]);
    var (list2, codes) := InternAll(list1, ss[1..]);
    (list2, [code] + codes)
  }

  lemma {:induction false} InternAllGrows(list: seq<Text>, ss: seq<Text>)
    requires Distinct(list)
    ensures var (after, codes) := InternAll(list, ss);
      && list <= after && Distinct(after)
      && forall i :: 0 <= i < |ss| ==> codes[i] < |after| && after[codes[i]] == ss[i]
    decreases |ss|
  {
    if ss != [] {
      var (list1, code) := Interned(list, ss[0]);
      InternAllGrows(list1, ss[1..]);
      var (after, codes) := InternAll(list1, ss[1..]);
      forall i | 0 <= i < |ss| ensures ([code] + codes)[i] < |after| && after[([code] + codes)[i]] == ss[i] {
        if i > 0 { assert ss[i] == ss[1..][i - 1]; }
      }
    }
  }

  /** Over any sequence of interns, texts get equal codes exactly when they are equal, every code
      names its text, and no earlier code changes its meaning. */
  lemma {:induction false} CodesAreTexts(list: seq<Text>, ss: seq<Text>, i: nat, j: nat)
    requires Distinct(list) && i < |ss| && j < |ss|
    ensures var (after, codes) := InternAll(list, ss);
      && (codes[i] == codes[j] <==> ss[i] == ss[j])
      && codes[i] < |after| && after[codes[i]] == ss[i]
      && list <= after
  {
    InternAllGrows(list, ss);
    var (after, codes) := InternAll(list, ss);
    assert after[codes[i]] == ss[i] && after[codes[j]] == ss[j];
  }

  // ---------------------------------------------------------------- the open-addressed index

  /** A home slot. The index size is a power of two, so masking the hash is the remainder. */
  function Home(h: nat, size: nat): (b: nat)
    requires size > 0
    ensures b < size
  {
    h % size
  }

  /** The slot `k` steps on from `b`, going round at the end. */
  function Off(b: nat, k: nat, size: nat): (r: nat)
    requires b < size && k < size
    ensures r < size
  {
    if b + k < size then b + k else b + k - size
  }

  /** Entry `e` sits `k` steps from its home, and every slot before it on that way is taken. */
  ghost predicate Sits(hash: Text -> nat, texts: seq<Text>, slots: seq<nat>, e: nat, k: nat)
    requires |slots| > 0 && e < |texts|
  {
    && k < |slots|
    && slots[Off(Home(hash(texts[e]), |slots|), k, |slots|)] == e + 1
    && forall j :: 0 <= j < k ==> slots[Off(Home(hash(texts[e]), |slots|), j, |slots|)] != 0
  }

  /** The index: each entry sits somewhere, and each taken slot holds the entry sitting there.
      A slot holds an entry's number plus one; 0 is empty. */
  ghost predicate Indexed(hash: Text -> nat, texts: seq<Text>, slots: seq<nat>, off: seq<nat>) {
    && |slots| > 0 && |off| == |texts|
    && (forall e :: 0 <= e < |texts| ==> Sits(hash, texts, slots, e, off[e]))
    && (forall x :: 0 <= x < |slots| && slots[x] != 0 ==>
          slots[x] <= |texts| && x == Off(Home(hash(texts[slots[x] - 1]), |slots|), off[slots[x] - 1], |slots|))
  }

  /** `k` steps from the home of `s` is the first empty slot. */
  ghost predicate Hole(hash: Text -> nat, slots: seq<nat>, s: Text, k: nat)
    requires |slots| > 0
  {
    && k < |slots| && slots[Off(Home(hash(s), |slots|), k, |slots|)] == 0
    && forall j :: 0 <= j < k ==> slots[Off(Home(hash(s), |slots|), j, |slots|)] != 0
  }

  /** Taking the first empty slot keeps the index. */
  lemma {:induction false} InsertIndexed(hash: Text -> nat, texts: seq<Text>, slots: seq<nat>, off: seq<nat>, s: Text,
          k: nat)
    requires Indexed(hash, texts, slots, off) && Hole(hash, slots, s, k)
    ensures Indexed(hash, texts + [s], slots[Off(Home(hash(s), |slots|), k, |slots|) := |texts| + 1], off + [k])
  {
    hide Home, Off;
    var x := Off(Home(hash(s), |slots|), k, |slots|);
    var texts1, slots1, off1 := texts + [s], slots[x := |texts| + 1], off + [k];
    assert forall y :: 0 <= y < |slots| && slots[y] != 0 ==> slots1[y] == slots[y];
    forall e | 0 <= e < |texts1| ensures Sits(hash, texts1, slots1, e, off1[e]) {
      if e < |texts| { assert Sits(hash, texts, slots, e, off[e]); }
    }
  }

  /** A text whose probing meets no equal entry before an empty slot is not in the list. */
  lemma {:induction false} HoleMeansAbsent(hash: Text -> nat, texts: seq<Text>, slots: seq<nat>, off: seq<nat>, s: Text,
          k: nat)
    requires Indexed(hash, texts, slots, off) && Hole(hash, slots, s, k)
    requires forall j :: 0 <= j < k ==>
      var x := slots[Off(Home(hash(s), |slots|), j, |slots|)]; x > 0 && x <= |texts| && texts[x - 1] != s
    ensures s !in texts
  {
    hide Home, Off;
    forall e | 0 <= e < |texts| ensures texts[e] != s {
      assert Sits(hash, texts, slots, e, off[e]);
    }
  }

  lemma {:induction false} HoleHere(hash: Text -> nat, texts: seq<Text>, slots: seq<nat>, s: Text, k: nat)
    requires k < |slots| && slots[Off(Home(hash(s), |slots|), k, |slots|)] == 0
    requires forall j :: 0 <= j < k ==>
      var x := slots[Off(Home(hash(s), |slots|), j, |slots|)]; x > 0 && x <= |texts| && texts[x - 1] != s
    ensures Hole(hash, slots, s, k)
  {
  }

  lemma {:induction false} TakenSlot(hash: Text -> nat, texts: seq<Text>, slots: seq<nat>, off: seq<nat>, x: nat)
    requires Indexed(hash, texts, slots, off) && x < |slots| && slots[x] != 0
    ensures slots[x] <= |texts|
  {
  }

  lemma {:induction false} Spots(n: nat) returns (s: set<nat>)
    ensures |s| == n && forall x :: x in s <==> 0 <= x < n
  {
    if n == 0 { s := {}; } else {
      s := Spots(n - 1);
      s := s + {n - 1};
    }
  }

  lemma {:induction false} FewSpots(at: seq<nat>) returns (s: set<nat>)
    ensures |s| <= |at| && forall x :: x in s <==> x in at
  {
    if at == [] { s := {}; } else {
      s := FewSpots(at[1..]);
      assert at == [at[0]] + at[1..];
      s := s + {at[0]};
    }
  }

  function Seats(hash: Text -> nat, texts: seq<Text>, size: nat, off: seq<nat>): (r: seq<nat>)
    requires size > 0 && |off| == |texts| && forall e :: 0 <= e < |off| ==> off[e] < size
    ensures |r| == |texts| && forall e :: 0 <= e < |texts| ==> r[e] == Off(Home(hash(texts[e]), size), off[e], size)
  {
    seq<nat>(|texts|, e requires 0 <= e < |texts| => Off(Home(hash(texts[e]), size), off[e], size))
  }

  /** Fewer entries than slots leave an empty slot, so probing ends. */
  lemma {:induction false} HoleExists(hash: Text -> nat, texts: seq<Text>, slots: seq<nat>, off: seq<nat>,
          b: nat) returns (k: nat)
    requires Indexed(hash, texts, slots, off) && |texts| < |slots| && b < |slots|
    ensures k < |slots| && slots[Off(b, k, |slots|)] == 0
  {
    hide Home;
    forall e | 0 <= e < |texts| ensures off[e] < |slots| { assert Sits(hash, texts, slots, e, off[e]); }
    var at := Seats(hash, texts, |slots|, off);
    var few := FewSpots(at);
    var all := Spots(|slots|);
    assert exists x :: x in all && x !in few by {
      if all <= few { Subset(all, few); }
    }
    forall y | 0 <= y < |slots| && slots[y] != 0 ensures y in at { assert at[slots[y] - 1] == y; }
    var x :| x in all && x !in few;
    k := if b <= x then x - b else x + |slots| - b;
  }

  lemma {:induction false} Subset(a: set<nat>, b: set<nat>)
    requires a <= b
    ensures |a| <= |b|
  {
    assert b == a + (b - a);
  }

  lemma {:induction false} OffZero(b: nat, size: nat)
    requires b < size
    ensures Off(b, 0, size) == b
  {
  }

  lemma {:induction false} OffNext(b: nat, k: nat, size: nat)
    requires b < size && k < size
    ensures k + 1 < size ==> Off(b, k + 1, size) == if Off(b, k, size) + 1 == size then 0 else Off(b, k, size) + 1
  {
  }

  lemma {:induction false} DistinctSnoc(list: seq<Text>, s: Text)
    requires Distinct(list) && s !in list
    ensures Distinct(list + [s])
  {
  }

  lemma {:induction false} EmptyIndexed(hash: Text -> nat, slots: seq<nat>)
    requires |slots| > 0 && forall x :: 0 <= x < |slots| ==> slots[x] == 0
    ensures Indexed(hash, [], slots, [])
  {
  }

  /** Step on from home to the first empty slot. */
  method Seek(hash: Text -> nat, slots: array<nat>, s: Text, ghost texts: seq<Text>,
          ghost off: seq<nat>) returns (x: nat, ghost k: nat)
    requires Indexed(hash, texts, slots[..], off) && |texts| < slots.Length
    ensures Hole(hash, slots[..], s, k) && x == Off(Home(hash(s), slots.Length), k, slots.Length)
  {
    hide Home, Off, Sits;
    ghost var size := slots.Length;
    var h := Home(hash(s), slots.Length);
    ghost var free := HoleExists(hash, texts, slots[..], off, h);
    k, x := 0, h;
    OffZero(h, size);
    while slots[x] != 0
      invariant k < size && x == Off(h, k, size) && k <= free
      invariant forall j :: 0 <= j < k ==> slots[Off(h, j, size)] != 0
      decreases free - k
    {
      OffNext(h, k, size);
      x := if x + 1 == slots.Length then 0 else x + 1;
      k := k + 1;
    }
  }

  class Dict {
    const hash: Text -> nat
    var arena: seq<nat>
    var doff: seq<nat>
    var dlen: seq<nat>
    var dhash: array<nat>
    ghost var off: seq<nat>

    /** Every entry's span lies in the arena. */
    ghost predicate Spans()
      reads `arena, `doff, `dlen
    {
      |doff| == |dlen| && forall e :: 0 <= e < |doff| ==> doff[e] + dlen[e] <= |arena|
    }

    function TextOf(e: nat): Text
      reads `arena, `doff, `dlen
      requires Spans() && e < |doff|
    {
      arena[doff[e]..doff[e] + dlen[e]]
    }

    /** The first `n` texts. */
    ghost function Upto(n: nat): (r: seq<Text>)
      reads `arena, `doff, `dlen
      requires Spans() && n <= |doff|
      ensures |r| == n && forall e :: 0 <= e < n ==> r[e] == TextOf(e)
    {
      if n == 0 then [] else Upto(n - 1) + [TextOf(n - 1)]
    }

    ghost function Contents(): seq<Text>
      reads `arena, `doff, `dlen
      requires Spans()
    {
      Upto(|doff|)
    }

    /** An index of one slot stands for the one not yet allocated; the load stays at most half. */
    ghost predicate Valid()
      reads this, dhash
    {
      && Spans() && Distinct(Contents())
      && Indexed(hash, Contents(), dhash[..], off)
      && dhash.Length > 0 && |doff| * 2 <= dhash.Length
    }

    constructor (hash: Text -> nat)
      ensures Valid() && Contents() == [] && fresh(dhash) && this.hash == hash
    {
      this.hash := hash;
      arena, doff, dlen, off := [], [], [], [];
      dhash := new nat[1](_ => 0);
    }

    /** A bigger index, every entry put in again in order. */
    method Rehash(size: nat)
      requires Spans() && size > |doff|
      modifies `dhash, `off
      ensures fresh(dhash) && dhash.Length == size && Indexed(hash, Contents(), dhash[..], off)
    {
      hide Hole, Off, Home, Indexed, Upto;
      ghost var texts := Contents();
      var nh := new nat[size](_ => 0);
      ghost var seats: seq<nat> := [];
      EmptyIndexed(hash, nh[..]);
      var e := 0;
      while e < |doff|
        invariant e <= |doff| && Spans() && Contents() == texts
        invariant Indexed(hash, texts[..e], nh[..], seats)
      {
        var s := TextOf(e);
        var x, k := Seek(hash, nh, s, texts[..e], seats);
        InsertIndexed(hash, texts[..e], nh[..], seats, s, k);
        assert texts[..e + 1] == texts[..e] + [s];
        nh[x] := e + 1;
        seats := seats + [k];
        e := e + 1;
      }
      assert texts[..e] == texts;
      dhash, off := nh, seats;
    }

    /** Room for one more entry at a load of at most half. */
    method MakeRoom()
      requires Valid()
      modifies `dhash, `off
      ensures Valid() && Contents() == old(Contents()) && |doff| * 2 + 2 <= dhash.Length
      ensures dhash == old(dhash) || fresh(dhash)
    {
      hide Indexed, Distinct;
      var mask := dhash.Length - 1;
      if mask == 0 {
        Rehash(16);
      } else if |doff| * 2 >= mask {
        Rehash(mask * 2 + 2);
      }
    }

    /** cat_intern. */
    method Intern(s: Text) returns (code: nat)
      requires Valid()
      modifies this, dhash
      ensures Valid() && (dhash == old(dhash) || fresh(dhash))
      ensures (Contents(), code) == Interned(old(Contents()), s)
    {
      hide Indexed, Distinct, Hole, IndexOf, Upto, Home, Off;
      ghost var list := Contents();
      MakeRoom();
      var found, at, k := Lookup(s);
      if found {
        OnlyPlace(list, at, s);
        return at;
      }
      InsertIndexed(hash, list, dhash[..], off, s, k);
      DistinctSnoc(list, s);
      code := Append(s);
      dhash[at] := code + 1;
      off := off + [k];
    }

    /** The probe: the entry whose text is `s`, or the first empty slot. */
    method Lookup(s: Text) returns (found: bool, at: nat, ghost k: nat)
      requires Spans() && Indexed(hash, Contents(), dhash[..], off) && |doff| < dhash.Length
      ensures found ==> at < |doff| && Contents()[at] == s
      ensures !found ==> s !in Contents() && Hole(hash, dhash[..], s, k)
      ensures !found ==> at == Off(Home(hash(s), dhash.Length), k, dhash.Length)
    {
      hide Home, Off, Sits, Distinct, Upto, Indexed, Hole;
      ghost var list, size := Contents(), dhash.Length;
      var h := Home(hash(s), dhash.Length);
      ghost var free := HoleExists(hash, list, dhash[..], off, h);
      k := 0;
      var x := h;
      OffZero(h, size);
      while dhash[x] != 0
        invariant k < size && x == Off(h, k, size) && k <= free
        invariant forall j :: 0 <= j < k ==>
          var y := dhash[Off(h, j, size)]; 0 < y <= |list| && list[y - 1] != s
        decreases free - k
      {
        TakenSlot(hash, list, dhash[..], off, x);
        var e := dhash[x] - 1;
        if TextOf(e) == s { return true, e, k; }
        OffNext(h, k, size);
        x := if x + 1 == dhash.Length then 0 else x + 1;
        k := k + 1;
      }
      HoleHere(hash, list, dhash[..], s, k);
      HoleMeansAbsent(hash, list, dhash[..], off, s, k);
      return false, x, k;
    }

    /** A new entry at the end of the arena. */
    method Append(s: Text) returns (e: nat)
      requires Spans()
      modifies `arena, `doff, `dlen
      ensures Spans() && e == |old(Contents())| && Contents() == old(Contents()) + [s] && |doff| == e + 1
    {
      e := |doff|;
      ghost var was, old0 := Contents(), arena;
      doff, dlen, arena := doff + [|arena|], dlen + [|s|], arena + s;
      forall i | 0 <= i < e ensures TextOf(i) == was[i] {
        assert arena[doff[i]..doff[i] + dlen[i]] == old0[doff[i]..doff[i] + dlen[i]];
      }
      assert Upto(e) == was && TextOf(e) == s;
    }
  }

  lemma {:induction false} OnlyPlace(list: seq<Text>, e: nat, s: Text)
    requires Distinct(list) && e < |list| && list[e] == s
    ensures s in list && IndexOf(list, s) == e
  {
  }
}
