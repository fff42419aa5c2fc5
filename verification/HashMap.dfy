/** The runtime's string map: chained buckets that double when chains average four entries.
    It behaves as a finite map; `keys` and `values` walk the same entries in the same order. */
module HashMap {
  import opened Basics

  type Text = seq<nat>

  datatype Entry = Entry(key: Text, val: nat)

  /** The value listed for `k`, by its first entry. */
  function Val(list: seq<Entry>, k: Text): Option<nat> {
    if list == [] then None else if list[0].key == k then Some(list[0].val) else Val(list[1..], k)
  }

  ghost predicate KeysDiffer(list: seq<Entry>) {
    forall i, j :: 0 <= i < j < |list| ==> list[i].key != list[j].key
  }

  /** The bucket of a key. */
  function Bucket(h: nat, n: nat): (b: nat)
    requires n > 0
    ensures b < n
  {
    h % n
  }

  /** All entries, bucket after bucket. */
  function Flat(bs: seq<seq<Entry>>): seq<Entry> {
    if bs == [] then [] else Flat(bs[..|bs| - 1]) + bs[|bs| - 1]
  }

  /** Every key in its own bucket, once. */
  ghost predicate Placed(hash: Text -> nat, bs: seq<seq<Entry>>) {
    && |bs| > 0
    && (forall b :: 0 <= b < |bs| ==> KeysDiffer(bs[b]))
    && (forall b, i :: 0 <= b < |bs| && 0 <= i < |bs[b]| ==> Bucket(hash(bs[b][i].key), |bs|) == b)
  }

  /** The buckets hold exactly the entries of `model`. */
  ghost predicate Models(hash: Text -> nat, bs: seq<seq<Entry>>, model: map<Text, nat>)
    requires |bs| > 0
  {
    forall k :: Val(bs[Bucket(hash(k), |bs|)], k) == if k in model then Some(model[k]) else None
  }

  lemma {:induction false} ValNone(list: seq<Entry>, k: Text)
    ensures Val(list, k) == None <==> forall i :: 0 <= i < |list| ==> list[i].key != k
  {
    if list != [] { ValNone(list[1..], k); }
  }

  lemma {:induction false} ValAt(list: seq<Entry>, i: nat)
    requires i < |list| && forall j :: 0 <= j < i ==> list[j].key != list[i].key
    ensures Val(list, list[i].key) == Some(list[i].val)
  {
    if i > 0 { ValAt(list[1..], i - 1); }
  }

  lemma {:induction false} ValAppend(a: seq<Entry>, b: seq<Entry>, k: Text)
    ensures Val(a + b, k) == if Val(a, k) != None then Val(a, k) else Val(b, k)
  {
    if a == [] {
      assert a + b == b;
    } else {
      ValAppend(a[1..], b, k);
      assert (a + b)[0] == a[0] && (a + b)[1..] == a[1..] + b;
    }
  }

  lemma {:induction false} ValSet(list: seq<Entry>, i: nat, v: nat, k: Text)
    requires i < |list| && k != list[i].key
    ensures Val(list[i := Entry(list[i].key, v)], k) == Val(list, k)
  {
    var e := Entry(list[i].key, v);
    if i > 0 {
      ValSet(list[1..], i - 1, v, k);
      assert list[i := e][1..] == list[1..][i - 1 := e];
    } else {
      assert list[i := e][1..] == list[1..];
    }
  }

  lemma {:induction false} ValCut(list: seq<Entry>, i: nat, k: Text)
    requires i < |list| && k != list[i].key
    ensures Val(list[..i] + list[i + 1..], k) == Val(list, k)
  {
    var cut := list[..i] + list[i + 1..];
    if i > 0 {
      ValCut(list[1..], i - 1, k);
      assert cut[0] == list[0] && cut[1..] == list[1..][..i - 1] + list[1..][i..];
    } else {
      assert cut == list[1..];
    }
  }

  /** Looking in a key's own bucket is looking through everything. */
  lemma {:induction false} ValFlat(hash: Text -> nat, bs: seq<seq<Entry>>, n: nat, k: Text)
    requires Placed(hash, bs) && n <= |bs|
    ensures Val(Flat(bs[..n]), k) == if Bucket(hash(k), |bs|) < n then Val(bs[Bucket(hash(k), |bs|)], k) else None
    decreases n
  {
    hide Bucket;
    if n > 0 {
      ValFlat(hash, bs, n - 1, k);
      assert bs[..n][..n - 1] == bs[..n - 1];
      ValAppend(Flat(bs[..n - 1]), bs[n - 1], k);
      if Bucket(hash(k), |bs|) != n - 1 {
        ValNone(bs[n - 1], k);
        var last := bs[n - 1];
        forall i | 0 <= i < |last| ensures last[i].key != k { assert Bucket(hash(bs[n - 1][i].key), |bs|) == n - 1; }
      }
    }
  }

  lemma {:induction false} DifferAppend(a: seq<Entry>, b: seq<Entry>)
    requires KeysDiffer(a) && KeysDiffer(b)
    requires forall j :: 0 <= j < |b| ==> Val(a, b[j].key) == None
    ensures KeysDiffer(a + b)
  {
    var c := a + b;
    forall i, j | 0 <= i < j < |c| ensures c[i].key != c[j].key {
      if i < |a| && j >= |a| {
        ValNone(a, b[j - |a|].key);
      } else if i >= |a| {
        assert c[i] == b[i - |a|] && c[j] == b[j - |a|];
      }
    }
  }

  lemma {:induction false} FlatDiffer(hash: Text -> nat, bs: seq<seq<Entry>>, n: nat)
    requires Placed(hash, bs) && n <= |bs|
    ensures KeysDiffer(Flat(bs[..n]))
    decreases n
  {
    hide Bucket;
    if n > 0 {
      FlatDiffer(hash, bs, n - 1);
      assert bs[..n][..n - 1] == bs[..n - 1];
      var last := bs[n - 1];
      forall j | 0 <= j < |last| ensures Val(Flat(bs[..n - 1]), last[j].key) == None {
        ValFlat(hash, bs, n - 1, last[j].key);
        assert Bucket(hash(bs[n - 1][j].key), |bs|) == n - 1;
      }
      DifferAppend(Flat(bs[..n - 1]), last);
    }
  }

  // ---------------------------------------------------------------- single changes of one bucket

  lemma {:induction false} PlaceOne(hash: Text -> nat, bs: seq<seq<Entry>>, b: nat, chain: seq<Entry>)
    requires Placed(hash, bs) && b < |bs| && KeysDiffer(chain)
    requires forall i :: 0 <= i < |chain| ==> Bucket(hash(chain[i].key), |bs|) == b
    ensures Placed(hash, bs[b := chain])
  {
    hide Bucket;
  }

  lemma {:induction false} ModelOne(hash: Text -> nat, bs: seq<seq<Entry>>, chain: seq<Entry>, model: map<Text, nat>,
          model1: map<Text, nat>, key: Text)
    requires |bs| > 0 && Models(hash, bs, model)
    requires forall k :: k != key ==> (k in model1 <==> k in model) && (k in model ==> model1[k] == model[k])
    requires forall k :: k != key ==> Val(chain, k) == Val(bs[Bucket(hash(key), |bs|)], k)
    requires Val(chain, key) == if key in model1 then Some(model1[key]) else None
    ensures Models(hash, bs[Bucket(hash(key), |bs|) := chain], model1)
  {
    hide Bucket;
  }

  /** A key's value replaced in place. */
  lemma {:induction false} Overwrite(hash: Text -> nat, bs: seq<seq<Entry>>, model: map<Text, nat>, key: Text, i: nat,
          v: nat)
    requires Placed(hash, bs) && Models(hash, bs, model)
    requires i < |bs[Bucket(hash(key), |bs|)]| && bs[Bucket(hash(key), |bs|)][i].key == key
    ensures key in model && model[key] == bs[Bucket(hash(key), |bs|)][i].val
    ensures var b := Bucket(hash(key), |bs|);
            var bs1 := bs[b := bs[b][i := Entry(key, v)]];
            Placed(hash, bs1) && Models(hash, bs1, model[key := v])
  {
    hide Bucket;
    var b := Bucket(hash(key), |bs|);
    var chain := bs[b][i := Entry(key, v)];
    ValAt(bs[b], i);
    ValAt(chain, i);
    forall k | k != key ensures Val(chain, k) == Val(bs[b], k) { ValSet(bs[b], i, v, k); }
    PlaceOne(hash, bs, b, chain);
    ModelOne(hash, bs, chain, model, model[key := v], key);
  }

  /** A new key at the end of its chain. */
  lemma {:induction false} AddLast(hash: Text -> nat, bs: seq<seq<Entry>>, model: map<Text, nat>, key: Text, v: nat)
    requires Placed(hash, bs) && Models(hash, bs, model)
    requires forall i :: 0 <= i < |bs[Bucket(hash(key), |bs|)]| ==> bs[Bucket(hash(key), |bs|)][i].key != key
    ensures key !in model
    ensures var b := Bucket(hash(key), |bs|);
            var bs1 := bs[b := bs[b] + [Entry(key, v)]];
            Placed(hash, bs1) && Models(hash, bs1, model[key := v])
  {
    hide Bucket;
    var b := Bucket(hash(key), |bs|);
    var chain := bs[b] + [Entry(key, v)];
    ValNone(bs[b], key);
    forall k ensures Val(chain, k) == if k == key then Some(v) else Val(bs[b], k) {
      ValAppend(bs[b], [Entry(key, v)], k);
      ValNone([Entry(key, v)], k);
    }
    PlaceOne(hash, bs, b, chain);
    ModelOne(hash, bs, chain, model, model[key := v], key);
  }

  /** A key at the front of its chain, as growing relinks it. */
  lemma {:induction false} AddFirst(hash: Text -> nat, bs: seq<seq<Entry>>, model: map<Text, nat>, e: Entry)
    requires Placed(hash, bs) && Models(hash, bs, model) && e.key !in model
    ensures var b := Bucket(hash(e.key), |bs|);
            var bs1 := bs[b := [e] + bs[b]];
            Placed(hash, bs1) && Models(hash, bs1, model[e.key := e.val])
  {
    hide Bucket;
    var b := Bucket(hash(e.key), |bs|);
    ValNone(bs[b], e.key);
    assert ([e] + bs[b])[1..] == bs[b];
    PlaceOne(hash, bs, b, [e] + bs[b]);
    ModelOne(hash, bs, [e] + bs[b], model, model[e.key := e.val], e.key);
  }

  function MapMinus(m: map<Text, nat>, key: Text): map<Text, nat> {
    map k | k in m && k != key :: m[k]
  }

  /** A key taken out. */
  lemma {:induction false} CutOut(hash: Text -> nat, bs: seq<seq<Entry>>, model: map<Text, nat>, key: Text, i: nat)
    requires Placed(hash, bs) && Models(hash, bs, model)
    requires i < |bs[Bucket(hash(key), |bs|)]| && bs[Bucket(hash(key), |bs|)][i].key == key
    ensures key in model
    ensures var b := Bucket(hash(key), |bs|);
            var bs1 := bs[b := bs[b][..i] + bs[b][i + 1..]];
            Placed(hash, bs1) && Models(hash, bs1, MapMinus(model, key))
  {
    hide Bucket;
    var b := Bucket(hash(key), |bs|);
    var chain := bs[b][..i] + bs[b][i + 1..];
    ValAt(bs[b], i);
    assert forall j :: 0 <= j < |chain| ==> chain[j] == bs[b][if j < i then j else j + 1];
    ValNone(chain, key);
    forall k | k != key ensures Val(chain, k) == Val(bs[b], k) { ValCut(bs[b], i, k); }
    PlaceOne(hash, bs, b, chain);
    ModelOne(hash, bs, chain, model, MapMinus(model, key), key);
  }

  /** The map of a list of entries. */
  function MapOf(list: seq<Entry>): map<Text, nat> {
    if list == [] then map[] else MapOf(list[..|list| - 1])[list[|list| - 1].key := list[|list| - 1].val]
  }

  lemma {:induction false} MapOfVal(list: seq<Entry>, k: Text)
    requires KeysDiffer(list)
    ensures Val(list, k) == if k in MapOf(list) then Some(MapOf(list)[k]) else None
    decreases |list|
  {
    if list != [] {
      var n := |list| - 1;
      MapOfVal(list[..n], k);
      assert list == list[..n] + [list[n]];
      ValAppend(list[..n], [list[n]], k);
      ValNone(list[..n], list[n].key);
    }
  }

  lemma {:induction false} MapOfSize(list: seq<Entry>)
    requires KeysDiffer(list)
    ensures |MapOf(list)| == |list|
    decreases |list|
  {
    if list != [] {
      var n := |list| - 1;
      MapOfSize(list[..n]);
      MapOfVal(list[..n], list[n].key);
      ValNone(list[..n], list[n].key);
    }
  }

  /** The walk over all buckets lists each entry of the map once. */
  lemma {:induction false} WalkIsMap(hash: Text -> nat, bs: seq<seq<Entry>>, model: map<Text, nat>)
    requires Placed(hash, bs) && Models(hash, bs, model)
    ensures KeysDiffer(Flat(bs)) && MapOf(Flat(bs)) == model
  {
    hide Bucket, Flat;
    assert bs[..|bs|] == bs;
    FlatDiffer(hash, bs, |bs|);
    forall k ensures (k in MapOf(Flat(bs)) <==> k in model) && (k in model ==> MapOf(Flat(bs))[k] == model[k]) {
      ValFlat(hash, bs, |bs|, k);
      MapOfVal(Flat(bs), k);
    }
  }

  lemma {:induction false} PlacedNonempty(hash: Text -> nat, bs: seq<seq<Entry>>)
    requires Placed(hash, bs)
    ensures |bs| > 0
  {
  }

  lemma {:induction false} NoneYet(hash: Text -> nat, bs: seq<seq<Entry>>)
    requires |bs| > 0 && forall b :: 0 <= b < |bs| ==> bs[b] == []
    ensures Placed(hash, bs) && Models(hash, bs, map[])
    ensures MapOf([]) == map[]
  {
  }

  /** The walk so far, one entry on. */
  lemma {:induction false} FlatNext(bs: seq<seq<Entry>>, b: nat, i: nat)
    requires b < |bs| && i <= |bs[b]|
    ensures i == 0 ==> Flat(bs[..b]) + bs[b][..i] == Flat(bs[..b])
    ensures i > 0 ==> Flat(bs[..b]) + bs[b][..i] == Flat(bs[..b]) + bs[b][..i - 1] + [bs[b][i - 1]]
    ensures i == |bs[b]| ==> Flat(bs[..b + 1]) == Flat(bs[..b]) + bs[b][..i]
  {
    assert bs[..b + 1][..b] == bs[..b];
    if i > 0 { assert bs[b][..i] == bs[b][..i - 1] + [bs[b][i - 1]]; }
    if i == |bs[b]| { assert bs[b][..i] == bs[b]; }
  }

  lemma {:induction false} FlatNone(bs: seq<seq<Entry>>)
    ensures Flat(bs[..0]) == [] && MapOf([]) == map[]
  {
  }

  lemma {:induction false} FlatPrefix(bs: seq<seq<Entry>>, b: nat)
    requires b <= |bs|
    ensures Flat(bs[..b]) <= Flat(bs)
    decreases |bs| - b
  {
    if b < |bs| {
      FlatPrefix(bs, b + 1);
      assert bs[..b + 1][..b] == bs[..b];
    } else {
      assert bs[..b] == bs;
    }
  }

  /** No key is met twice on the walk. */
  lemma {:induction false} NewKey(done: seq<Entry>, chain: seq<Entry>, i: nat)
    requires KeysDiffer(done + chain) && i < |chain|
    ensures chain[i].key !in MapOf(done + chain[..i])
  {
    var all, part := done + chain, done + chain[..i];
    assert all[|part|] == chain[i] && part == all[..|part|];
    assert forall j :: 0 <= j < |part| ==> part[j] == all[j];
    MapOfVal(part, chain[i].key);
    ValNone(part, chain[i].key);
  }

  lemma {:induction false} MapSnoc(list: seq<Entry>)
    requires list != []
    ensures var n := |list| - 1; MapOf(list) == MapOf(list[..n])[list[n].key := list[n].val]
  {
  }

  lemma {:induction false} MergeNext(bs: seq<seq<Entry>>, b: nat, i: nat, mine: map<Text, nat>)
    requires b < |bs| && i < |bs[b]|
    ensures var done := Flat(bs[..b]) + bs[b][..i];
      mine + MapOf(Flat(bs[..b]) + bs[b][..i + 1]) == (mine + MapOf(done))[bs[b][i].key := bs[b][i].val]
  {
    var done := Flat(bs[..b]) + bs[b][..i];
    FlatNext(bs, b, i + 1);
    MapSnoc(done + [bs[b][i]]);
    assert (done + [bs[b][i]])[..|done|] == done;
  }

  lemma {:induction false} SameSize(m: map<Text, nat>, key: Text, v: nat)
    requires key in m
    ensures |m[key := v]| == |m|
  {
    assert m[key := v].Keys == m.Keys;
  }

  lemma {:induction false} MinusSize(m: map<Text, nat>, key: Text)
    requires key in m
    ensures |MapMinus(m, key)| == |m| - 1
  {
    assert MapMinus(m, key).Keys == m.Keys - {key};
  }

  lemma {:induction false} EntryHeld(hash: Text -> nat, bs: seq<seq<Entry>>, model: map<Text, nat>, b: nat, i: nat)
    requires Placed(hash, bs) && Models(hash, bs, model) && b < |bs| && i < |bs[b]|
    ensures bs[b][i].key in model && model[bs[b][i].key] == bs[b][i].val
  {
    hide Bucket;
    ValAt(bs[b], i);
    assert Bucket(hash(bs[b][i].key), |bs|) == b;
  }

  function KeysOf(list: seq<Entry>): (r: seq<Text>)
    ensures |r| == |list| && forall i :: 0 <= i < |list| ==> r[i] == list[i].key
  {
    seq(|list|, i requires 0 <= i < |list| => list[i].key)
  }

  function ValsOf(list: seq<Entry>): (r: seq<nat>)
    ensures |r| == |list| && forall i :: 0 <= i < |list| ==> r[i] == list[i].val
  {
    seq(|list|, i requires 0 <= i < |list| => list[i].val)
  }

  lemma {:induction false} KeysAppend(a: seq<Entry>, b: seq<Entry>)
    ensures KeysOf(a + b) == KeysOf(a) + KeysOf(b)
  {
  }

  lemma {:induction false} ValsAppend(a: seq<Entry>, b: seq<Entry>)
    ensures ValsOf(a + b) == ValsOf(a) + ValsOf(b)
  {
  }

  /** What keys() and values() list: each key of the map once, with its value at the same place. */
  lemma {:induction false} ListingsAreMap(hash: Text -> nat, bs: seq<seq<Entry>>, model: map<Text, nat>)
    requires Placed(hash, bs) && Models(hash, bs, model)
    ensures forall i, j :: 0 <= i < j < |Flat(bs)| ==> Flat(bs)[i].key != Flat(bs)[j].key
    ensures forall i :: 0 <= i < |Flat(bs)| ==> Flat(bs)[i].key in model && model[Flat(bs)[i].key] == Flat(bs)[i].val
    ensures forall k :: k in model ==> exists i :: 0 <= i < |Flat(bs)| && Flat(bs)[i].key == k
    ensures |Flat(bs)| == |model|
  {
    hide Bucket, Flat;
    var list := Flat(bs);
    WalkIsMap(hash, bs, model);
    MapOfSize(list);
    forall i | 0 <= i < |list| ensures list[i].key in model && model[list[i].key] == list[i].val {
      ValAt(list, i);
      MapOfVal(list, list[i].key);
    }
    forall k | k in model ensures exists i :: 0 <= i < |list| && list[i].key == k {
      MapOfVal(list, k);
      ValNone(list, k);
    }
  }

  lemma {:induction false} WalkPrefix(bs: seq<seq<Entry>>, b: nat)
    requires KeysDiffer(Flat(bs)) && b < |bs|
    ensures KeysDiffer(Flat(bs[..b]) + bs[b]) && Flat(bs[..b + 1]) == Flat(bs[..b]) + bs[b]
  {
    FlatPrefix(bs, b + 1);
    assert bs[..b + 1][..b] == bs[..b];
    DifferPrefix(Flat(bs), Flat(bs[..b + 1]));
  }

  lemma {:induction false} DifferPrefix(all: seq<Entry>, part: seq<Entry>)
    requires KeysDiffer(all) && part <= all
    ensures KeysDiffer(part)
  {
    assert forall i :: 0 <= i < |part| ==> part[i] == all[i];
  }

  /** One old chain put into the new buckets. */
  method Relink(hash: Text -> nat, nbk: array<seq<Entry>>, chain: seq<Entry>, ghost done: seq<Entry>)
    requires Placed(hash, nbk[..]) && Models(hash, nbk[..], MapOf(done)) && KeysDiffer(done + chain)
    modifies nbk
    ensures Placed(hash, nbk[..]) && Models(hash, nbk[..], MapOf(done + chain))
  {
    hide Bucket, Placed, Models, KeysDiffer;
    assert done + chain[..0] == done;
    PlacedNonempty(hash, nbk[..]);
    var j := 0;
    while j < |chain|
      invariant j <= |chain| && Placed(hash, nbk[..]) && Models(hash, nbk[..], MapOf(done + chain[..j]))
    {
      var e := chain[j];
      NewKey(done, chain, j);
      AddFirst(hash, nbk[..], MapOf(done + chain[..j]), e);
      var h := Bucket(hash(e.key), nbk.Length);
      nbk[h] := [e] + nbk[h];
      assert done + chain[..j + 1] == (done + chain[..j]) + [e];
      MapSnoc((done + chain[..j]) + [e]);
      assert ((done + chain[..j]) + [e])[..|done| + j] == done + chain[..j];
      j := j + 1;
    }
    assert chain[..j] == chain;
  }

  // ---------------------------------------------------------------- the map object

  /** The answers to requests for memory while bucket `b` is merged. */
  function AnswersAt(room: (nat, nat) -> bool, b: nat): nat -> bool {
    (i: nat) => room(b, i)
  }

  class VtMap {
    const hash: Text -> nat
    var buckets: array<seq<Entry>>
    var len: nat
    ghost var model: map<Text, nat>

    ghost predicate Valid()
      reads this, buckets
    {
      buckets.Length > 0 && Placed(hash, buckets[..]) && Models(hash, buckets[..], model) && len == |model|
    }

    constructor (hash: Text -> nat)
      ensures Valid() && model == map[] && fresh(buckets) && this.hash == hash
    {
      this.hash := hash;
      buckets := new seq<Entry>[64](_ => []);
      len, model := 0, map[];
    }

    /** map_slot: the place of `key` in its chain, or the chain's end. */
    method Slot(key: Text) returns (b: nat, i: nat)
      requires Valid()
      ensures b == Bucket(hash(key), buckets.Length) && i <= |buckets[b]|
          && (i < |buckets[b]| ==> buckets[b][i].key == key)
      ensures i == |buckets[b]| ==> forall j :: 0 <= j < |buckets[b]| ==> buckets[b][j].key != key
    {
      hide Bucket;
      b := Bucket(hash(key), buckets.Length);
      i := 0;
      while i < |buckets[b]| && buckets[b][i].key != key
        invariant i <= |buckets[b]| && forall j :: 0 <= j < i ==> buckets[b][j].key != key
      {
        i := i + 1;
      }
    }

    /** Twice as many buckets, the entries relinked one by one; without memory nothing changes. */
    method Grow(room: bool)
      requires Valid()
      modifies `buckets
      ensures Valid() && (buckets == old(buckets) || fresh(buckets))
    {
      hide Bucket, Placed, Models, KeysDiffer;
      if !room { return; }
      PlacedNonempty(hash, buckets[..]);
      ghost var bs := buckets[..];
      var nb := buckets.Length * 2;
      var nbk := new seq<Entry>[nb](_ => []);
      NoneYet(hash, nbk[..]);
      WalkIsMap(hash, bs, model);
      FlatNone(bs);
      var i := 0;
      while i < buckets.Length
        invariant i <= buckets.Length && buckets[..] == bs
        invariant Placed(hash, nbk[..]) && Models(hash, nbk[..], MapOf(Flat(bs[..i])))
      {
        WalkPrefix(bs, i);
        Relink(hash, nbk, buckets[i], Flat(bs[..i]));
        i := i + 1;
      }
      assert bs[..i] == bs;
      buckets := nbk;
    }

    method Set(key: Text, v: nat, room: bool)
      requires Valid()
      modifies this, buckets
      ensures Valid() && model == old(model)[key := v] && (buckets == old(buckets) || fresh(buckets))
      ensures key in old(model) && old(model)[key] == v ==> buckets == old(buckets) && buckets[..] == old(buckets[..])
    {
      hide Bucket, Placed, Models;
      PlacedNonempty(hash, buckets[..]);
      var b, i := Slot(key);
      ghost var bs := buckets[..];
      if i < |buckets[b]| {
        Overwrite(hash, bs, model, key, i, v);
        assert buckets[b][i].val == v ==> buckets[b][i := Entry(key, v)] == buckets[b];
        buckets[b] := buckets[b][i := Entry(key, v)];
        model := model[key := v];
        SameSize(old(model), key, v);
        return;
      }
      AddLast(hash, bs, model, key, v);
      buckets[b] := buckets[b] + [Entry(key, v)];
      model := model[key := v];
      len := len + 1;
      if len > buckets.Length * 4 { Grow(room); }
    }

    /** The value of a key; None is the panic on a missing one. */
    method Get(key: Text) returns (r: Option<nat>)
      requires Valid()
      ensures r == if key in model then Some(model[key]) else None
    {
      hide Bucket;
      var b, i := Slot(key);
      var chain := buckets[b];
      if i == |chain| {
        ValNone(chain, key);
        return None;
      }
      ghost var bs := buckets[..];
      Overwrite(hash, bs, model, key, i, 0);
      return Some(chain[i].val);
    }

    method Has(key: Text) returns (r: bool)
      requires Valid()
      ensures r == (key in model)
    {
      var f := Get(key);
      return f.Some?;
    }

    method Remove(key: Text)
      requires Valid()
      modifies this, buckets
      ensures Valid() && model == MapMinus(old(model), key) && buckets == old(buckets)
    {
      hide Bucket, Placed, Models;
      PlacedNonempty(hash, buckets[..]);
      var b, i := Slot(key);
      ghost var bs := buckets[..];
      if i == |buckets[b]| {
        AddLast(hash, bs, model, key, 0);
        assert MapMinus(model, key) == model;
        return;
      }
      CutOut(hash, bs, model, key, i);
      MinusSize(model, key);
      buckets[b] := buckets[b][..i] + buckets[b][i + 1..];
      model := MapMinus(model, key);
      len := len - 1;
    }

    method Clear()
      requires Valid()
      modifies this, buckets
      ensures Valid() && model == map[] && buckets == old(buckets)
    {
      var b := 0;
      while b < buckets.Length
        invariant b <= buckets.Length && buckets == old(buckets) && forall c :: 0 <= c < b ==> buckets[c] == []
      {
        buckets[b] := [];
        b := b + 1;
      }
      len, model := 0, map[];
      NoneYet(hash, buckets[..]);
    }

    /** keys() and values(): both walk the buckets in order. */
    method Keys() returns (r: seq<Text>)
      requires Valid()
      ensures |r| == len == |Flat(buckets[..])| && forall i :: 0 <= i < |r| ==> r[i] == Flat(buckets[..])[i].key
    {
      WalkIsMap(hash, buckets[..], model);
      MapOfSize(Flat(buckets[..]));
      r := [];
      var b := 0;
      while b < buckets.Length
        invariant b <= buckets.Length && r == KeysOf(Flat(buckets[..b]))
      {
        FlatNext(buckets[..], b, |buckets[b]|);
        KeysAppend(Flat(buckets[..b]), buckets[b]);
        r := r + KeysOf(buckets[b]);
        b := b + 1;
      }
      assert buckets[..b] == buckets[..];
    }

    method Values() returns (r: seq<nat>)
      requires Valid()
      ensures |r| == len == |Flat(buckets[..])| && forall i :: 0 <= i < |r| ==> r[i] == Flat(buckets[..])[i].val
    {
      WalkIsMap(hash, buckets[..], model);
      MapOfSize(Flat(buckets[..]));
      r := [];
      var b := 0;
      while b < buckets.Length
        invariant b <= buckets.Length && r == ValsOf(Flat(buckets[..b]))
      {
        FlatNext(buckets[..], b, |buckets[b]|);
        ValsAppend(Flat(buckets[..b]), buckets[b]);
        r := r + ValsOf(buckets[b]);
        b := b + 1;
      }
      assert buckets[..b] == buckets[..];
    }

    /** A walk over `o` while this map changes: what `o` holds stays put, even when it is this map. */
    ghost predicate Walking(o: VtMap, arr: array<seq<Entry>>, bs: seq<seq<Entry>>, from: map<Text, nat>)
      reads this, buckets, o, o.buckets
    {
      && Valid() && o.Valid() && o.model == from && o.buckets == arr && arr[..] == bs
      && (o == this || o.buckets != buckets)
    }

    /** One entry of `o` set here. */
    method MergeEntry(o: VtMap, e: Entry, room: bool, ghost bs: seq<seq<Entry>>, ghost from: map<Text, nat>)
      requires Walking(o, o.buckets, bs, from) && e.key in from && from[e.key] == e.val
      requires o == this ==> model == from
      modifies this, buckets
      ensures Walking(o, old(o.buckets), bs, from) && model == old(model)[e.key := e.val]
      ensures (buckets == old(buckets) || fresh(buckets)) && (o == this ==> model == from)
    {
      hide Bucket, Placed, Models, Flat, KeysDiffer;
      assert o == this ==> from[e.key := e.val] == from;
      Set(e.key, e.val, room);
    }

    method MergeChain(o: VtMap, b: nat, room: nat -> bool, ghost bs: seq<seq<Entry>>, ghost from: map<Text, nat>,
            ghost mine: map<Text, nat>)
      requires Walking(o, o.buckets, bs, from) && b < |bs| && model == mine + MapOf(Flat(bs[..b]))
      requires o == this ==> mine == from && model == from
      modifies this, buckets
      ensures Walking(o, old(o.buckets), bs, from) && model == mine + MapOf(Flat(bs[..b + 1]))
      ensures (buckets == old(buckets) || fresh(buckets)) && (o == this ==> model == from)
    {
      hide Bucket, Placed, Models, Flat, KeysDiffer, MapOf, Val;
      var i: nat := 0;
      FlatNext(bs, b, 0);
      while i < |o.buckets[b]|
        invariant i <= |bs[b]| && Walking(o, old(o.buckets), bs, from)
        invariant (buckets == old(buckets) || fresh(buckets)) && (o == this ==> model == from)
        invariant model == mine + MapOf(Flat(bs[..b]) + bs[b][..i])
      {
        var e := o.buckets[b][i];
        EntryHeld(o.hash, bs, from, b, i);
        MergeNext(bs, b, i, mine);
        MergeEntry(o, e, room(i), bs, from);
        i := i + 1;
      }
      FlatNext(bs, b, |bs[b]|);
    }

    /** Every entry of `o` set here, `o` read as the walk goes; `o` may be this map itself. */
    method Merge(o: VtMap, room: (nat, nat) -> bool)
      requires Valid() && o.Valid() && (o == this || o.buckets != buckets)
      modifies this, buckets
      ensures Valid() && o.Valid() && model == old(model) + old(o.model)
      ensures o == this ==> model == old(model)
      ensures o != this ==> o.model == old(o.model)
    {
      hide Bucket, Placed, Models, Flat, KeysDiffer;
      ghost var bs, from, mine := o.buckets[..], o.model, model;
      WalkIsMap(o.hash, bs, from);
      FlatNone(bs);
      var b := 0;
      while b < o.buckets.Length
        invariant b <= |bs| && Walking(o, old(o.buckets), bs, from)
        invariant (buckets == old(buckets) || fresh(buckets)) && (o == this ==> model == from)
        invariant model == mine + MapOf(Flat(bs[..b]))
      {
        MergeChain(o, b, AnswersAt(room, b), bs, from, mine);
        b := b + 1;
      }
      assert bs[..b] == bs;
    }
  }
}
