/** Grouping by hashing: rows get group numbers from a chained hash table, the groups' first rows
    are sorted, and a counting sort lays the rows out group by group.  When memory runs out the
    rows are sorted by comparison instead.  Both ways produce the same array and the same ranges. */
module GroupBy {
  import opened Basics
  import opened StableSort
  import opened ColTable
  import opened CountingSort
  import opened KeyRuns
  import MergeSort

  // ---------------------------------------------------------------- keys and their hashes

  /** A key cell: what the hash reads. */
  datatype Cell = NumCell(n: int) | TextCell(t: Text)

  function CellOf(c: Col, row: nat): Cell {
    if c.IsText() then TextCell(c.Text(row)) else NumCell(c.Num(row))
  }

  function Ascending(kcols: seq<int>): (r: seq<Key>)
    ensures |r| == |kcols|
  {
    if kcols == [] then [] else [Key(kcols[0], 1)] + Ascending(kcols[1..])
  }

  predicate KeysIn(cols: seq<Col>, kcols: seq<int>) {
    forall i :: 0 <= i < |kcols| ==> 0 <= kcols[i] < |cols|
  }

  function SameKey(cols: seq<Col>, kcols: seq<int>, a: nat, b: nat): bool
    requires KeysIn(cols, kcols)
  {
    kcols == [] || (CellOf(cols[kcols[0]], a) == CellOf(cols[kcols[0]], b) && SameKey(cols, kcols[1..], a, b))
  }

  /** One FNV-1a round over a whole key hash. */
  function Mix(hv: bv32, kh: bv32): bv32 {
    (hv ^ kh) * 16777619
  }

  /** The key columns' hashes folded together; `h` stands for the hash of one cell's bytes. */
  function RowHash(h: Cell -> bv32, cols: seq<Col>, kcols: seq<int>, row: nat, hv: bv32): bv32
    requires KeysIn(cols, kcols)
  {
    if kcols == [] then hv
    else RowHash(h, cols, kcols[1..], row, Mix(hv, h(CellOf(cols[kcols[0]], row))))
  }

  lemma {:induction false} SameKeyIsTie(cols: seq<Col>, kcols: seq<int>, a: nat, b: nat)
    requires KeysIn(cols, kcols)
    ensures SameKey(cols, kcols, a, b) <==> CmpRows(cols, Ascending(kcols), a, b) == 0
  {
    if kcols != [] {
      var c := cols[kcols[0]];
      CmpColIsText(c, a, b);
      CmpTextFlip(c.Text(a), c.Text(b));
      SameKeyIsTie(cols, kcols[1..], a, b);
      assert Ascending(kcols)[1..] == Ascending(kcols[1..]);
    }
  }

  lemma {:induction false} SameKeySameHash(h: Cell -> bv32, cols: seq<Col>, kcols: seq<int>, a: nat, b: nat, hv: bv32)
    requires KeysIn(cols, kcols) && SameKey(cols, kcols, a, b)
    ensures RowHash(h, cols, kcols, a, hv) == RowHash(h, cols, kcols, b, hv)
  {
    hide Mix;
    if kcols != [] {
      SameKeySameHash(h, cols, kcols[1..], a, b, Mix(hv, h(CellOf(cols[kcols[0]], a))));
    }
  }

  /** What the grouping needs of the key test and the hash. */
  ghost predicate Grouping(cmp: (nat, nat) -> int, same: (nat, nat) -> bool, hash: nat -> nat) {
    && Consistent(cmp)
    && (forall a, b :: same(a, b) <==> cmp(a, b) == 0)
    && (forall a, b :: same(a, b) ==> hash(a) == hash(b))
  }

  // ---------------------------------------------------------------- requests for memory

  /** What the hash path asks for: its first buffers, twice the room for groups, twice the buckets. */
  datatype Ask = Buffers | MoreGroups(cap: nat) | MoreBuckets(nb: nat)

  const START := 1024

  /** The first doubling of `size` that is no less than `need`. */
  function Doubled(size: nat, need: nat): (r: nat)
    requires size > 0
    ensures size <= r && need <= r && (r > size ==> r < 2 * need)
    decreases need - size
  {
    if size >= need then size else Doubled(2 * size, need)
  }

  /** Every doubling on the way from `size` to `need` is granted. */
  predicate Grants(ask: nat -> bool, size: nat, need: nat)
    requires size > 0
    decreases need - size
  {
    size >= need || (ask(size) && Grants(ask, 2 * size, need))
  }

  function GroupAsk(room: Ask -> bool): nat -> bool {
    (n: nat) => room(MoreGroups(n))
  }

  function BucketAsk(room: Ask -> bool): nat -> bool {
    (n: nat) => room(MoreBuckets(n))
  }

  /** The requests that `k` groups lead to are granted: room for every group, and buckets so that
      the groups fill no more than half of them. */
  predicate Fits(room: Ask -> bool, k: nat) {
    room(Buffers) && Grants(GroupAsk(room), START, k) && Grants(BucketAsk(room), START, 2 * k)
  }

  /** The rows that come first with their key, in order. */
  ghost function FirstRows(same: (nat, nat) -> bool, view: seq<nat>): (f: seq<nat>)
    ensures |f| <= |view|
  {
    if view == [] then [] else
    var row, rest := view[|view| - 1], view[..|view| - 1];
    FirstRows(same, rest) + if SeenIn(same, row, rest) then [] else [row]
  }

  /** The number of different keys. */
  ghost function KeyCount(same: (nat, nat) -> bool, view: seq<nat>): (k: nat)
    ensures k <= |view|
  {
    |FirstRows(same, view)|
  }

  ghost predicate SeenIn(same: (nat, nat) -> bool, row: nat, rows: seq<nat>) {
    exists i :: 0 <= i < |rows| && same(row, rows[i])
  }

  /** One doubling more, when there is less than `b`. */
  lemma {:induction false} GrantsNext(ask: nat -> bool, size: nat, a: nat, b: nat)
    requires 0 < size && a <= b <= 2 * Doubled(size, a)
    ensures Doubled(size, b) == if Doubled(size, a) < b then 2 * Doubled(size, a) else Doubled(size, a)
    ensures Grants(ask, size, b) <==> Grants(ask, size, a) && (Doubled(size, a) < b ==> ask(Doubled(size, a)))
    decreases a - size
  {
    if size < a { GrantsNext(ask, 2 * size, a, b); }
  }

  /** What was refused for fewer groups is refused for more. */
  lemma {:induction false} GrantsFewer(ask: nat -> bool, size: nat, a: nat, b: nat)
    requires 0 < size && a <= b && Grants(ask, size, b)
    ensures Grants(ask, size, a)
    decreases b - size
  {
    if size < a { GrantsFewer(ask, 2 * size, a, b); }
  }

  lemma {:induction false} FitsFewer(room: Ask -> bool, a: nat, b: nat)
    requires a <= b && Fits(room, b)
    ensures Fits(room, a)
  {
    GrantsFewer(GroupAsk(room), START, a, b);
    GrantsFewer(BucketAsk(room), START, 2 * a, 2 * b);
  }

  lemma {:induction false} FitsNone(room: Ask -> bool)
    ensures Fits(room, 0) <==> room(Buffers)
  {
  }

  lemma {:induction false} KeyCountPrefix(same: (nat, nat) -> bool, view: seq<nat>, i: nat)
    requires i <= |view|
    ensures KeyCount(same, view[..i]) <= KeyCount(same, view)
  {
    if i == |view| {
      assert view[..i] == view;
    } else {
      KeyCountPrefix(same, view[..|view| - 1], i);
      assert view[..|view| - 1][..i] == view[..i];
    }
  }

  lemma {:induction false} FirstRowsNext(same: (nat, nat) -> bool, view: seq<nat>, i: nat)
    requires i < |view|
    ensures FirstRows(same, view[..i + 1]) ==
            FirstRows(same, view[..i]) + if SeenIn(same, view[i], view[..i]) then [] else [view[i]]
  {
    assert view[..i + 1][..i] == view[..i];
  }

  // ---------------------------------------------------------------- the hash table of groups

  /** The bucket of a hash.  The table's size is a power of two, so masking is the remainder. */
  function Bucket(h: nat, nb: nat): (b: nat)
    requires nb > 0
    ensures b < nb
  {
    h % nb
  }

  /** `x` is the largest of the first `n` groups in bucket `b`; -1 when there is none. */
  ghost predicate LastIn(ghash: seq<nat>, nb: nat, b: nat, n: nat, x: int)
    requires nb > 0 && n <= |ghash|
  {
    && -1 <= x < n
    && (x >= 0 ==> Bucket(ghash[x], nb) == b)
    && forall g :: x < g < n ==> Bucket(ghash[g], nb) != b
  }

  /** Each group's hash is its key's, and no two groups have the same key. */
  ghost predicate Keyed(same: (nat, nat) -> bool, hash: nat -> nat, rep: seq<nat>, ghash: seq<nat>) {
    && |rep| == |ghash|
    && (forall g :: 0 <= g < |rep| ==> ghash[g] == hash(rep[g]))
    && (forall g, g' :: 0 <= g < g' < |rep| ==> !same(rep[g], rep[g']))
  }

  class Groups {
    const cmp: (nat, nat) -> int
    const same: (nat, nat) -> bool
    const hash: nat -> nat
    var head: array<int>
    var gnext: seq<int>
    var rep: seq<nat>
    var ghash: seq<nat>
    var repcap: nat

    ghost predicate Chained()
      reads this, head
    {
      && head.Length > 0 && |gnext| == |rep| == |ghash|
      && (forall b :: 0 <= b < head.Length ==> LastIn(ghash, head.Length, b, |ghash|, head[b]))
      && (forall g :: 0 <= g < |gnext| ==> LastIn(ghash, head.Length, Bucket(ghash[g], head.Length), g, gnext[g]))
    }

    /** The sizes that doubling has led to. */
    ghost predicate Grown()
      reads this, head
    {
      repcap == Doubled(START, |rep|) && head.Length == Doubled(START, 2 * |rep|)
    }

    ghost predicate Valid()
      reads this, head
    {
      Chained() && Grouping(cmp, same, hash) && Keyed(same, hash, rep, ghash) && Grown()
    }

    constructor (cmp: (nat, nat) -> int, same: (nat, nat) -> bool, hash: nat -> nat)
      requires Grouping(cmp, same, hash)
      ensures Valid() && fresh(head) && rep == [] && this.cmp == cmp && this.same == same && this.hash == hash
    {
      this.cmp, this.same, this.hash := cmp, same, hash;
      head := new int[START](_ => -1);
      gnext, rep, ghash, repcap := [], [], [], START;
    }

    /** The group with the key of `row`, or -1. */
    method Find(row: nat) returns (g: int)
      requires Valid()
      ensures -1 <= g < |rep| && (g >= 0 ==> same(row, rep[g]))
      ensures g < 0 ==> forall x :: 0 <= x < |rep| ==> !same(row, rep[x])
    {
      hide Bucket, Consistent;
      var b := Bucket(hash(row), head.Length);
      g := head[b];
      while g >= 0 && !same(row, rep[g])
        invariant -1 <= g < |rep|
        invariant g >= 0 ==> Bucket(ghash[g], head.Length) == b
        invariant forall x :: g < x < |rep| && Bucket(ghash[x], head.Length) == b ==> !same(row, rep[x])
        decreases g
      {
        g := gnext[g];
      }
      if g < 0 {
        forall x | 0 <= x < |rep| ensures !same(row, rep[x]) {
          if Bucket(ghash[x], head.Length) != b { assert ghash[x] == hash(rep[x]) != hash(row); }
        }
      }
    }

    /** A new group for `row`, or -1 when a request for more memory is refused. */
    method Add(row: nat, room: Ask -> bool) returns (g: int)
      requires Valid() && Fits(room, |rep|) && forall x :: 0 <= x < |rep| ==> !same(row, rep[x])
      modifies this, head
      ensures head == old(head) || fresh(head)
      ensures g == -1 <==> !Fits(room, old(|rep|) + 1)
      ensures g == -1 || (g == old(|rep|) && rep == old(rep) + [row] && Valid())
    {
      hide Grouping, Bucket, LastIn, Grants, Doubled;
      ghost var k := |rep|;
      GrantsNext(GroupAsk(room), START, k, k + 1);
      GrantsNext(BucketAsk(room), START, 2 * k, 2 * (k + 1));
      if |rep| == repcap {
        if !room(MoreGroups(repcap)) { return -1; }
        repcap := repcap * 2;
      }
      g := |rep|;
      SameFlip(cmp, same, hash, row);
      assert Keyed(same, hash, rep + [row], ghash + [hash(row)]);
      Link(row, hash(row));
      if |rep| * 2 > head.Length {
        if !room(MoreBuckets(head.Length)) { return -1; }
        Rehash();
      }
    }

    /** Append a group and put it in front of its bucket's chain. */
    method Link(row: nat, h: nat)
      requires Chained()
      modifies this, head
      ensures Chained() && head == old(head) && rep == old(rep) + [row] && ghash == old(ghash) + [h]
          && repcap == old(repcap)
    {
      hide Bucket;
      var b := Bucket(h, head.Length);
      rep, ghash, gnext := rep + [row], ghash + [h], gnext + [head[b]];
      head[b] := |rep| - 1;
    }

    /** Twice as many buckets, every group put in again in order. */
    method Rehash()
      requires head.Length > 0 && |gnext| == |rep| == |ghash|
      modifies this
      ensures Chained() && fresh(head) && head.Length == 2 * old(head.Length)
      ensures rep == old(rep) && ghash == old(ghash) && repcap == old(repcap)
    {
      hide Bucket;
      var nb := head.Length * 2;
      head := new int[nb](_ => -1);
      var x := 0;
      while x < |rep|
        invariant 0 <= x <= |rep| == |gnext| == |ghash|
        invariant rep == old(rep) && ghash == old(ghash) && repcap == old(repcap)
        invariant head.Length == nb && fresh(head)
        invariant forall b :: 0 <= b < nb ==> LastIn(ghash, nb, b, x, head[b])
        invariant forall g :: 0 <= g < x ==> LastIn(ghash, nb, Bucket(ghash[g], nb), g, gnext[g])
      {
        var b := Bucket(ghash[x], nb);
        gnext := gnext[x := head[b]];
        head[b] := x;
        x := x + 1;
      }
    }
  }

  lemma {:induction false} SameFlip(cmp: (nat, nat) -> int, same: (nat, nat) -> bool, hash: nat -> nat, a: nat)
    requires Grouping(cmp, same, hash)
    ensures forall b :: same(a, b) == same(b, a)
  {
    forall b ensures same(a, b) == same(b, a) { Flip(cmp, a, b); }
  }

  // ---------------------------------------------------------------- group numbers

  /** Every row has the number of the group with its key; groups have different keys. */
  ghost predicate Numbered(same: (nat, nat) -> bool, view: seq<nat>, gid: seq<nat>, rep: seq<nat>) {
    && |gid| == |view|
    && (forall i :: 0 <= i < |view| ==> gid[i] < |rep| && same(view[i], rep[gid[i]]))
    && (forall g, h :: 0 <= g < h < |rep| ==> !same(rep[g], rep[h]))
    && (forall g :: 0 <= g < |rep| ==> g in gid)
  }

  /** One pass over the visible rows; it comes through exactly when there is memory for as many
      groups as there are keys. */
  method Number(view: seq<nat>, cmp: (nat, nat) -> int, same: (nat, nat) -> bool, hash: nat -> nat, room: Ask -> bool)
    returns (ok: bool, gid: seq<nat>, rep: seq<nat>)
    requires Grouping(cmp, same, hash)
    ensures ok <==> Fits(room, KeyCount(same, view))
    ensures ok ==> Numbered(same, view, gid, rep) && rep == FirstRows(same, view)
  {
    hide Grouping, Fits, Numbered, FirstRows;
    gid, rep := [], [];
    FitsNone(room);
    NoneNumbered(same);
    if !room(Buffers) {
      NeverFits(room, 0, KeyCount(same, view));
      return false, gid, rep;
    }
    var t := new Groups(cmp, same, hash);
    var i := 0;
    assert view[..0] == [];
    while i < |view|
      invariant i <= |view| && fresh(t) && fresh(t.head) && t.Valid()
      invariant t.cmp == cmp && t.same == same && t.hash == hash
      invariant Numbered(same, view[..i], gid, t.rep)
      invariant t.rep == FirstRows(same, view[..i]) && Fits(room, |t.rep|)
    {
      var g := t.Find(view[i]);
      ghost var was := t.rep;
      FirstRowsNext(same, view, i);
      KeyCountPrefix(same, view, i + 1);
      SeenIsGrouped(cmp, same, hash, view[..i], gid, was, view[i], g);
      if g < 0 {
        g := t.Add(view[i], room);
        if g < 0 {
          NeverFits(room, |was| + 1, KeyCount(same, view));
          return false, gid, rep;
        }
        SameRefl(cmp, same, hash, view[i]);
      }
      KeysDistinct(same, hash, t.rep, t.ghash);
      NumberNext(same, view, i, gid, was, t.rep, g);
      gid := gid + [g];
      i := i + 1;
    }
    assert view[..i] == view;
    return true, gid, t.rep;
  }

  lemma {:induction false} NoneNumbered(same: (nat, nat) -> bool)
    ensures Numbered(same, [], [], []) && FirstRows(same, []) == []
  {
  }

  lemma {:induction false} NeverFits(room: Ask -> bool, a: nat, b: nat)
    requires a <= b && !Fits(room, a)
    ensures !Fits(room, b)
  {
    hide Fits;
    if Fits(room, b) { FitsFewer(room, a, b); }
  }

  lemma {:induction false} KeysDistinct(same: (nat, nat) -> bool, hash: nat -> nat, rep: seq<nat>, ghash: seq<nat>)
    requires Keyed(same, hash, rep, ghash)
    ensures forall x, y :: 0 <= x < y < |rep| ==> !same(rep[x], rep[y])
  {
  }

  /** A row's key was met before exactly when the row has a group. */
  lemma {:induction false} SeenIsGrouped(cmp: (nat, nat) -> int, same: (nat, nat) -> bool, hash: nat -> nat,
          rows: seq<nat>,
                                         gid: seq<nat>, rep: seq<nat>, row: nat, g: int)
    requires Grouping(cmp, same, hash) && Numbered(same, rows, gid, rep)
    requires -1 <= g < |rep| && (g >= 0 ==> same(row, rep[g]))
    requires g < 0 ==> forall x :: 0 <= x < |rep| ==> !same(row, rep[x])
    ensures SeenIn(same, row, rows) <==> g >= 0
  {
    hide Consistent;
    if g >= 0 {
      assert g in gid;
      var i :| 0 <= i < |gid| && gid[i] == g;
      SameJoin(cmp, same, hash, row, rep[g], rows[i]);
    } else if SeenIn(same, row, rows) {
      var i :| 0 <= i < |rows| && same(row, rows[i]);
      SameJoin(cmp, same, hash, row, rows[i], rep[gid[i]]);
    }
  }

  lemma {:induction false} SameJoin(cmp: (nat, nat) -> int, same: (nat, nat) -> bool, hash: nat -> nat, a: nat, b: nat,
          c: nat)
    requires Grouping(cmp, same, hash) && same(a, b) && (same(b, c) || same(c, b))
    ensures same(a, c)
  {
    hide Consistent;
    Flip(cmp, b, c);
    Flip(cmp, a, b);
    Trans(cmp, a, b, c);
    Trans(cmp, c, b, a);
    Flip(cmp, a, c);
  }

  lemma {:induction false} SameRefl(cmp: (nat, nat) -> int, same: (nat, nat) -> bool, hash: nat -> nat, a: nat)
    requires Grouping(cmp, same, hash)
    ensures same(a, a)
  {
    Flip(cmp, a, a);
  }

  lemma {:induction false} NumberNext(same: (nat, nat) -> bool, view: seq<nat>, i: nat, gid: seq<nat>, was: seq<nat>,
          rep: seq<nat>, g: nat)
    requires i < |view| && Numbered(same, view[..i], gid, was)
    requires rep == was || (rep == was + [view[i]] && g == |was|)
    requires g < |rep| && same(view[i], rep[g])
    requires forall x, y :: 0 <= x < y < |rep| ==> !same(rep[x], rep[y])
    ensures Numbered(same, view[..i + 1], gid + [g], rep)
  {
    assert forall j :: 0 <= j < i ==> view[..i][j] == view[j] && view[..i + 1][j] == view[j];
    forall x | 0 <= x < |rep| ensures x in gid + [g] {
      if x < |was| { assert x in gid; }
    }
  }

  // ---------------------------------------------------------------- ranking the groups

  /** The groups in key order, if the sort has its buffer: each group's rank is the place of its row
      in the list after the sort. */
  method Rank(rep: seq<nat>, cmp: (nat, nat) -> int, scratch: nat -> bool) returns (order: array<nat>, grank: seq<nat>)
    requires Consistent(cmp) && forall g, h :: 0 <= g < h < |rep| ==> cmp(rep[g], rep[h]) != 0
    ensures fresh(order) && order.Length == |rep| == |grank|
    ensures order[..] == MergeSort.AfterSort(cmp, rep, scratch(|rep|))
    ensures forall g :: 0 <= g < |rep| ==> grank[g] < |rep| && order[grank[g]] == rep[g]
  {
    hide Consistent, StableSorted;
    var n := |rep|;
    order := new nat[n](g requires 0 <= g < n => rep[g]);
    assert order[..n] == rep;
    MergeSort.SortBuf(order, n, cmp, scratch);
    assert order[..n] == order[..];
    MergeSort.SortedAnyway(cmp, rep, scratch(n));
    DistinctKeys(cmp, rep);
    grank := Places(rep, order);
    forall g | 0 <= g < n ensures order[grank[g]] == rep[g] {
      assert rep[g] in multiset(rep) && rep[g] in multiset(order[..]);
      assert rep[g] in order[..];
    }
  }

  /** Each group looked for behind each place of the sorted list. */
  method Places(rep: seq<nat>, order: array<nat>) returns (grank: seq<nat>)
    requires order.Length == |rep| && forall g, h :: 0 <= g < h < |rep| ==> rep[g] != rep[h]
    ensures |grank| == |rep|
    ensures forall g :: 0 <= g < |rep| ==> grank[g] < |rep| && (rep[g] in order[..] ==> order[grank[g]] == rep[g])
  {
    var n := |rep|;
    grank := seq(n, _ => 0);
    var i := 0;
    while i < n
      invariant i <= n && |grank| == n
      invariant forall g :: 0 <= g < n ==> grank[g] < n
      invariant forall g, j :: 0 <= g < n && 0 <= j < i && order[j] == rep[g] ==> order[grank[g]] == rep[g]
    {
      var g := 0;
      while g < n && rep[g] != order[i]
        invariant g <= n && forall h :: 0 <= h < g ==> rep[h] != order[i]
      {
        g := g + 1;
      }
      if g < n { grank := grank[g := i]; }
      i := i + 1;
    }
  }

  lemma {:induction false} DistinctKeys(cmp: (nat, nat) -> int, rep: seq<nat>)
    requires Consistent(cmp) && forall g, h :: 0 <= g < h < |rep| ==> cmp(rep[g], rep[h]) != 0
    ensures forall g, h :: 0 <= g < h < |rep| ==> rep[g] != rep[h]
  {
    forall g, h | 0 <= g < h < |rep| ensures rep[g] != rep[h] { Flip(cmp, rep[g], rep[g]); }
  }

  /** Rows with different keys still have different keys when rearranged. */
  lemma {:induction false} StillDiffer(cmp: (nat, nat) -> int, rep: seq<nat>, order: seq<nat>)
    requires Consistent(cmp) && (forall g, h :: 0 <= g < h < |rep| ==> cmp(rep[g], rep[h]) != 0)
    requires multiset(order) == multiset(rep)
    ensures forall i, j :: 0 <= i < j < |order| ==> cmp(order[i], order[j]) != 0
  {
    hide Consistent;
    DistinctKeys(cmp, rep);
    DistinctCount(rep);
    DistinctCount(order);
    forall i, j | 0 <= i < j < |order| ensures cmp(order[i], order[j]) != 0 {
      assert order[i] in multiset(order) && order[j] in multiset(order);
      var g :| 0 <= g < |rep| && rep[g] == order[i];
      var h :| 0 <= h < |rep| && rep[h] == order[j];
      assert order[i] != order[j] && g != h;
      Flip(cmp, rep[g], rep[h]);
    }
  }

  /** After the sort the rows are strictly ascending exactly if it had its buffer or they were. */
  lemma {:induction false} RisingAfter(cmp: (nat, nat) -> int, rep: seq<nat>, granted: bool)
    requires Consistent(cmp) && (forall g, h :: 0 <= g < h < |rep| ==> cmp(rep[g], rep[h]) != 0)
    ensures Rising(cmp, MergeSort.AfterSort(cmp, rep, granted)) <==> granted || Rising(cmp, rep)
  {
    hide Consistent, StableSorted;
    var order := MergeSort.AfterSort(cmp, rep, granted);
    MergeSort.SortedAnyway(cmp, rep, granted);
    StillDiffer(cmp, rep, order);
    StableSortedSorts(cmp, rep);
  }

  // ---------------------------------------------------------------- the two ways

  lemma {:induction false} RowsRanked(cmp: (nat, nat) -> int, same: (nat, nat) -> bool, hash: nat -> nat,
          view: seq<nat>, gid: seq<nat>, rep: seq<nat>, order: seq<nat>, grank: seq<nat>, r: seq<nat>)
    requires Grouping(cmp, same, hash) && Numbered(same, view, gid, rep)
    requires multiset(order) == multiset(rep) && |order| == |grank| == |rep|
    requires forall g :: 0 <= g < |rep| ==> grank[g] < |rep| && order[grank[g]] == rep[g]
    requires |r| == |gid| && forall i :: 0 <= i < |gid| ==> r[i] == grank[gid[i]]
    ensures Ranked(cmp, view, r, order)
    ensures Onto(r, |order|)
  {
    hide Consistent;
    StillDiffer(cmp, rep, order);
    forall q | 0 <= q < |order| ensures q in r {
      assert order[q] in multiset(order) && order[q] in multiset(rep);
      var g :| 0 <= g < |rep| && rep[g] == order[q];
      assert grank[g] == q by {
        Flip(cmp, order[q], order[q]);
        Flip(cmp, order[q], order[grank[g]]);
      }
      assert g in gid;
      var i :| 0 <= i < |gid| && gid[i] == g;
      assert r[i] == q;
    }
  }

  /** The bounds of the counting sort cut the layout into its ranges of equal keys. */
  lemma {:induction false} BoundsAreRuns(cmp: (nat, nat) -> int, view: seq<nat>, r: seq<nat>, order: seq<nat>,
          runs: seq<(nat, nat)>, m: nat)
    requires Ranked(cmp, view, r, order) && Onto(r, |order|)
    requires m <= |runs| == |order|
    requires forall q :: 0 <= q < |runs| ==> runs[q] == (Start(view, r, q), Start(view, r, q + 1))
    ensures Start(view, r, m) <= Start(view, r, |order|)
    ensures RunsTo(cmp, Laid(view, r, |order|), 0, runs[..m], Start(view, r, m))
    decreases m
  {
    hide Consistent, Pick, Start, Laid;
    StartMono(view, r, m, |order|);
    if m > 0 {
      BoundsAreRuns(cmp, view, r, order, runs, m - 1);
      SegmentTies(cmp, view, r, order, m - 1);
      RunsPush(cmp, Laid(view, r, |order|), 0, runs[..m - 1], Start(view, r, m - 1), Start(view, r, m));
      assert runs[..m] == runs[..m - 1] + [runs[m - 1]];
    } else {
      StartZero(view, r);
    }
  }

  lemma {:induction false} StartZero(view: seq<nat>, r: seq<nat>)
    requires |view| == |r|
    ensures Start(view, r, 0) == 0
  {
  }

  /** Segment `q` of the layout is nonempty, all ties, and differs from what follows it. */
  lemma {:induction false} SegmentTies(cmp: (nat, nat) -> int, view: seq<nat>, r: seq<nat>, order: seq<nat>, q: nat)
    requires Ranked(cmp, view, r, order) && Onto(r, |order|) && q < |order|
    ensures var s, a, b := Laid(view, r, |order|), Start(view, r, q), Start(view, r, q + 1);
      && a < b <= |s| && (forall i :: a <= i < b ==> cmp(s[a], s[i]) == 0)
      && (b < |s| ==> cmp(s[a], s[b]) != 0)
  {
    hide Consistent, Pick, Start, Laid;
    var s, a, b := Laid(view, r, |order|), Start(view, r, q), Start(view, r, q + 1);
    StartMono(view, r, q + 1, |order|);
    SegmentRank(cmp, view, r, order, q);
    forall i | a <= i < b ensures cmp(s[a], s[i]) == 0 {
      SameTie(cmp, s[a], order[q], s[i]);
      Flip(cmp, order[q], s[i]);
    }
    if b < |s| {
      StartAll(view, r, |order|);
      if q + 1 < |order| {
        SegmentRank(cmp, view, r, order, q + 1);
        assert cmp(order[q], order[q + 1]) != 0;
        SameTie(cmp, s[a], order[q], s[b]);
        Flip(cmp, order[q], s[b]);
        SameTie(cmp, s[b], order[q + 1], order[q]);
        Flip(cmp, order[q + 1], order[q]);
      }
    }
  }

  lemma {:induction false} SegmentRank(cmp: (nat, nat) -> int, view: seq<nat>, r: seq<nat>, order: seq<nat>, q: nat)
    requires Ranked(cmp, view, r, order) && q < |order| && q in r
    ensures var s, a, b := Laid(view, r, |order|), Start(view, r, q), Start(view, r, q + 1);
      a < b <= |s| && forall i :: a <= i < b ==> cmp(s[i], order[q]) == 0
  {
    hide Consistent, Pick, Start, Laid;
    var s, a, b := Laid(view, r, |order|), Start(view, r, q), Start(view, r, q + 1);
    var i :| 0 <= i < |r| && r[i] == q;
    LaidAt(view, r, |order|, i);
    PickNext(view, r, i, q);
    PickPrefix(view, r, i + 1, q);
    StartNext(view, r, q);
    LaidSegment(view, r, |order|, q);
    PickIn(cmp, view, r, order, q);
    forall j | a <= j < b ensures cmp(s[j], order[q]) == 0 {
      assert s[a..b][j - a] == s[j] && s[j] in Pick(view, r, q);
    }
  }

  /** The rows of each key, the keys in the order of `order`. */
  function ClassesOf(cmp: (nat, nat) -> int, order: seq<nat>, view: seq<nat>): (r: seq<seq<nat>>)
    ensures |r| == |order|
  {
    if order == [] then [] else [Class(cmp, order[0], view)] + ClassesOf(cmp, order[1..], view)
  }

  /** Each range of the layout holds the rows of its key, whatever the order of the keys. */
  lemma {:induction false} BoundsAreClasses(cmp: (nat, nat) -> int, view: seq<nat>, r: seq<nat>, order: seq<nat>,
          runs: seq<(nat, nat)>, m: nat)
    requires Ranked(cmp, view, r, order) && m <= |runs| == |order|
    requires forall q :: 0 <= q < |runs| ==> runs[q] == (Start(view, r, q), Start(view, r, q + 1))
    ensures Start(view, r, m) <= |Laid(view, r, |order|)|
    ensures var s := Laid(view, r, |order|);
      && KeyRuns.Groups(s, runs[m..]) == ClassesOf(cmp, order[m..], view)
      && Flat(KeyRuns.Groups(s, runs[m..])) == s[Start(view, r, m)..]
    decreases |order| - m
  {
    hide Consistent, Pick, Start, Laid, Class;
    var s := Laid(view, r, |order|);
    StartMono(view, r, m, |order|);
    if m < |order| {
      BoundsAreClasses(cmp, view, r, order, runs, m + 1);
      StartMono(view, r, m, m + 1);
      LaidSegment(view, r, |order|, m);
      KeyAt(cmp, view, r, order, m);
      assert runs[m..][1..] == runs[m + 1..] && order[m..][1..] == order[m + 1..];
      var a, b := Start(view, r, m), Start(view, r, m + 1);
      assert s[a..b] + s[b..] == s[a..];
    }
  }

  /** The rows of rank `q` are the rows with its key. */
  lemma {:induction false} KeyAt(cmp: (nat, nat) -> int, view: seq<nat>, r: seq<nat>, order: seq<nat>, q: nat)
    requires Ranked(cmp, view, r, order) && q < |order|
    ensures Class(cmp, order[q], view) == Pick(view, r, q)
  {
    hide Pick, Class;
    forall i | 0 <= i < |order| ensures cmp(order[i], order[q]) == 0 <==> i == q { Flip(cmp, order[i], order[q]); }
    RowsClass(cmp, view, r, order, order[q], q);
  }

  /** The layout is ascending only if the keys are. */
  lemma {:induction false} SortedRises(cmp: (nat, nat) -> int, view: seq<nat>, r: seq<nat>, order: seq<nat>)
    requires Ranked(cmp, view, r, order) && Onto(r, |order|)
    requires Sorted(cmp, Laid(view, r, |order|))
    ensures Rising(cmp, order)
  {
    hide Pick, Start, Laid, Consistent;
    var s := Laid(view, r, |order|);
    forall i, j | 0 <= i < j < |order| ensures cmp(order[i], order[j]) < 0 {
      SegmentRank(cmp, view, r, order, i);
      SegmentRank(cmp, view, r, order, j);
      StartMono(view, r, i + 1, j);
      var x, y := s[Start(view, r, i)], s[Start(view, r, j)];
      assert cmp(x, y) <= 0;
      Flip(cmp, x, order[i]);
      Trans(cmp, order[i], x, y);
      Trans(cmp, order[i], y, order[j]);
    }
  }

  /** Rows and ranges as a sort by key and a scan for equal keys would give them. */
  ghost predicate Grouped(cmp: (nat, nat) -> int, view: seq<nat>, grp: seq<nat>, runs: seq<(nat, nat)>) {
    && grp == StableSorted(cmp, view) && IsRuns(cmp, grp, 0, runs)
    && Flat(KeyRuns.Groups(grp, runs)) == grp && AreClasses(cmp, view, KeyRuns.Groups(grp, runs))
  }

  /** The fallback: sort by comparison, if there is a buffer to sort with, and scan. */
  method BySorting(view: seq<nat>, cmp: (nat, nat) -> int, scratch: nat -> bool)
    returns (grp: seq<nat>, runs: seq<(nat, nat)>)
    requires Consistent(cmp)
    ensures grp == MergeSort.AfterSort(cmp, view, scratch(|view|)) && IsRuns(cmp, grp, 0, runs)
    ensures Grouped(cmp, view, grp, runs) <==> scratch(|view|) || Sorted(cmp, view)
  {
    hide Consistent, StableSorted;
    var n := |view|;
    var buf := new nat[n](i requires 0 <= i < n => view[i]);
    assert buf[..n] == view;
    MergeSort.SortBuf(buf, n, cmp, scratch);
    grp := buf[..n];
    runs := Scan(cmp, grp);
    MergeSort.SortedAnyway(cmp, view, scratch(n));
    StableSortedSorts(cmp, view);
    if grp == StableSorted(cmp, view) { RunsAreGroups(cmp, view, grp, runs); }
  }

  /** The ranges the starts bound. */
  method Bounds(ghost view: seq<nat>, ghost r: seq<nat>, n: nat, gstart: array<nat>) returns (runs: seq<(nat, nat)>)
    requires |view| == |r| && gstart.Length == n + 1
    requires forall q :: 0 <= q <= n ==> gstart[q] == Start(view, r, q)
    ensures |runs| == n && forall q :: 0 <= q < n ==> runs[q] == (Start(view, r, q), Start(view, r, q + 1))
  {
    hide Start;
    runs := [];
    var i := 0;
    while i < n
      invariant |runs| == i <= n
      invariant forall q :: 0 <= q < i ==> runs[q] == (Start(view, r, q), Start(view, r, q + 1))
    {
      runs := runs + [(gstart[i], gstart[i + 1])];
      i := i + 1;
    }
  }

  lemma {:induction false} NumberedParts(same: (nat, nat) -> bool, view: seq<nat>, gid: seq<nat>, rep: seq<nat>)
    requires Numbered(same, view, gid, rep)
    ensures |gid| == |view| && (forall i :: 0 <= i < |gid| ==> gid[i] < |rep|)
    ensures forall g, h :: 0 <= g < h < |rep| ==> !same(rep[g], rep[h])
  {
  }

  /** The rows laid out by the ranks of their groups. */
  method ByRank(view: seq<nat>, cmp: (nat, nat) -> int, same: (nat, nat) -> bool, hash: nat -> nat, gid: seq<nat>,
          rep: seq<nat>, scratch: nat -> bool)
    returns (grp: seq<nat>, runs: seq<(nat, nat)>)
    requires Grouping(cmp, same, hash) && Numbered(same, view, gid, rep)
    ensures InClasses(cmp, view, MergeSort.AfterSort(cmp, rep, scratch(|rep|)), grp, runs)
    ensures Grouped(cmp, view, grp, runs) <==> scratch(|rep|) || Rising(cmp, rep)
  {
    hide Consistent, Grouping, Start, Laid, Pick, Ranked, Rising, Grouped, InClasses, Numbered, Onto, StableSorted;
    RankedAfter(cmp, same, hash, view, gid, rep, scratch(|rep|));
    var order, r := RankRows(view, cmp, same, hash, gid, rep, scratch);
    RanksBound(cmp, view, r, order);
    var gstart := Count(view, r, |rep|);
    var out := Place(view, r, |rep|, gstart);
    grp := out[..];
    runs := Bounds(view, r, |rep|, gstart);
    LaidInClasses(cmp, view, r, order, runs);
    LaidGrouped(cmp, view, r, order, runs);
  }

  /** Every rank below `n` is some row's. */
  ghost predicate Onto(r: seq<nat>, n: nat) {
    forall q :: 0 <= q < n ==> q in r
  }

  /** Each row's rank: the place of its group after the sort. */
  method RankRows(view: seq<nat>, cmp: (nat, nat) -> int, same: (nat, nat) -> bool, hash: nat -> nat, gid: seq<nat>,
          rep: seq<nat>, scratch: nat -> bool)
    returns (ghost order: seq<nat>, r: seq<nat>)
    requires Grouping(cmp, same, hash) && Numbered(same, view, gid, rep)
    ensures order == MergeSort.AfterSort(cmp, rep, scratch(|rep|)) && Ranked(cmp, view, r, order) && Onto(r, |order|)
  {
    hide Consistent, Grouping, Numbered, StableSorted, MergeSort.AfterSort, Ranked;
    NumberedParts(same, view, gid, rep);
    GroupingOrder(cmp, same, hash);
    RepsDiffer(cmp, same, hash, rep);
    var sorted, grank := Rank(rep, cmp, scratch);
    order := sorted[..];
    MergeSort.SortedAnyway(cmp, rep, scratch(|rep|));
    r := seq(|gid|, i requires 0 <= i < |gid| => grank[gid[i]]);
    RowsRanked(cmp, same, hash, view, gid, rep, order, grank, r);
  }

  lemma {:induction false} RankedAfter(cmp: (nat, nat) -> int, same: (nat, nat) -> bool, hash: nat -> nat,
          view: seq<nat>, gid: seq<nat>, rep: seq<nat>, granted: bool)
    requires Grouping(cmp, same, hash) && Numbered(same, view, gid, rep)
    ensures Rising(cmp, MergeSort.AfterSort(cmp, rep, granted)) <==> granted || Rising(cmp, rep)
  {
    hide Consistent, Grouping, Numbered, StableSorted;
    NumberedParts(same, view, gid, rep);
    GroupingOrder(cmp, same, hash);
    RepsDiffer(cmp, same, hash, rep);
    RisingAfter(cmp, rep, granted);
  }

  /** Rows and ranges with the rows of one key in each range, the keys in the order of `order`. */
  ghost predicate InClasses(cmp: (nat, nat) -> int, view: seq<nat>, order: seq<nat>, grp: seq<nat>,
          runs: seq<(nat, nat)>) {
    && IsRuns(cmp, grp, 0, runs) && Flat(KeyRuns.Groups(grp, runs)) == grp
    && KeyRuns.Groups(grp, runs) == ClassesOf(cmp, order, view)
  }

  lemma {:induction false} LaidInClasses(cmp: (nat, nat) -> int, view: seq<nat>, r: seq<nat>, order: seq<nat>,
          runs: seq<(nat, nat)>)
    requires Ranked(cmp, view, r, order) && Onto(r, |order|) && |runs| == |order|
    requires forall q :: 0 <= q < |runs| ==> runs[q] == (Start(view, r, q), Start(view, r, q + 1))
    ensures InClasses(cmp, view, order, Laid(view, r, |order|), runs)
  {
    hide Consistent, Start, Laid, Pick, Ranked;
    RanksBound(cmp, view, r, order);
    var s := Laid(view, r, |order|);
    StartAll(view, r, |order|);
    StartZero(view, r);
    BoundsAreRuns(cmp, view, r, order, runs, |order|);
    BoundsAreClasses(cmp, view, r, order, runs, 0);
    assert runs[..|order|] == runs && runs[0..] == runs && order[0..] == order && s[0..] == s;
    RunsToEnd(cmp, s, 0, runs);
  }

  lemma {:induction false} RanksBound(cmp: (nat, nat) -> int, view: seq<nat>, r: seq<nat>, order: seq<nat>)
    requires Ranked(cmp, view, r, order)
    ensures |view| == |r| && Consistent(cmp) && forall i :: 0 <= i < |r| ==> r[i] < |order|
    ensures |Laid(view, r, |order|)| == Start(view, r, |order|)
  {
  }

  lemma {:induction false} LaidGrouped(cmp: (nat, nat) -> int, view: seq<nat>, r: seq<nat>, order: seq<nat>,
          runs: seq<(nat, nat)>)
    requires Ranked(cmp, view, r, order) && Onto(r, |order|)
    requires InClasses(cmp, view, order, Laid(view, r, |order|), runs)
    ensures Grouped(cmp, view, Laid(view, r, |order|), runs) <==> Rising(cmp, order)
  {
    hide Consistent, StableSorted, Start, Laid, Pick, Ranked, Rising;
    RanksBound(cmp, view, r, order);
    var s := Laid(view, r, |order|);
    StableSortedSorts(cmp, view);
    if Rising(cmp, order) {
      LaidIsStableSort(cmp, view, r, order);
      StableSortUnique(cmp, view, s, StableSorted(cmp, view));
      RunsAreGroups(cmp, view, s, runs);
    } else if s == StableSorted(cmp, view) {
      SortedRises(cmp, view, r, order);
    }
  }

  /** When the result is right: nothing to group, or the first request is met and then, on the hash
      path if its memory suffices, the late ones are too and the keys' first rows can be sorted or
      are ascending; on the other path the rows can be sorted or are in key order. */
  ghost predicate Sound(cmp: (nat, nat) -> int, same: (nat, nat) -> bool, view: seq<nat>,
                        first: bool, room: Ask -> bool, late: bool, scratch: nat -> bool) {
    view == [] || (first &&
      var k := KeyCount(same, view);
      if Fits(room, k) then late && (scratch(k) || Rising(cmp, FirstRows(same, view)))
      else scratch(|view|) || Sorted(cmp, view))
  }

  /** What comes out, right or wrong: nothing, where the first request or a late one fails; the
      groups in the order of their first rows, where the sort of those has no buffer; and the ranges
      of neighbouring equal keys in the rows as they are, where the sort of the rows has none. */
  ghost predicate Outcome(cmp: (nat, nat) -> int, same: (nat, nat) -> bool, view: seq<nat>, first: bool,
                          room: Ask -> bool, late: bool, scratch: nat -> bool, grp: seq<nat>, runs: seq<(nat, nat)>) {
    if view == [] || !first then grp == [] && runs == []
    else if !Fits(room, KeyCount(same, view)) then
      grp == MergeSort.AfterSort(cmp, view, scratch(|view|)) && IsRuns(cmp, grp, 0, runs)
    else if !late then grp == [] && runs == []
    else InClasses(cmp, view, MergeSort.AfterSort(cmp, FirstRows(same, view), scratch(KeyCount(same, view))), grp, runs)
  }

  /** Cluster the visible rows by key.  `room` answers the requests for memory of the hash table:
      when one that is made fails the rows are sorted by comparison instead.  `first` answers the
      request before it, `late` those after it, and `scratch` the one of either sort. */
  method Cluster(view: seq<nat>, cmp: (nat, nat) -> int, same: (nat, nat) -> bool, hash: nat -> nat,
                 first: bool, room: Ask -> bool, late: bool, scratch: nat -> bool)
    returns (grp: seq<nat>, runs: seq<(nat, nat)>, hashed: bool)
    requires Grouping(cmp, same, hash)
    ensures hashed <==> view != [] && first && Fits(room, KeyCount(same, view))
    ensures Outcome(cmp, same, view, first, room, late, scratch, grp, runs)
    ensures Grouped(cmp, view, grp, runs) <==> Sound(cmp, same, view, first, room, late, scratch)
  {
    hide Grouped, Grouping, Numbered, Fits, FirstRows, InClasses;
    NothingGrouped(cmp, view);
    if view == [] || !first { return [], [], false; }
    var ok, gid, rep := Number(view, cmp, same, hash, room);
    hashed := ok;
    if !ok {
      GroupingOrder(cmp, same, hash);
      grp, runs := BySorting(view, cmp, scratch);
    } else if !late {
      grp, runs := [], [];
    } else {
      grp, runs := ByRank(view, cmp, same, hash, gid, rep, scratch);
    }
  }

  /** Inputs at which the promised fallback is missing, for any two rows with keys in ascending
      order and a hash table that gets all its memory (`room`) or its first buffers refused:
      one row and the first request refused, or a late one; three rows of two keys and no buffer to
      sort them, which the scan cuts into three ranges; two rows the wrong way round and no buffer to
      sort their groups. */
  lemma {:induction false} FallbackMissing(cmp: (nat, nat) -> int, same: (nat, nat) -> bool, hash: nat -> nat,
                                           a: nat, b: nat, room: Ask -> bool)
    requires Grouping(cmp, same, hash) && cmp(a, b) < 0 && room(Buffers)
    ensures forall s :: !Sound(cmp, same, [a], false, room, true, s) && !Sound(cmp, same, [a], true, room, false, s)
    ensures !Sound(cmp, same, [a, b, a], true, (x: Ask) => false, true, (n: nat) => false)
    ensures IsRuns(cmp, [a, b, a], 0, [(0, 1), (1, 2), (2, 3)])
    ensures Outcome(cmp, same, [a, b, a], true, (x: Ask) => false, true, (n: nat) => false, [a, b, a],
                    [(0, 1), (1, 2), (2, 3)])
    ensures !Sound(cmp, same, [b, a], true, room, true, (n: nat) => false)
    ensures Sound(cmp, same, [b, a], true, (x: Ask) => false, false, (n: nat) => true)
  {
    hide Consistent, Grouping, Doubled;
    GroupingOrder(cmp, same, hash);
    Flip(cmp, a, b);
    Flip(cmp, a, a);
    Flip(cmp, b, b);
    FewFit(room, KeyCount(same, [a]));
    FewFit(room, KeyCount(same, [b, a]));
    assert !Sorted(cmp, [a, b, a]) by { assert [a, b, a][1] == b && [a, b, a][2] == a; }
    ThreeRanges(cmp, a, b);
    TwoFirstRows(cmp, same, hash, a, b);
    assert !Rising(cmp, [b, a]) by { assert [b, a][0] == b && [b, a][1] == a; }
  }

  /** The first buffers hold up to 512 groups. */
  lemma {:induction false} FewFit(room: Ask -> bool, k: nat)
    requires room(Buffers) && 2 * k <= START
    ensures Fits(room, k)
  {
  }

  lemma {:induction false} ThreeRanges(cmp: (nat, nat) -> int, a: nat, b: nat)
    requires cmp(a, b) != 0 && cmp(b, a) != 0 && cmp(a, a) == 0 && cmp(b, b) == 0
    ensures IsRuns(cmp, [a, b, a], 0, [(0, 1), (1, 2), (2, 3)])
  {
    var s: seq<nat>, x: seq<(nat, nat)> := [a, b, a], [(0, 1), (1, 2), (2, 3)];
    assert x[1..] == [(1, 2), (2, 3)] && x[1..][1..] == [(2, 3)] && x[1..][1..][1..] == [];
    assert IsRuns(cmp, s, 3, []);
    assert IsRuns(cmp, s, 2, [(2, 3)]);
    assert IsRuns(cmp, s, 1, [(1, 2), (2, 3)]);
  }

  lemma {:induction false} TwoFirstRows(cmp: (nat, nat) -> int, same: (nat, nat) -> bool, hash: nat -> nat,
                                        a: nat, b: nat)
    requires Grouping(cmp, same, hash) && cmp(a, b) != 0
    ensures FirstRows(same, [b, a]) == [b, a]
  {
    hide Consistent;
    assert [b, a][..1] == [b] && [b][..0] == [];
    assert FirstRows(same, []) == [];
    assert !SeenIn(same, b, []);
    assert FirstRows(same, [b]) == [b];
    assert !SeenIn(same, a, [b]);
  }

  /** An empty result is right for an empty view only. */
  lemma {:induction false} NothingGrouped(cmp: (nat, nat) -> int, view: seq<nat>)
    ensures Grouped(cmp, view, [], []) <==> view == []
  {
    if view == [] {
      assert StableSorted(cmp, view) == [];
      assert Flat(KeyRuns.Groups([], [])) == [];
    } else {
      assert |StableSorted(cmp, view)| == |view|;
    }
  }

  lemma {:induction false} GroupingOrder(cmp: (nat, nat) -> int, same: (nat, nat) -> bool, hash: nat -> nat)
    requires Grouping(cmp, same, hash)
    ensures Consistent(cmp)
  {
  }

  lemma {:induction false} RepsDiffer(cmp: (nat, nat) -> int, same: (nat, nat) -> bool, hash: nat -> nat, rep: seq<nat>)
    requires Grouping(cmp, same, hash) && forall g, h :: 0 <= g < h < |rep| ==> !same(rep[g], rep[h])
    ensures forall g, h :: 0 <= g < h < |rep| ==> cmp(rep[g], rep[h]) != 0
  {
  }

  datatype GroupResult = Rejected | Result(grp: seq<nat>, runs: seq<(nat, nat)>, hashed: bool)

  function KeyTest(cols: seq<Col>, kcols: seq<int>): (nat, nat) -> bool
    requires KeysIn(cols, kcols)
  {
    (a: nat, b: nat) => SameKey(cols, kcols, a, b)
  }

  function KeyHash(h: Cell -> bv32, cols: seq<Col>, kcols: seq<int>): nat -> nat
    requires KeysIn(cols, kcols)
  {
    (row: nat) => RowHash(h, cols, kcols, row, 2166136261) as nat
  }

  /** Whatever the cell hash, hashing by the key columns fits sorting by them. */
  lemma {:induction false} KeysGroup(h: Cell -> bv32, cols: seq<Col>, kcols: seq<int>)
    requires KeysIn(cols, kcols)
    ensures Grouping(RowOrder(cols, Ascending(kcols)), KeyTest(cols, kcols), KeyHash(h, cols, kcols))
  {
    var cmp, same, hash := RowOrder(cols, Ascending(kcols)), KeyTest(cols, kcols), KeyHash(h, cols, kcols);
    RowOrderConsistent(cols, Ascending(kcols));
    forall a: nat, b: nat ensures same(a, b) <==> cmp(a, b) == 0 { SameKeyIsTie(cols, kcols, a, b); }
    forall a: nat, b: nat | same(a, b) ensures hash(a) == hash(b) { SameKeySameHash(h, cols, kcols, a, b, 2166136261); }
  }

  /** The key cells of row `a` come before those of row `b`: the first column on which they differ
      has the smaller number or text in `a`. */
  ghost predicate KeyBefore(cols: seq<Col>, kcols: seq<int>, a: nat, b: nat)
    requires KeysIn(cols, kcols)
  {
    kcols != [] &&
    if CellSame(cols[kcols[0]], a, b) then KeyBefore(cols, kcols[1..], a, b) else CellLess(cols[kcols[0]], a, b)
  }

  lemma {:induction false} KeyBeforeIs(cols: seq<Col>, kcols: seq<int>, a: nat, b: nat)
    requires KeysIn(cols, kcols)
    ensures KeyBefore(cols, kcols, a, b) <==> CmpRows(cols, Ascending(kcols), a, b) < 0
  {
    hide CmpCol, CellLess, CellSame;
    if kcols != [] {
      CellLessIs(cols[kcols[0]], a, b);
      KeyBeforeIs(cols, kcols[1..], a, b);
      assert Ascending(kcols)[1..] == Ascending(kcols[1..]);
    }
  }

  /** Every range's key comes before those of the ranges behind it. */
  ghost predicate RangesRise(cols: seq<Col>, kcols: seq<int>, grp: seq<nat>, runs: seq<(nat, nat)>)
    requires KeysIn(cols, kcols)
  {
    && (forall i :: 0 <= i < |runs| ==> runs[i].0 < |grp|)
    && (forall i, j :: 0 <= i < j < |runs| ==> KeyBefore(cols, kcols, grp[runs[i].0], grp[runs[j].0]))
  }

  lemma {:induction false} GroupsRise(cols: seq<Col>, kcols: seq<int>, view: seq<nat>, grp: seq<nat>,
          runs: seq<(nat, nat)>)
    requires KeysIn(cols, kcols) && Grouped(RowOrder(cols, Ascending(kcols)), view, grp, runs)
    ensures RangesRise(cols, kcols, grp, runs)
  {
    hide Consistent, StableSorted, KeyBefore, CmpRows;
    var cmp := RowOrder(cols, Ascending(kcols));
    RowOrderConsistent(cols, Ascending(kcols));
    StableSortedSorts(cmp, view);
    RunsRise(cmp, grp, 0, runs);
    forall i, j | 0 <= i < j < |runs| ensures KeyBefore(cols, kcols, grp[runs[i].0], grp[runs[j].0]) {
      KeyBeforeIs(cols, kcols, grp[runs[i].0], grp[runs[j].0]);
    }
  }

  /** ct_group_by up to the reduction of each range: one output row per range, its key cells read
      from the range's first row. */
  method GroupTable(t: Table, keycols: seq<int>, aggcols: seq<int>, h: Cell -> bv32,
                    first: bool, room: Ask -> bool, late: bool, scratch: nat -> bool)
    returns (r: GroupResult)
    requires t.Valid()
    ensures r.Rejected? <==> keycols == [] || |keycols| > 64 || !KeysIn(t.cols, keycols) || !KeysIn(t.cols, aggcols)
    ensures r.Result? ==>
      var cmp, same := RowOrder(t.cols, Ascending(keycols)), KeyTest(t.cols, keycols);
      && (Grouped(cmp, t.View(), r.grp, r.runs) <==> Sound(cmp, same, t.View(), first, room, late, scratch))
      && Outcome(cmp, same, t.View(), first, room, late, scratch, r.grp, r.runs)
      && (Sound(cmp, same, t.View(), first, room, late, scratch) ==> RangesRise(t.cols, keycols, r.grp, r.runs))
      && (r.hashed <==> t.View() != [] && first && Fits(room, KeyCount(same, t.View())))
  {
    if keycols == [] || |keycols| > 64 { return Rejected; }
    var i := 0;
    while i < |keycols|
      invariant i <= |keycols| && KeysIn(t.cols, keycols[..i])
    {
      if keycols[i] < 0 || keycols[i] >= |t.cols| { return Rejected; }
      i := i + 1;
    }
    assert keycols[..i] == keycols;
    i := 0;
    while i < |aggcols|
      invariant i <= |aggcols| && KeysIn(t.cols, aggcols[..i])
    {
      if aggcols[i] < 0 || aggcols[i] >= |t.cols| { return Rejected; }
      i := i + 1;
    }
    assert aggcols[..i] == aggcols;
    KeysGroup(h, t.cols, keycols);
    var grp, runs, hashed := Cluster(t.idx[..t.vlen], RowOrder(t.cols, Ascending(keycols)), KeyTest(t.cols, keycols),
                                     KeyHash(h, t.cols, keycols), first, room, late, scratch);
    if Sound(RowOrder(t.cols, Ascending(keycols)), KeyTest(t.cols, keycols), t.View(), first, room, late, scratch) {
      GroupsRise(t.cols, keycols, t.View(), grp, runs);
    }
    return Result(grp, runs, hashed);
  }
}
