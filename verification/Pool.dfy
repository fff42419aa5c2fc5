/** The size-class pool under every runtime allocation: slots bumped out of zeroed chunks, freed
    slots kept on intrusive lists, large requests passed on to the C library.  The word at a
    block's start is its header while it is in use and the list link while it is free. */
module Pool {
  import opened Basics

  type Addr = nat // 0 is NULL

  const HDR := 8
  const CHUNK := 65536
  const SLOTS: seq<nat> := [16, 32, 48, 64, 96, 128, 192, 256, 384, 512]
  const CLASSES := 10
  const POOL_MAX := 512

  datatype Word = Class(c: nat) | Large(n: nat) | Next(to: Addr)

  /** What a slot is used for. */
  datatype Use = Live | Free(c: nat)

  datatype Region = Region(size: nat, use: Use)

  type Regions = map<Addr, Region>

  /** The smallest class that fits, or -1. */
  function ClassFrom(total: nat, i: nat): (c: int)
    requires i <= CLASSES
    ensures -1 <= c < CLASSES
    ensures c >= 0 ==> i <= c && total <= SLOTS[c] && forall j :: i <= j < c ==> SLOTS[j] < total
    ensures c < 0 ==> forall j :: i <= j < CLASSES ==> SLOTS[j] < total
    decreases CLASSES - i
  {
    if i == CLASSES then -1 else if total <= SLOTS[i] then i else ClassFrom(total, i + 1)
  }

  /** The class of a request, header included; -1 for a large one. */
  function ClassOf(n: nat): (c: int)
    ensures -1 <= c < CLASSES && (c >= 0 <==> n + HDR <= POOL_MAX) && (c >= 0 ==> n + HDR <= SLOTS[c])
  {
    if n + HDR <= POOL_MAX then ClassFrom(n + HDR, 0) else -1
  }

  predicate Apart(a: Addr, m: nat, b: Addr, n: nat) { a + m <= b || b + n <= a }

  /** [a, a + n) meets nothing of [lo, hi). */
  predicate Clear(a: Addr, n: nat, lo: Addr, hi: Addr) { lo >= hi || a + n <= lo || hi <= a }

  /** [a, a + n) meets no slot and no bump space: what the C library hands out. */
  ghost predicate Unused(regions: Regions, bump: seq<Addr>, end: seq<Addr>, a: Addr, n: nat) {
    && a > 0 && |bump| == |end|
    && (forall b :: b in regions ==> Apart(a, n, b, regions[b].size))
    && (forall c :: 0 <= c < |bump| ==> Clear(a, n, bump[c], end[c]))
  }

  /** The contents of memory, header words aside. */
  type Bytes = Addr -> nat

  /** memset to zero. */
  function Zeroed(bytes: Bytes, a: Addr, n: nat): Bytes {
    (x: Addr) => if a <= x < a + n then 0 else bytes(x)
  }

  /** memcpy of `n` bytes between places that do not overlap. */
  function Copied(bytes: Bytes, to: Addr, from: Addr, n: nat): Bytes {
    (x: Addr) => if to <= x < to + n then bytes(from + (x - to)) else bytes(x)
  }

  // ---------------------------------------------------------------- the invariant

  ghost predicate SlotsApart(regions: Regions) {
    && (forall a :: a in regions ==> a > 0 && regions[a].size > 0)
    && (forall a, b :: a in regions && b in regions && a != b ==> Apart(a, regions[a].size, b, regions[b].size))
  }

  ghost predicate SlotsClear(regions: Regions, lo: Addr, hi: Addr) {
    forall a :: a in regions ==> Clear(a, regions[a].size, lo, hi)
  }

  ghost predicate SpacesApart(bump: seq<Addr>, end: seq<Addr>) {
    && |bump| == |end| == CLASSES
    && (forall c :: 0 <= c < CLASSES && bump[c] < end[c] ==> bump[c] > 0)
    && (forall c, d :: 0 <= c < CLASSES && 0 <= d < CLASSES && c != d && bump[c] < end[c] ==>
          Clear(bump[c], end[c] - bump[c], bump[d], end[d]))
  }

  /** Slots and large blocks are disjoint from each other and from all unused bump space. */
  ghost predicate Disjoint(regions: Regions, bump: seq<Addr>, end: seq<Addr>) {
    && SlotsApart(regions) && SpacesApart(bump, end)
    && (forall c :: 0 <= c < CLASSES ==> SlotsClear(regions, bump[c], end[c]))
  }

  /** Bump space is zero. */
  ghost predicate ZeroAhead(bytes: Bytes, bump: seq<Addr>, end: seq<Addr>) {
    |bump| == |end| == CLASSES && forall c, x: Addr :: 0 <= c < CLASSES && bump[c] <= x < end[c] ==> bytes(x) == 0
  }

  /** The links from `head` run through `list`, in order, to NULL. */
  ghost predicate Linked(words: map<Addr, Word>, head: Addr, list: seq<Addr>)
    decreases |list|
  {
    if list == [] then head == 0
    else head == list[0] && head in words && words[head].Next? && Linked(words, words[head].to, list[1..])
  }

  /** Words elsewhere do not matter to a list. */
  lemma {:induction false} LinkedKeeps(words: map<Addr, Word>, words1: map<Addr, Word>, head: Addr, list: seq<Addr>)
    requires Linked(words, head, list) && forall x :: x in list ==>
        x in words1 && (x in words ==> words1[x] == words[x])
    ensures Linked(words1, head, list)
    decreases |list|
  {
    if list != [] { LinkedKeeps(words, words1, words[head].to, list[1..]); }
  }

  /** `list` lists the free slots of class `c`, each once. */
  ghost predicate ListsFree(regions: Regions, c: nat, list: seq<Addr>) {
    && (forall a :: a in regions && regions[a].use == Free(c) <==> a in list)
    && (forall i, j :: 0 <= i < j < |list| ==> list[i] != list[j])
  }

  /** Free slots have their class's size, and a block in use has a header that tells its size. */
  ghost predicate Sized(words: map<Addr, Word>, regions: Regions) {
    forall a :: a in regions ==>
      match regions[a].use
      case Free(c) => c < CLASSES && regions[a].size == SLOTS[c]
      case Live => a in words && Tells(words[a], regions[a].size)
  }

  predicate Tells(w: Word, size: nat) {
    match w
    case Class(c) => c < CLASSES && size == SLOTS[c]
    case Large(n) => size == n + HDR
    case Next(_) => false
  }

  ghost predicate Inv(words: map<Addr, Word>, bytes: Bytes, freelist: seq<Addr>, bump: seq<Addr>, end: seq<Addr>,
                      regions: Regions, lists: seq<seq<Addr>>) {
    && Disjoint(regions, bump, end) && Sized(words, regions) && ZeroAhead(bytes, bump, end)
    && |freelist| == |lists| == CLASSES
    && (forall c :: 0 <= c < CLASSES ==> Linked(words, freelist[c], lists[c]) && ListsFree(regions, c, lists[c]))
  }

  /** The blocks in use other than `a` are as before, content included. */
  ghost predicate Others(regions: Regions, bytes: Bytes, regions1: Regions, bytes1: Bytes, a: Addr) {
    && (forall b :: b != a ==> (b in regions && regions[b].use == Live <==> b in regions1 && regions1[b].use == Live))
    && (forall b :: b in regions && regions[b].use == Live && b != a ==>
         && b in regions1 && regions1[b] == regions[b]
         && forall x: Addr :: b + HDR <= x < b + regions[b].size ==> bytes1(x) == bytes(x))
  }

  // ---------------------------------------------------------------- single steps

  function Used(regions: Regions, a: Addr, size: nat): Regions {
    regions[a := Region(size, Live)]
  }

  /** The first free slot of a class taken off its list. */
  lemma {:induction false} PopFree(words: map<Addr, Word>, bytes: Bytes, freelist: seq<Addr>, bump: seq<Addr>,
          end: seq<Addr>,
                regions: Regions, lists: seq<seq<Addr>>, c: nat)
    requires Inv(words, bytes, freelist, bump, end, regions, lists) && c < CLASSES && freelist[c] != 0
    ensures var a := freelist[c];
      && a in words && words[a].Next? && a in regions && regions[a].use == Free(c) && lists[c] != [] && a != 0
      && var regions1, bytes1 := Used(regions, a, SLOTS[c]), Zeroed(bytes, a, SLOTS[c]);
      && Inv(words[a := Class(c)], bytes1, freelist[c := words[a].to], bump, end, regions1, lists[c := lists[c][1..]])
      && Others(regions, bytes, regions1, bytes1, a)
  {
    var a, list := freelist[c], lists[c];
    assert Linked(words, freelist[c], list) && ListsFree(regions, c, list);
    assert a == list[0] && a in list;
    var regions1, bytes1, words1 := Used(regions, a, SLOTS[c]), Zeroed(bytes, a, SLOTS[c]), words[a := Class(c)];
    var freelist1, lists1 := freelist[c := words[a].to], lists[c := list[1..]];
    forall d: nat | d < CLASSES ensures Linked(words1, freelist1[d], lists1[d]) && ListsFree(regions1, d, lists1[d]) {
      assert Linked(words, freelist[d], lists[d]) && ListsFree(regions, d, lists[d]);
      ListsLess(regions, d, lists[d], a, SLOTS[c]);
      if d == c { assert a !in list[1..]; } else { assert a !in lists[d]; }
      LinkedAll(words, words1, freelist1[d], lists1[d], a);
    }
    forall d, x: Addr | 0 <= d < CLASSES && bump[d] <= x < end[d] ensures bytes1(x) == 0 {
      assert bytes(x) == 0;
    }
  }

  lemma {:induction false} LinkedAll(words: map<Addr, Word>, words1: map<Addr, Word>, head: Addr, list: seq<Addr>,
          a: Addr)
    requires Linked(words, head, list) && a !in list
    requires forall x :: x in words && x != a ==> x in words1 && words1[x] == words[x]
    ensures Linked(words1, head, list)
  {
    LinkedIn(words, head, list);
    LinkedKeeps(words, words1, head, list);
  }

  lemma {:induction false} LinkedIn(words: map<Addr, Word>, head: Addr, list: seq<Addr>)
    requires Linked(words, head, list)
    ensures forall x :: x in list ==> x in words
    decreases |list|
  {
    if list != [] {
      LinkedIn(words, words[head].to, list[1..]);
      assert list == [list[0]] + list[1..];
    }
  }

  /** A slot put to use leaves the list it headed. */
  lemma {:induction false} ListsLess(regions: Regions, d: nat, list: seq<Addr>, a: Addr, size: nat)
    requires a in regions && ListsFree(regions, d, list)
    requires regions[a].use == Free(d) ==> list != [] && list[0] == a
    ensures regions[a].use == Free(d) ==> ListsFree(Used(regions, a, size), d, list[1..]) && a !in list[1..]
    ensures regions[a].use != Free(d) ==> ListsFree(Used(regions, a, size), d, list) && a !in list
  {
    if regions[a].use == Free(d) {
      var rest := list[1..];
      assert list == [a] + rest;
      assert forall i :: 0 <= i < |rest| ==> rest[i] == list[i + 1] && rest[i] != list[0];
    }
  }

  function Without(regions: Regions, a: Addr): Regions {
    map x | x in regions && x != a :: regions[x]
  }

  /** Lists of free slots do not see changes among other regions. */
  lemma {:induction false} ListsKeep(words: map<Addr, Word>, words1: map<Addr, Word>, freelist: seq<Addr>,
          regions: Regions, regions1: Regions,
                  lists: seq<seq<Addr>>, a: Addr, d: nat)
    requires d < |freelist| == |lists| && Linked(words, freelist[d], lists[d]) && ListsFree(regions, d, lists[d])
    requires forall x :: x in words && x != a ==> x in words1 && words1[x] == words[x]
    requires forall x :: (x in regions && regions[x].use == Free(d)) <==> (x in regions1 && regions1[x].use == Free(d))
    requires a in regions ==> !regions[a].use.Free?
    ensures Linked(words1, freelist[d], lists[d]) && ListsFree(regions1, d, lists[d])
  {
    LinkedAll(words, words1, freelist[d], lists[d], a);
  }

  /** A block given back to its class: it heads the list. */
  lemma {:induction false} PushFree(words: map<Addr, Word>, bytes: Bytes, freelist: seq<Addr>, bump: seq<Addr>,
          end: seq<Addr>,
                 regions: Regions, lists: seq<seq<Addr>>, a: Addr, c: nat)
    requires Inv(words, bytes, freelist, bump, end, regions, lists)
    requires a in regions && regions[a].use == Live && words[a] == Class(c)
    ensures c < CLASSES
    ensures var regions1 := regions[a := Region(SLOTS[c], Free(c))];
      && Inv(words[a := Next(freelist[c])], bytes, freelist[c := a], bump, end, regions1, lists[c := [a] + lists[c]])
      && Others(regions, bytes, regions1, bytes, a)
  {
    var words1, regions1 := words[a := Next(freelist[c])], regions[a := Region(SLOTS[c], Free(c))];
    var freelist1, lists1 := freelist[c := a], lists[c := [a] + lists[c]];
    forall d: nat | d < CLASSES ensures Linked(words1, freelist1[d], lists1[d]) && ListsFree(regions1, d, lists1[d]) {
      assert Linked(words, freelist[d], lists[d]) && ListsFree(regions, d, lists[d]);
      assert a !in lists[d];
      LinkedAll(words, words1, freelist[d], lists[d], a);
      if d == c {
        assert lists1[d][1..] == lists[d];
      }
    }
  }

  /** A slot cut from the front of the bump space. */
  lemma {:induction false} CutBump(words: map<Addr, Word>, bytes: Bytes, freelist: seq<Addr>, bump: seq<Addr>,
          end: seq<Addr>,
                regions: Regions, lists: seq<seq<Addr>>, c: nat)
    requires Inv(words, bytes, freelist, bump, end, regions, lists) && c < CLASSES && bump[c] + SLOTS[c] <= end[c]
    ensures var a, size := bump[c], SLOTS[c];
      && a > 0 && a !in regions
      && Inv(words[a := Class(c)], bytes, freelist, bump[c := a + size], end, Used(regions, a, size), lists)
      && (forall x: Addr :: a <= x < a + size ==> bytes(x) == 0)
      && Others(regions, bytes, Used(regions, a, size), bytes, a)
  {
    var a, size := bump[c], SLOTS[c];
    var words1, regions1 := words[a := Class(c)], Used(regions, a, size);
    assert SlotsClear(regions, bump[c], end[c]);
    assert a in regions ==> Clear(a, regions[a].size, bump[c], end[c]);
    CutDisjoint(regions, bump, end, c);
    forall d: nat | d < CLASSES ensures Linked(words1, freelist[d], lists[d]) && ListsFree(regions1, d, lists[d]) {
      assert Linked(words, freelist[d], lists[d]) && ListsFree(regions, d, lists[d]);
      ListsKeep(words, words1, freelist, regions, regions1, lists, a, d);
    }
  }

  lemma {:induction false} CutDisjoint(regions: Regions, bump: seq<Addr>, end: seq<Addr>, c: nat)
    requires Disjoint(regions, bump, end) && c < CLASSES && bump[c] + SLOTS[c] <= end[c] && bump[c] !in regions
    ensures Disjoint(Used(regions, bump[c], SLOTS[c]), bump[c := bump[c] + SLOTS[c]], end)
  {
    assert |end| == CLASSES && bump[c] > 0;
    hide SlotsApart, SlotsClear, SpacesApart;
    var a, size := bump[c], SLOTS[c];
    var regions1, bump1 := Used(regions, a, size), bump[c := a + size];
    CutSpaces(bump, end, c, size);
    assert SlotsClear(regions, bump[c], end[c]);
    CutSlots(regions, a, size, end[c]);
    forall d | 0 <= d < CLASSES ensures SlotsClear(regions1, bump1[d], end[d]) {
      assert SlotsClear(regions, bump[d], end[d]);
      CutClear(regions, bump, end, c, size, d);
    }
  }

  lemma {:induction false} CutSpaces(bump: seq<Addr>, end: seq<Addr>, c: nat, size: nat)
    requires SpacesApart(bump, end) && c < CLASSES && bump[c] + size <= end[c]
    ensures SpacesApart(bump[c := bump[c] + size], end)
  {
    var bump1 := bump[c := bump[c] + size];
    forall d, e | 0 <= d < CLASSES && 0 <= e < CLASSES && d != e && bump1[d] < end[d]
      ensures Clear(bump1[d], end[d] - bump1[d], bump1[e], end[e])
    {
      assert Clear(bump[d], end[d] - bump[d], bump[e], end[e]);
    }
  }

  lemma {:induction false} CutSlots(regions: Regions, a: Addr, size: nat, end: Addr)
    requires SlotsApart(regions) && SlotsClear(regions, a, end) && a !in regions && a > 0 && 0 < size && a + size <= end
    ensures SlotsApart(Used(regions, a, size))
  {
    forall b | b in regions ensures Apart(a, size, b, regions[b].size) && Apart(b, regions[b].size, a, size) {
      assert Clear(b, regions[b].size, a, end);
    }
  }

  lemma {:induction false} CutClear(regions: Regions, bump: seq<Addr>, end: seq<Addr>, c: nat, size: nat, d: nat)
    requires SpacesApart(bump, end) && c < CLASSES && d < CLASSES && 0 < size && bump[c] + size <= end[c]
    requires SlotsClear(regions, bump[d], end[d])
    ensures SlotsClear(Used(regions, bump[c], size), bump[c := bump[c] + size][d], end[d])
  {
    assert d != c ==> Clear(bump[c], end[c] - bump[c], bump[d], end[d]);
    forall b | b in regions ensures Clear(b, regions[b].size, bump[c := bump[c] + size][d], end[d]) {
      assert Clear(b, regions[b].size, bump[d], end[d]);
    }
  }

  /** A new chunk for a class; what was left of the old one is given up. */
  lemma {:induction false} OpenChunk(words: map<Addr, Word>, bytes: Bytes, freelist: seq<Addr>, bump: seq<Addr>,
          end: seq<Addr>,
                  regions: Regions, lists: seq<seq<Addr>>, c: nat, a: Addr)
    requires Inv(words, bytes, freelist, bump, end, regions, lists) && c < CLASSES
        && Unused(regions, bump, end, a, CHUNK)
    ensures Inv(words, Zeroed(bytes, a, CHUNK), freelist, bump[c := a], end[c := a + CHUNK], regions, lists)
    ensures Others(regions, bytes, regions, Zeroed(bytes, a, CHUNK), 0)
  {
    hide Linked, ListsFree, Sized;
    var bytes1 := Zeroed(bytes, a, CHUNK);
    forall b, x: Addr | b in regions && b <= x < b + regions[b].size ensures bytes1(x) == bytes(x) {
      assert Apart(a, CHUNK, b, regions[b].size);
    }
    var bump1, end1 := bump[c := a], end[c := a + CHUNK];
    forall d, e | 0 <= d < CLASSES && 0 <= e < CLASSES && d != e && bump1[d] < end1[d]
      ensures Clear(bump1[d], end1[d] - bump1[d], bump1[e], end1[e])
    {
      if d != c && e != c {
        assert Clear(bump[d], end[d] - bump[d], bump[e], end[e]);
      } else {
        assert Clear(a, CHUNK, bump[d], end[d]) && Clear(a, CHUNK, bump[e], end[e]);
      }
    }
    forall d: nat | d < CLASSES ensures SlotsClear(regions, bump1[d], end1[d]) {
      assert SlotsClear(regions, bump[d], end[d]);
      forall b | b in regions ensures Clear(b, regions[b].size, bump1[d], end1[d]) {
        assert Clear(b, regions[b].size, bump[d], end[d]) && Apart(a, CHUNK, b, regions[b].size);
      }
    }
  }

  /** A large block from the C library. */
  lemma {:induction false} AddLarge(words: map<Addr, Word>, bytes: Bytes, freelist: seq<Addr>, bump: seq<Addr>,
          end: seq<Addr>,
                 regions: Regions, lists: seq<seq<Addr>>, n: nat, a: Addr)
    requires Inv(words, bytes, freelist, bump, end, regions, lists) && Unused(regions, bump, end, a, n + HDR)
    ensures var bytes1, regions1 := Zeroed(bytes, a, n + HDR), Used(regions, a, n + HDR);
      && a !in regions
      && Inv(words[a := Large(n)], bytes1, freelist, bump, end, regions1, lists)
      && Others(regions, bytes, regions1, bytes1, a)
  {
    hide Inv, Unused;
    var regions1, bytes1 := Used(regions, a, n + HDR), Zeroed(bytes, a, n + HDR);
    AddRegion(words, bytes, freelist, bump, end, regions, lists, n, a);
    WriteInside(words[a := Large(n)], bytes, bytes1, freelist, bump, end, regions1, lists, a);
  }

  /** A large block given back to the C library. */
  lemma {:induction false} DropLarge(words: map<Addr, Word>, bytes: Bytes, freelist: seq<Addr>, bump: seq<Addr>,
          end: seq<Addr>,
                  regions: Regions, lists: seq<seq<Addr>>, a: Addr)
    requires Inv(words, bytes, freelist, bump, end, regions, lists) && a in regions && regions[a].use == Live
    ensures Inv(words, bytes, freelist, bump, end, Without(regions, a), lists)
    ensures Others(regions, bytes, Without(regions, a), bytes, a)
  {
    var regions1 := Without(regions, a);
    forall d: nat | d < CLASSES ensures Linked(words, freelist[d], lists[d]) && ListsFree(regions1, d, lists[d]) {
      assert Linked(words, freelist[d], lists[d]) && ListsFree(regions, d, lists[d]);
    }
  }

  // ---------------------------------------------------------------- the allocator

  /** A block just handed out: new, in use, big enough and zero. */
  ghost predicate Handed(regions: Regions, regions1: Regions, bytes1: Bytes, a: Addr, n: nat) {
    && (a in regions ==> regions[a].use != Live)
    && a in regions1 && regions1[a].use == Live && regions1[a].size >= n + HDR
    && forall x: Addr :: a + HDR <= x < a + regions1[a].size ==> bytes1(x) == 0
  }

  /** A block given back, by what its header says. */
  ghost predicate Returned(w: Word, r0: Regions, l0: seq<seq<Addr>>, a: Addr, r1: Regions, l1: seq<seq<Addr>>,
                           freelist: seq<Addr>) {
    match w
    case Class(c) =>
      && c < |freelist| && c < |l0| && c < CLASSES && freelist[c] == a && l1 == l0[c := [a] + l0[c]]
      && r1 == r0[a := Region(SLOTS[c], Free(c))]
    case Large(_) => r1 == Without(r0, a) && l1 == l0
    case Next(_) => false
  }

  class Allocator {
    var words: map<Addr, Word>
    var bytes: Bytes
    var freelist: seq<Addr>
    var bump: seq<Addr>
    var end: seq<Addr>
    ghost var regions: Regions
    ghost var lists: seq<seq<Addr>>

    ghost predicate Valid()
      reads this
    {
      Inv(words, bytes, freelist, bump, end, regions, lists)
    }

    /** The C library answers requests for memory with unused stretches, or 0. */
    ghost predicate Honest(calloc: nat -> Addr)
      reads this
    {
      forall n :: calloc(n) != 0 ==> Unused(regions, bump, end, calloc(n), n)
    }

    /** The size a request counts as. */
    static function Asked(n: nat): nat { if n == 0 then 1 else n }

    /** Where the next block for `n` bytes comes from: the C library for a large one, else the
        class's free list, its bump space or a new chunk, in this order; 0 if there is no memory. */
    ghost function Source(n: nat, calloc: nat -> Addr): Addr
      reads this
      requires Valid()
    {
      var c := ClassOf(Asked(n));
      if c < 0 then calloc(Asked(n) + HDR)
      else if freelist[c] != 0 then freelist[c]
      else if bump[c] + SLOTS[c] <= end[c] then bump[c]
      else calloc(CHUNK)
    }

    /** The free lists once that block is taken. */
    ghost function ListsAfter(n: nat): seq<seq<Addr>>
      reads this
      requires Valid()
    {
      var c := ClassOf(Asked(n));
      if c >= 0 && lists[c] != [] then lists[c := lists[c][1..]] else lists
    }

    ghost function HeaderOf(p: Addr): Word
      reads this
    {
      if p >= HDR && p - HDR in words then words[p - HDR] else Next(0)
    }

    /** Where a block of `n` > 0 bytes is after a resize; 0 if there is no memory for it. */
    ghost function Place(p: Addr, n: nat, calloc: nat -> Addr, libc: Addr): Addr
      reads this
      requires Valid() && p >= HDR
    {
      if HeaderOf(p).Large? && ClassOf(n) < 0 then libc
      else if ClassOf(n) >= 0 && HeaderOf(p) == Class(ClassOf(n)) then p - HDR
      else Source(n, calloc)
    }

    constructor ()
      ensures Valid() && regions == map[]
    {
      words, bytes := map[], (_ => 0);
      freelist, bump, end := seq(CLASSES, _ => 0), seq(CLASSES, _ => 0), seq(CLASSES, _ => 0);
      regions, lists := map[], seq(CLASSES, _ => []);
    }

    method AllocLarge(n: nat, calloc: nat -> Addr) returns (a: Addr)
      requires Valid() && Honest(calloc)
      modifies this
      ensures Valid()
      ensures a != 0 ==> Handed(old(regions), regions, bytes, a, n)
      ensures a != 0 ==> Others(old(regions), old(bytes), regions, bytes, a)
      ensures a == 0 ==> regions == old(regions) && bytes == old(bytes)
      ensures a == calloc(n + HDR) && lists == old(lists)
    {
      hide Inv, Others;
      a := calloc(n + HDR);
      if a == 0 { return; }
      AddLarge(words, bytes, freelist, bump, end, regions, lists, n, a);
      words, bytes, regions := words[a := Large(n)], Zeroed(bytes, a, n + HDR), Used(regions, a, n + HDR);
    }

    /** A slot from the class's free list, zeroed again. */
    method PopSlot(c: nat, n: nat) returns (a: Addr)
      requires Valid() && c < CLASSES && |freelist| == CLASSES && freelist[c] != 0 && n + HDR <= SLOTS[c]
      modifies this
      ensures Valid() && a != 0 && Handed(old(regions), regions, bytes, a, n)
      ensures Others(old(regions), old(bytes), regions, bytes, a)
      ensures a == old(freelist[c]) && |old(lists)| == CLASSES && old(lists[c]) != []
      ensures lists == old(lists)[c := old(lists[c])[1..]]
    {
      hide Inv, Others;
      Lengths(words, bytes, freelist, bump, end, regions, lists);
      a := freelist[c];
      PopFree(words, bytes, freelist, bump, end, regions, lists, c);
      freelist := freelist[c := words[a].to];
      words, bytes := words[a := Class(c)], Zeroed(bytes, a, SLOTS[c]);
      regions, lists := Used(regions, a, SLOTS[c]), lists[c := lists[c][1..]];
    }

    /** Bump space for one more slot of the class. */
    method Refill(c: nat, calloc: nat -> Addr) returns (ok: bool)
      requires Valid() && Honest(calloc) && c < CLASSES && |bump| == |end| == CLASSES
      modifies `bytes, `bump, `end
      ensures Valid() && |bump| == |end| == CLASSES && Others(old(regions), old(bytes), regions, bytes, 0)
      ensures old(bump[c] + SLOTS[c] <= end[c]) ==> ok && bump == old(bump)
      ensures old(bump[c] + SLOTS[c] > end[c]) ==> (ok <==> calloc(CHUNK) != 0) && (ok ==> bump[c] == calloc(CHUNK))
      ensures if ok then bump[c] + SLOTS[c] <= end[c] else bytes == old(bytes)
    {
      hide Inv, Others;
      Lengths(words, bytes, freelist, bump, end, regions, lists);
      if bump[c] + SLOTS[c] > end[c] {
        var chunk := calloc(CHUNK);
        if chunk == 0 {
          OthersSame(regions, bytes, 0);
          return false;
        }
        OpenChunk(words, bytes, freelist, bump, end, regions, lists, c, chunk);
        bytes, bump, end := Zeroed(bytes, chunk, CHUNK), bump[c := chunk], end[c := chunk + CHUNK];
      } else {
        OthersSame(regions, bytes, 0);
      }
      return true;
    }

    method BumpSlot(c: nat, n: nat) returns (a: Addr)
      requires Valid() && c < CLASSES && |bump| == |end| == CLASSES && bump[c] + SLOTS[c] <= end[c]
          && n + HDR <= SLOTS[c]
      modifies this
      ensures Valid() && bytes == old(bytes) && lists == old(lists) && a == old(bump[c])
      ensures a != 0 && Handed(old(regions), regions, bytes, a, n)
          && Others(old(regions), old(bytes), regions, bytes, a)
    {
      hide Inv, Others;
      Lengths(words, bytes, freelist, bump, end, regions, lists);
      a := bump[c];
      CutBump(words, bytes, freelist, bump, end, regions, lists, c);
      words, bump := words[a := Class(c)], bump[c := a + SLOTS[c]];
      regions := Used(regions, a, SLOTS[c]);
    }

    /** vt_host_alloc; 0 exactly when the C library has no memory where it is asked for some. */
    method HostAlloc(n0: nat, calloc: nat -> Addr) returns (p: Addr)
      requires Valid() && Honest(calloc)
      modifies this
      ensures Valid()
      ensures p == if old(Source(n0, calloc)) == 0 then 0 else old(Source(n0, calloc)) + HDR
      ensures p != 0 ==> p > HDR && Handed(old(regions), regions, bytes, p - HDR, n0)
      ensures p != 0 ==> Others(old(regions), old(bytes), regions, bytes, p - HDR) && lists == old(ListsAfter(n0))
      ensures p == 0 ==> regions == old(regions) && bytes == old(bytes) && lists == old(lists)
    {
      hide Inv, Others, ClassFrom;
      var n := Asked(n0);
      var c := ClassOf(n);
      Lengths(words, bytes, freelist, bump, end, regions, lists);
      if c < 0 {
        var a := AllocLarge(n, calloc);
        return if a == 0 then 0 else a + HDR;
      }
      EmptyList(words, bytes, freelist, bump, end, regions, lists, c);
      if freelist[c] != 0 {
        var a := PopSlot(c, n);
        return a + HDR;
      }
      ghost var r0, b0 := regions, bytes;
      NoNullRegion(words, bytes, freelist, bump, end, regions, lists);
      var ok := Refill(c, calloc);
      if !ok { return 0; }
      var a := BumpSlot(c, n);
      OthersTrans(r0, b0, r0, bytes, regions, bytes, a);
      return a + HDR;
    }

    /** vt_host_free: a small block heads its class's free list, a large one goes back to the C
        library. */
    method HostFree(p: Addr)
      requires Valid() && (p == 0 || (p > HDR && p - HDR in regions && regions[p - HDR].use == Live))
      modifies this
      ensures Valid() && bytes == old(bytes)
      ensures p == 0 ==> regions == old(regions) && lists == old(lists)
      ensures p != 0 ==> Others(old(regions), old(bytes), regions, bytes, p - HDR)
      ensures p != 0 ==> Returned(old(HeaderOf(p)), old(regions), old(lists), p - HDR, regions, lists, freelist)
    {
      hide Inv, Others;
      if p == 0 { return; }
      var a := p - HDR;
      Header(words, bytes, freelist, bump, end, regions, lists, a);
      if words[a].Large? {
        DropLarge(words, bytes, freelist, bump, end, regions, lists, a);
        regions := Without(regions, a);
        return;
      }
      var c := words[a].c;
      PushFree(words, bytes, freelist, bump, end, regions, lists, a, c);
      words := words[a := Next(freelist[c])];
      freelist := freelist[c := a];
      regions, lists := regions[a := Region(SLOTS[c], Free(c))], lists[c := [a] + lists[c]];
    }

    /** A large block resized by the C library. */
    method ResizeLarge(p: Addr, n: nat, libc: Addr) returns (r: Addr)
      requires Valid() && p > HDR && p - HDR in regions && regions[p - HDR].use == Live
      requires p - HDR in words && words[p - HDR].Large? && ClassOf(n) < 0
      requires libc != 0 ==> Unused(Without(regions, p - HDR), bump, end, libc, n + HDR)
      modifies this
      ensures Valid() && (r != 0 ==> Resized(old(regions), old(bytes), regions, bytes, p, r, n))
      ensures r == if libc == 0 then 0 else libc + HDR
      ensures r == 0 ==> regions == old(regions) && bytes == old(bytes)
    {
      hide Inv, Resized;
      var a := p - HDR;
      if libc == 0 { return 0; }
      Header(words, bytes, freelist, bump, end, regions, lists, a);
      var m := Least(words[a].n, n);
      MoveLarge(words, bytes, freelist, bump, end, regions, lists, a, libc, n, m);
      words := words[libc := Large(n)];
      bytes := Copied(bytes, libc + HDR, p, m);
      regions := Used(Without(regions, a), libc, n + HDR);
      return libc + HDR;
    }

    /** A new block, the old contents copied into it, the old block freed. */
    method MoveBlock(p: Addr, n: nat, calloc: nat -> Addr, oldPayload: nat) returns (r: Addr)
      requires Valid() && Honest(calloc) && p > HDR && p - HDR in regions && regions[p - HDR].use == Live
      requires oldPayload + HDR == regions[p - HDR].size
      modifies this
      ensures Valid() && (r != 0 ==> Resized(old(regions), old(bytes), regions, bytes, p, r, n))
      ensures r == if old(Source(n, calloc)) == 0 then 0 else old(Source(n, calloc)) + HDR
      ensures r == 0 ==> regions == old(regions) && bytes == old(bytes)
    {
      hide Inv, Others, Others2, Copied, Unused, Kept, Tells;
      var a := p - HDR;
      ghost var r0, b0 := regions, bytes;
      r := HostAlloc(n, calloc);
      if r == 0 { return; }
      ghost var r1, b1 := regions, bytes;
      var m := Least(oldPayload, n);
      Live2(r0, b0, r1, b1, r - HDR, a);
      CopyIn(words, bytes, freelist, bump, end, regions, lists, r - HDR, p, m);
      bytes := Copied(bytes, r, p, m);
      ghost var b2 := bytes;
      CopiedKept(r0, b0, b1, p, r, n, m);
      HostFree(p);
      Others3(r0, b0, r1, b1, b2, regions, a, r - HDR);
    }

    /** vt_host_realloc; `libc` is where the C library puts a large block it resizes, 0 when it
        cannot, and on failure the old block is kept. */
    method HostRealloc(p: Addr, n: nat, calloc: nat -> Addr, libc: Addr) returns (r: Addr)
      requires Valid() && Honest(calloc) && (p == 0 || (p > HDR && p - HDR in regions && regions[p - HDR].use == Live))
      requires p != 0 && libc != 0 ==> Unused(Without(regions, p - HDR), bump, end, libc, n + HDR)
      modifies this
      ensures Valid()
      ensures p == 0 ==> r == if old(Source(n, calloc)) == 0 then 0 else old(Source(n, calloc)) + HDR
      ensures p == 0 && r != 0 ==> r > HDR && Handed(old(regions), regions, bytes, r - HDR, n)
      ensures p == 0 && r != 0 ==> Others(old(regions), old(bytes), regions, bytes, r - HDR)
      ensures p != 0 && n == 0 ==> r == 0 && bytes == old(bytes)
      ensures p != 0 && n == 0 ==> Returned(old(HeaderOf(p)), old(regions), old(lists), p - HDR, regions, lists,
          freelist)
      ensures p != 0 && n != 0 ==>
        r == if old(Place(p, n, calloc, libc)) == 0 then 0 else old(Place(p, n, calloc, libc)) + HDR
      ensures p != 0 && r != 0 ==> Resized(old(regions), old(bytes), regions, bytes, p, r, n)
      ensures r == 0 && (n != 0 || p == 0) ==> regions == old(regions) && bytes == old(bytes)
    {
      hide Inv, Others, Resized, Handed, Returned;
      if p == 0 {
        r := HostAlloc(n, calloc);
        return;
      }
      if n == 0 {
        HostFree(p);
        return 0;
      }
      var a := p - HDR;
      Header(words, bytes, freelist, bump, end, regions, lists, a);
      var newc := ClassOf(n);
      if words[a].Large? && newc < 0 {
        r := ResizeLarge(p, n, libc);
      } else if words[a].Class? && newc == words[a].c {
        StaysPut(regions, bytes, p, n);
        r := p;
      } else {
        r := MoveBlock(p, n, calloc, if words[a].Large? then words[a].n else SLOTS[words[a].c] - HDR);
      }
    }
  }

  /** `p` became `r`: big enough for `n` bytes, the old contents kept, all other blocks as before. */
  ghost predicate Resized(r0: Regions, b0: Bytes, r1: Regions, b1: Bytes, p: Addr, r: Addr, n: nat)
    requires p >= HDR && p - HDR in r0
  {
    && r > HDR && r - HDR in r1 && r1[r - HDR].use == Live && r1[r - HDR].size >= n + HDR
    && Kept(r0, b0, p, b1, r, n) && Others2(r0, b0, r1, b1, p - HDR, r - HDR)
    && (r != p ==> p - HDR in r1 ==> r1[p - HDR].use != Live)
  }

  lemma {:induction false} CopiedKept(r0: Regions, b0: Bytes, b1: Bytes, p: Addr, r: Addr, n: nat, m: nat)
    requires p > HDR && p - HDR in r0 && m + HDR == Least(r0[p - HDR].size, n + HDR)
    requires forall y: Addr :: p <= y < p - HDR + r0[p - HDR].size ==> b1(y) == b0(y)
    ensures Kept(r0, b0, p, Copied(b1, r, p, m), r, n)
  {
  }

  lemma {:induction false} StaysPut(regions: Regions, bytes: Bytes, p: Addr, n: nat)
    requires p > HDR && p - HDR in regions && regions[p - HDR].use == Live && regions[p - HDR].size >= n + HDR
    ensures Resized(regions, bytes, regions, bytes, p, p, n)
  {
  }

  /** The first bytes of the old block, as many as both blocks hold, are the new block's. */
  ghost predicate Kept(r0: Regions, b0: Bytes, p: Addr, b1: Bytes, r: Addr, n: nat)
    requires p >= HDR && p - HDR in r0
  {
    forall x: Addr :: r <= x < r + n && x - r + HDR < r0[p - HDR].size ==> b1(x) == b0(p + (x - r))
  }

  /** The blocks in use other than `a` and `b` are as before, content included. */
  ghost predicate Others2(regions: Regions, bytes: Bytes, regions1: Regions, bytes1: Bytes, a: Addr, b: Addr) {
    && (forall x :: x != a && x != b ==>
        (x in regions && regions[x].use == Live <==> x in regions1 && regions1[x].use == Live))
    && (forall x :: x in regions && regions[x].use == Live && x != a && x != b ==>
         && x in regions1 && regions1[x] == regions[x]
         && forall y: Addr :: x + HDR <= y < x + regions[x].size ==> bytes1(y) == bytes(y))
  }

  lemma {:induction false} Live2(r0: Regions, b0: Bytes, r1: Regions, b1: Bytes, a: Addr, p: Addr)
    requires Others(r0, b0, r1, b1, a) && p in r0 && r0[p].use == Live && (a in r0 ==> r0[a].use != Live)
    ensures p != a && p in r1 && r1[p] == r0[p]
    ensures forall y: Addr :: p + HDR <= y < p + r0[p].size ==> b1(y) == b0(y)
  {
  }

  /** Writing inside one block leaves everything else alone. */
  lemma {:induction false} WriteInside(words: map<Addr, Word>, bytes: Bytes, bytes1: Bytes, freelist: seq<Addr>,
          bump: seq<Addr>, end: seq<Addr>,
                    regions: Regions, lists: seq<seq<Addr>>, a: Addr)
    requires Inv(words, bytes, freelist, bump, end, regions, lists) && a in regions
    requires forall x: Addr :: !(a <= x < a + regions[a].size) ==> bytes1(x) == bytes(x)
    ensures Inv(words, bytes1, freelist, bump, end, regions, lists)
    ensures Others(regions, bytes, regions, bytes1, a)
  {
    hide Linked, ListsFree, Sized;
    forall d, x: Addr | 0 <= d < CLASSES && bump[d] <= x < end[d] ensures bytes1(x) == 0 {
      assert SlotsClear(regions, bump[d], end[d]);
      assert Clear(a, regions[a].size, bump[d], end[d]) && bytes(x) == 0;
    }
    forall b, x: Addr | b in regions && b != a && b <= x < b + regions[b].size ensures bytes1(x) == bytes(x) {
      assert Apart(a, regions[a].size, b, regions[b].size);
    }
  }

  lemma {:induction false} CopyIn(words: map<Addr, Word>, bytes: Bytes, freelist: seq<Addr>, bump: seq<Addr>,
          end: seq<Addr>,
               regions: Regions, lists: seq<seq<Addr>>, a: Addr, from: Addr, n: nat)
    requires Inv(words, bytes, freelist, bump, end, regions, lists) && a in regions && n + HDR <= regions[a].size
    ensures Inv(words, Copied(bytes, a + HDR, from, n), freelist, bump, end, regions, lists)
    ensures Others(regions, bytes, regions, Copied(bytes, a + HDR, from, n), a)
  {
    hide Inv, Others;
    WriteInside(words, bytes, Copied(bytes, a + HDR, from, n), freelist, bump, end, regions, lists, a);
  }

  /** A large block resized by the C library, in place or elsewhere. */
  lemma {:induction false} MoveLarge(words: map<Addr, Word>, bytes: Bytes, freelist: seq<Addr>, bump: seq<Addr>,
          end: seq<Addr>,
                  regions: Regions, lists: seq<seq<Addr>>, a: Addr, to: Addr, n: nat, m: nat)
    requires Inv(words, bytes, freelist, bump, end, regions, lists) && a in regions && regions[a].use == Live
    requires Unused(Without(regions, a), bump, end, to, n + HDR) && m <= n && m + HDR == Least(regions[a].size, n + HDR)
    ensures var bytes1, regions1 := Copied(bytes, to + HDR, a + HDR, m), Used(Without(regions, a), to, n + HDR);
      && Inv(words[to := Large(n)], bytes1, freelist, bump, end, regions1, lists)
      && Resized(regions, bytes, regions1, bytes1, a + HDR, to + HDR, n)
  {
    hide Inv, Others, Others2, Kept, Copied, Unused;
    PlacedAt(Without(regions, a), bump, end, to, n + HDR);
    BlockPlace(words, bytes, freelist, bump, end, regions, lists, a);
    var mid := Without(regions, a);
    DropLarge(words, bytes, freelist, bump, end, regions, lists, a);
    AddRegion(words, bytes, freelist, bump, end, mid, lists, n, to);
    var regions1, bytes1 := Used(mid, to, n + HDR), Copied(bytes, to + HDR, a + HDR, m);
    CopyIn(words[to := Large(n)], bytes, freelist, bump, end, regions1, lists, to, a + HDR, m);
    CopiedKept(regions, bytes, bytes, a + HDR, to + HDR, n, m);
    AddedOthers(mid, bytes, to, n + HDR);
    MovedOthers(regions, mid, regions1, bytes, bytes1, a, to);
  }

  lemma {:induction false} MovedOthers(r0: Regions, mid: Regions, r2: Regions, b0: Bytes, b2: Bytes, a: Addr, to: Addr)
    requires Others(r0, b0, mid, b0, a) && Others(mid, b0, r2, b0, to) && Others(r2, b0, r2, b2, to)
    ensures Others2(r0, b0, r2, b2, a, to)
  {
  }

  lemma {:induction false} AddDisjoint(regions: Regions, bump: seq<Addr>, end: seq<Addr>, a: Addr, size: nat)
    requires Disjoint(regions, bump, end) && Unused(regions, bump, end, a, size) && size > 0
    ensures a !in regions && Disjoint(Used(regions, a, size), bump, end)
  {
    hide Apart, Clear;
    assert a in regions ==> Apart(a, size, a, regions[a].size);
    SelfApart(a, size, if a in regions then regions[a].size else 1);
    forall b | b in regions ensures Apart(b, regions[b].size, a, size) { ApartFlip(a, size, b, regions[b].size); }
    forall c | 0 <= c < CLASSES ensures SlotsClear(Used(regions, a, size), bump[c], end[c]) {
      assert SlotsClear(regions, bump[c], end[c]);
    }
  }

  lemma {:induction false} PlacedAt(regions: Regions, bump: seq<Addr>, end: seq<Addr>, a: Addr, n: nat)
    requires Unused(regions, bump, end, a, n)
    ensures a > 0
  {
  }

  lemma {:induction false} BlockPlace(words: map<Addr, Word>, bytes: Bytes, freelist: seq<Addr>, bump: seq<Addr>,
          end: seq<Addr>,
                   regions: Regions, lists: seq<seq<Addr>>, a: Addr)
    requires Inv(words, bytes, freelist, bump, end, regions, lists) && a in regions
    ensures a > 0
  {
  }

  lemma {:induction false} AddedOthers(regions: Regions, bytes: Bytes, a: Addr, size: nat)
    requires a !in regions
    ensures Others(regions, bytes, Used(regions, a, size), bytes, a)
  {
  }

  lemma {:induction false} SelfApart(a: Addr, m: nat, n: nat)
    requires m > 0 && n > 0
    ensures !Apart(a, m, a, n)
  {
  }

  lemma {:induction false} ApartFlip(a: Addr, m: nat, b: Addr, n: nat)
    requires Apart(a, m, b, n)
    ensures Apart(b, n, a, m)
  {
  }

  /** A block with whatever its memory holds. */
  lemma {:induction false} AddRegion(words: map<Addr, Word>, bytes: Bytes, freelist: seq<Addr>, bump: seq<Addr>,
          end: seq<Addr>,
                  regions: Regions, lists: seq<seq<Addr>>, n: nat, a: Addr)
    requires Inv(words, bytes, freelist, bump, end, regions, lists) && Unused(regions, bump, end, a, n + HDR)
    ensures a !in regions && Inv(words[a := Large(n)], bytes, freelist, bump, end, Used(regions, a, n + HDR), lists)
  {
    var words1, regions1 := words[a := Large(n)], Used(regions, a, n + HDR);
    AddDisjoint(regions, bump, end, a, n + HDR);
    hide Disjoint, Unused, ZeroAhead;
    forall d: nat | d < CLASSES ensures Linked(words1, freelist[d], lists[d]) && ListsFree(regions1, d, lists[d]) {
      assert Linked(words, freelist[d], lists[d]) && ListsFree(regions, d, lists[d]);
      ListsKeep(words, words1, freelist, regions, regions1, lists, a, d);
    }
  }

  lemma {:induction false} Others3(r0: Regions, b0: Bytes, r1: Regions, b1: Bytes, b2: Bytes, r2: Regions, a: Addr,
          b: Addr)
    requires Others(r0, b0, r1, b1, b) && Others(r1, b1, r1, b2, b) && Others(r1, b2, r2, b2, a)
    ensures Others2(r0, b0, r2, b2, a, b)
    ensures a != b && b in r1 && r1[b].use == Live ==> b in r2 && r2[b] == r1[b]
  {
  }

  lemma {:induction false} Lengths(words: map<Addr, Word>, bytes: Bytes, freelist: seq<Addr>, bump: seq<Addr>,
          end: seq<Addr>,
                regions: Regions, lists: seq<seq<Addr>>)
    requires Inv(words, bytes, freelist, bump, end, regions, lists)
    ensures |freelist| == |lists| == |bump| == |end| == CLASSES
  {
  }

  /** A list is empty exactly when its head is NULL. */
  lemma {:induction false} EmptyList(words: map<Addr, Word>, bytes: Bytes, freelist: seq<Addr>, bump: seq<Addr>,
          end: seq<Addr>,
                                     regions: Regions, lists: seq<seq<Addr>>, c: nat)
    requires Inv(words, bytes, freelist, bump, end, regions, lists) && c < CLASSES
    ensures |freelist| == |lists| == CLASSES && (lists[c] == [] <==> freelist[c] == 0)
  {
    if lists[c] != [] { assert freelist[c] in lists[c]; }
  }

  lemma {:induction false} NoNullRegion(words: map<Addr, Word>, bytes: Bytes, freelist: seq<Addr>, bump: seq<Addr>,
          end: seq<Addr>,
                     regions: Regions, lists: seq<seq<Addr>>)
    requires Inv(words, bytes, freelist, bump, end, regions, lists)
    ensures 0 !in regions
  {
  }

  lemma {:induction false} Header(words: map<Addr, Word>, bytes: Bytes, freelist: seq<Addr>, bump: seq<Addr>,
          end: seq<Addr>,
               regions: Regions, lists: seq<seq<Addr>>, a: Addr)
    requires Inv(words, bytes, freelist, bump, end, regions, lists) && a in regions && regions[a].use == Live
    ensures |freelist| == |lists| == CLASSES && a in words && Tells(words[a], regions[a].size)
  {
  }

  lemma {:induction false} OthersSame(regions: Regions, bytes: Bytes, a: Addr)
    ensures Others(regions, bytes, regions, bytes, a)
  {
  }

  lemma {:induction false} OthersTrans(r0: Regions, b0: Bytes, r1: Regions, b1: Bytes, r2: Regions, b2: Bytes, a: Addr)
    requires Others(r0, b0, r1, b1, 0) && Others(r1, b1, r2, b2, a) && 0 !in r0 && r0 == r1
    ensures Others(r0, b0, r2, b2, a)
  {
  }
}
