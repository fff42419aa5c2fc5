/** The registry of weak slots: 1024 buckets of chained entries, one entry for each target that
    has weak slots, listing those slots. */
module WeakTable {

  type Ref = nat // 0 is null

  /** Field `fld` of object `obj`. */
  datatype Slot = Slot(obj: Ref, fld: nat)

  datatype Entry = Entry(target: Ref, slots: seq<Slot>)

  const BUCKETS := 1024

  /** Alignment bits dropped, then masked. */
  function WeakHash(p: Ref): (b: nat)
    ensures b < BUCKETS
  {
    p / 16 % BUCKETS
  }

  /** The slots listed for `q` in a bucket chain. */
  function Listed(chain: seq<Entry>, q: Ref): seq<Slot> {
    if chain == [] then []
    else if chain[0].target == q then chain[0].slots
    else Listed(chain[1..], q)
  }

  function Nodes(chain: seq<Entry>): nat {
    if chain == [] then 0 else |chain[0].slots| + Nodes(chain[1..])
  }

  /** One entry for a target, in its own bucket, and none without slots. */
  ghost predicate ChainOk(chain: seq<Entry>, b: nat) {
    && (forall k :: 0 <= k < |chain| ==> WeakHash(chain[k].target) == b && chain[k].slots != [])
    && (forall j, k :: 0 <= j < k < |chain| ==> chain[j].target != chain[k].target)
  }

  ghost predicate TableOk(table: seq<seq<Entry>>) {
    |table| == BUCKETS && forall b :: 0 <= b < BUCKETS ==> ChainOk(table[b], b)
  }

  /** The slots registered under `q`. */
  function SlotsOf(table: seq<seq<Entry>>, q: Ref): seq<Slot>
    requires |table| == BUCKETS
  {
    Listed(table[WeakHash(q)], q)
  }

  /** All nodes of the table. */
  function Total(table: seq<seq<Entry>>): nat {
    if table == [] then 0 else Total(table[..|table| - 1]) + Nodes(table[|table| - 1])
  }

  /** `table1` differs from `table` only in what it lists for `q`. */
  ghost predicate Relisted(table: seq<seq<Entry>>, table1: seq<seq<Entry>>, q: Ref, slots: seq<Slot>) {
    && TableOk(table) && TableOk(table1)
    && SlotsOf(table1, q) == slots
    && (forall p :: p != q ==> SlotsOf(table1, p) == SlotsOf(table, p))
    && Total(table1) + |SlotsOf(table, q)| == Total(table) + |slots|
  }

  lemma {:induction false} TotalUpdate(table: seq<seq<Entry>>, b: nat, chain: seq<Entry>)
    requires b < |table|
    ensures Total(table[b := chain]) + Nodes(table[b]) == Total(table) + Nodes(chain)
    decreases |table|
  {
    var n := |table| - 1;
    if b == n {
      assert table[b := chain][..n] == table[..n];
    } else {
      TotalUpdate(table[..n], b, chain);
      assert table[b := chain][..n] == table[..n][b := chain];
    }
  }

  lemma {:induction false} ListedNone(chain: seq<Entry>, q: Ref)
    requires forall k :: 0 <= k < |chain| ==> chain[k].target != q
    ensures Listed(chain, q) == []
  {
    if chain != [] { ListedNone(chain[1..], q); }
  }

  lemma {:induction false} ListedAt(chain: seq<Entry>, k: nat)
    requires k < |chain| && forall j :: 0 <= j < k ==> chain[j].target != chain[k].target
    ensures Listed(chain, chain[k].target) == chain[k].slots
  {
    if k > 0 { ListedAt(chain[1..], k - 1); }
  }

  lemma {:induction false} ListedSet(chain: seq<Entry>, k: nat, slots: seq<Slot>, q: Ref)
    requires k < |chain|
    ensures var e := Entry(chain[k].target, slots);
      && Nodes(chain[k := e]) + |chain[k].slots| == Nodes(chain) + |slots|
      && (q != chain[k].target ==> Listed(chain[k := e], q) == Listed(chain, q))
  {
    var e := Entry(chain[k].target, slots);
    if k > 0 {
      ListedSet(chain[1..], k - 1, slots, q);
      assert chain[k := e][1..] == chain[1..][k - 1 := e];
    } else {
      assert chain[k := e][1..] == chain[1..];
    }
  }

  lemma {:induction false} ListedCut(chain: seq<Entry>, k: nat, q: Ref)
    requires k < |chain|
    ensures Nodes(chain[..k] + chain[k + 1..]) + |chain[k].slots| == Nodes(chain)
    ensures q != chain[k].target ==> Listed(chain[..k] + chain[k + 1..], q) == Listed(chain, q)
  {
    var cut := chain[..k] + chain[k + 1..];
    if k > 0 {
      ListedCut(chain[1..], k - 1, q);
      assert cut[0] == chain[0] && cut[1..] == chain[1..][..k - 1] + chain[1..][k..];
    } else {
      assert cut == chain[1..];
    }
  }

  /** Entry `k` of `q`'s chain given other slots, or taken out when none are left. */
  function Rewritten(chain: seq<Entry>, k: nat, slots: seq<Slot>): seq<Entry>
    requires k < |chain|
  {
    if slots == [] then chain[..k] + chain[k + 1..] else chain[k := Entry(chain[k].target, slots)]
  }

  lemma {:induction false} RewriteEntry(table: seq<seq<Entry>>, q: Ref, k: nat, slots: seq<Slot>)
    requires TableOk(table) && k < |table[WeakHash(q)]| && table[WeakHash(q)][k].target == q
    ensures SlotsOf(table, q) == table[WeakHash(q)][k].slots
    ensures Relisted(table, table[WeakHash(q) := Rewritten(table[WeakHash(q)], k, slots)], q, slots)
  {
    hide WeakHash;
    var b := WeakHash(q);
    var chain := table[b];
    var chain1 := Rewritten(chain, k, slots);
    assert ChainOk(chain, b);
    ListedAt(chain, k);
    RewriteOk(chain, k, slots, b);
    TotalUpdate(table, b, chain1);
    forall p | p != q ensures Listed(chain1, p) == Listed(chain, p) {
      ListedSet(chain, k, slots, p);
      ListedCut(chain, k, p);
    }
    ListedSet(chain, k, slots, q);
    ListedCut(chain, k, q);
    if slots == [] {
      ListedNone(chain1, q);
    } else {
      ListedAt(chain1, k);
    }
  }

  lemma {:induction false} RewriteOk(chain: seq<Entry>, k: nat, slots: seq<Slot>, b: nat)
    requires ChainOk(chain, b) && k < |chain|
    ensures ChainOk(Rewritten(chain, k, slots), b)
    ensures slots == [] ==> forall j :: 0 <= j < |Rewritten(chain, k, slots)| ==>
        Rewritten(chain, k, slots)[j].target != chain[k].target
  {
    hide WeakHash;
    var cut := chain[..k] + chain[k + 1..];
    assert forall j :: 0 <= j < |cut| ==> cut[j] == chain[if j < k then j else j + 1];
  }

  /** A new entry in front of the chain. */
  lemma {:induction false} NewEntry(table: seq<seq<Entry>>, q: Ref, slots: seq<Slot>)
    requires TableOk(table) && slots != []
    requires forall k :: 0 <= k < |table[WeakHash(q)]| ==> table[WeakHash(q)][k].target != q
    ensures SlotsOf(table, q) == []
    ensures Relisted(table, table[WeakHash(q) := [Entry(q, slots)] + table[WeakHash(q)]], q, slots)
  {
    hide WeakHash;
    var b := WeakHash(q);
    var chain1 := [Entry(q, slots)] + table[b];
    assert ChainOk(table[b], b);
    assert chain1[1..] == table[b];
    ListedNone(table[b], q);
    TotalUpdate(table, b, chain1);
  }

  /** The list with the first `x` taken out. */
  function Without<T(==)>(s: seq<T>, x: T): (r: seq<T>)
    ensures |r| == if x in s then |s| - 1 else |s|
  {
    if s == [] then [] else if s[0] == x then s[1..] else [s[0]] + Without(s[1..], x)
  }

  lemma {:induction false} WithoutAt<T>(s: seq<T>, x: T, n: nat)
    requires n <= |s| && (forall j :: 0 <= j < n ==> s[j] != x) && (n < |s| ==> s[n] == x)
    ensures Without(s, x) == if n < |s| then s[..n] + s[n + 1..] else s
  {
    if n > 0 && s != [] {
      WithoutAt(s[1..], x, n - 1);
    }
  }

  method FindEntry(chain: seq<Entry>, q: Ref) returns (k: nat)
    ensures k <= |chain| && (k < |chain| ==> chain[k].target == q)
    ensures k == |chain| ==> forall j :: 0 <= j < |chain| ==> chain[j].target != q
  {
    k := 0;
    while k < |chain| && chain[k].target != q
      invariant k <= |chain| && forall j :: 0 <= j < k ==> chain[j].target != q
    {
      k := k + 1;
    }
  }

  /** weak_detach; `gone` is the number of nodes freed. */
  method Detach(table: seq<seq<Entry>>, s: Slot, q: Ref) returns (table1: seq<seq<Entry>>, gone: nat)
    requires TableOk(table)
    ensures Relisted(table, table1, q, Without(SlotsOf(table, q), s))
    ensures gone == if s in SlotsOf(table, q) then 1 else 0
  {
    hide WeakHash, Total, Without;
    var b := WeakHash(q);
    var chain := table[b];
    var k := FindEntry(chain, q);
    if k == |chain| {
      ListedNone(chain, q);
      WithoutAt([], s, 0);
      return table, 0;
    }
    var slots := chain[k].slots;
    var n := 0;
    while n < |slots| && slots[n] != s
      invariant n <= |slots| && forall j :: 0 <= j < n ==> slots[j] != s
    {
      n := n + 1;
    }
    WithoutAt(slots, s, n);
    gone := 0;
    var rest := slots;
    if n < |slots| {
      rest := slots[..n] + slots[n + 1..];
      gone := 1;
    }
    RewriteEntry(table, q, k, rest);
    table1 := table[b := Rewritten(chain, k, rest)];
  }

  /** weak_attach. */
  method Attach(table: seq<seq<Entry>>, s: Slot, q: Ref) returns (table1: seq<seq<Entry>>)
    requires TableOk(table)
    ensures Relisted(table, table1, q, [s] + SlotsOf(table, q))
  {
    hide WeakHash, Total;
    var b := WeakHash(q);
    var chain := table[b];
    var k := FindEntry(chain, q);
    if k == |chain| {
      NewEntry(table, q, [s]);
      table1 := table[b := [Entry(q, [s])] + chain];
    } else {
      RewriteEntry(table, q, k, [s] + chain[k].slots);
      table1 := table[b := Rewritten(chain, k, [s] + chain[k].slots)];
    }
  }

  /** The entry of a target being freed taken out of the table. */
  method TakeOut(table: seq<seq<Entry>>, q: Ref) returns (table1: seq<seq<Entry>>, slots: seq<Slot>)
    requires TableOk(table)
    ensures Relisted(table, table1, q, []) && slots == SlotsOf(table, q)
  {
    hide WeakHash, Total;
    var b := WeakHash(q);
    var chain := table[b];
    var k := FindEntry(chain, q);
    if k == |chain| {
      ListedNone(chain, q);
      return table, [];
    }
    RewriteEntry(table, q, k, []);
    return table[b := Rewritten(chain, k, [])], chain[k].slots;
  }

  lemma {:induction false} ListedBound(chain: seq<Entry>, q: Ref)
    ensures |Listed(chain, q)| <= Nodes(chain)
  {
    if chain != [] { ListedBound(chain[1..], q); }
  }

  lemma {:induction false} TotalBound(table: seq<seq<Entry>>, b: nat)
    requires b < |table|
    ensures Nodes(table[b]) <= Total(table)
    decreases |table|
  {
    if b < |table| - 1 { TotalBound(table[..|table| - 1], b); }
  }

  /** With no node in the table there is nothing to look up. */
  lemma {:induction false} NothingListed(table: seq<seq<Entry>>, q: Ref)
    requires TableOk(table) && Total(table) == 0
    ensures Relisted(table, table, q, []) && SlotsOf(table, q) == []
  {
    TotalBound(table, WeakHash(q));
    ListedBound(table[WeakHash(q)], q);
  }
}
