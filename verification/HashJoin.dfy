/** The hash join: one side's visible rows go into a chained hash table, the other side's rows
    probe it.  The reference is the pair of nested loops over both views. */
module HashJoin {
  import opened Basics
  import opened ColTable
  import opened GroupBy

  /** One output row: both sides, or a left row whose right side is null. */
  datatype Pair = Both(l: nat, r: nat) | LeftOnly(l: nat)

  /** Keys match when neither is null and the cells are equal. */
  predicate Match(a: Col, x: nat, b: Col, y: nat) {
    !a.IsNull(x) && !b.IsNull(y) && CellOf(a, x) == CellOf(b, y)
  }

  // ---------------------------------------------------------------- the nested loops

  function Row(lc: Col, rc: Col, l: nat, rview: seq<nat>): seq<Pair> {
    if rview == [] then []
    else if Match(lc, l, rc, rview[0]) then [Both(l, rview[0])] + Row(lc, rc, l, rview[1..])
    else Row(lc, rc, l, rview[1..])
  }

  function InnerLoops(lc: Col, rc: Col, lview: seq<nat>, rview: seq<nat>): seq<Pair> {
    if lview == [] then [] else Row(lc, rc, lview[0], rview) + InnerLoops(lc, rc, lview[1..], rview)
  }

  function LeftRow(lc: Col, rc: Col, l: nat, rview: seq<nat>): seq<Pair> {
    if Row(lc, rc, l, rview) == [] then [LeftOnly(l)] else Row(lc, rc, l, rview)
  }

  function LeftLoops(lc: Col, rc: Col, lview: seq<nat>, rview: seq<nat>): seq<Pair> {
    if lview == [] then [] else LeftRow(lc, rc, lview[0], rview) + LeftLoops(lc, rc, lview[1..], rview)
  }

  // ---------------------------------------------------------------- building and probing

  function Hashes(h: Cell -> nat, c: Col, rows: seq<nat>): (r: seq<nat>)
    ensures |r| == |rows| && forall i :: 0 <= i < |rows| ==> r[i] == h(CellOf(c, rows[i]))
  {
    seq<nat>(|rows|, i requires 0 <= i < |rows| => h(CellOf(c, rows[i])))
  }

  /** Every bucket's chain lists its slots, the latest first. */
  ghost predicate Chains(hs: seq<nat>, head: array<int>, next: array<int>, n: nat)
    reads head, next
  {
    && head.Length > 0 && n <= |hs| == next.Length
    && (forall b :: 0 <= b < head.Length ==> LastIn(hs, head.Length, b, n, head[b]))
    && (forall s :: 0 <= s < n ==> LastIn(hs, head.Length, Bucket(hs[s], head.Length), s, next[s]))
  }

  /** Slot `i` put in front of its bucket's chain. */
  method Link(ghost hs: seq<nat>, hv: nat, head: array<int>, next: array<int>, i: nat)
    requires Chains(hs, head, next, i) && i < |hs| && hs[i] == hv && head != next
    modifies head, next
    ensures Chains(hs, head, next, i + 1)
  {
    hide Bucket;
    var b := Bucket(hv, head.Length);
    next[i] := head[b];
    head[b] := i;
  }

  method Build(h: Cell -> nat, c: Col, rows: seq<nat>) returns (head: array<int>, next: array<int>)
    ensures fresh(head) && fresh(next) && Chains(Hashes(h, c, rows), head, next, |rows|)
  {
    hide Bucket, Hashes, CellOf, LastIn;
    var n := |rows|;
    ghost var hs := Hashes(h, c, rows);
    var nb := 16;
    while nb < n * 2
      invariant nb >= 16
      decreases n * 2 - nb
    {
      nb := nb * 2;
    }
    head, next := new int[nb](_ => -1), new int[n](_ => -1);
    NothingIn(hs, nb);
    var i := 0;
    while i < n
      invariant i <= n && head.Length == nb && Chains(hs, head, next, i)
    {
      Link(hs, h(CellOf(c, rows[i])), head, next, i);
      i := i + 1;
    }
  }

  lemma {:induction false} NothingIn(hs: seq<nat>, nb: nat)
    requires nb > 0
    ensures forall b :: 0 <= b < nb ==> LastIn(hs, nb, b, 0, -1)
  {
  }

  /** The rows of the hashed side a probing row meets, in chain order: the latest slot first. */
  function Hits(pc: Col, p: nat, hc: Col, rows: seq<nat>): seq<nat> {
    if rows == [] then [] else
    var n := |rows| - 1;
    if Match(pc, p, hc, rows[n]) then [rows[n]] + Hits(pc, p, hc, rows[..n]) else Hits(pc, p, hc, rows[..n])
  }

  lemma {:induction false} HitsSkip(pc: Col, p: nat, hc: Col, rows: seq<nat>, lo: nat, hi: nat)
    requires lo <= hi <= |rows| && forall s :: lo <= s < hi ==> !Match(pc, p, hc, rows[s])
    ensures Hits(pc, p, hc, rows[..hi]) == Hits(pc, p, hc, rows[..lo])
    decreases hi
  {
    if lo < hi {
      HitsSkip(pc, p, hc, rows, lo, hi - 1);
      assert rows[..hi][..hi - 1] == rows[..hi - 1];
    }
  }

  lemma {:induction false} HitsStep(pc: Col, p: nat, hc: Col, rows: seq<nat>, s: nat)
    requires s < |rows|
    ensures Hits(pc, p, hc, rows[..s + 1]) ==
      (if Match(pc, p, hc, rows[s]) then [rows[s]] else []) + Hits(pc, p, hc, rows[..s])
  {
    assert rows[..s + 1][..s] == rows[..s];
  }

  lemma {:induction false} HitsNull(pc: Col, p: nat, hc: Col, rows: seq<nat>)
    requires pc.IsNull(p)
    ensures Hits(pc, p, hc, rows) == []
  {
    HitsSkip(pc, p, hc, rows, 0, |rows|);
    assert rows[..|rows|] == rows;
  }

  /** Walk one chain, skipping slots of other keys and of null keys. */
  method Probe(h: Cell -> nat, pc: Col, p: nat, hc: Col, rows: seq<nat>, head: array<int>,
          next: array<int>) returns (hits: seq<nat>)
    requires Chains(Hashes(h, hc, rows), head, next, |rows|)
    ensures hits == Hits(pc, p, hc, rows)
  {
    hide Bucket, Hits, CellOf;
    ghost var hs := Hashes(h, hc, rows);
    hits := [];
    if pc.IsNull(p) {
      HitsNull(pc, p, hc, rows);
      return;
    }
    var hv := h(CellOf(pc, p));
    var b := Bucket(hv, head.Length);
    var s := head[b];
    Jump(pc, p, hc, h, rows, head.Length, s, |rows|);
    assert rows[..|rows|] == rows;
    while s >= 0
      invariant -1 <= s < |rows|
      invariant s >= 0 ==> Bucket(hs[s], head.Length) == b
      invariant hits + Hits(pc, p, hc, rows[..s + 1]) == Hits(pc, p, hc, rows)
      decreases s
    {
      HitsStep(pc, p, hc, rows, s);
      if !(hc.IsNull(rows[s]) || CellOf(pc, p) != CellOf(hc, rows[s])) {
        Assoc(hits, [rows[s]], Hits(pc, p, hc, rows[..s]));
        hits := hits + [rows[s]];
      }
      Jump(pc, p, hc, h, rows, head.Length, next[s], s);
      s := next[s];
    }
    NoHits(pc, p, hc, rows[..0]);
  }

  lemma {:induction false} NoHits(pc: Col, p: nat, hc: Col, rows: seq<nat>)
    requires rows == []
    ensures Hits(pc, p, hc, rows) == []
  {
  }

  /** Following a link leaves out no slot that could match: equal keys share a bucket. */
  lemma {:induction false} Jump(pc: Col, p: nat, hc: Col, h: Cell -> nat, rows: seq<nat>, nb: nat, to: int, from: nat)
    requires nb > 0 && from <= |rows| && LastIn(Hashes(h, hc, rows), nb, Bucket(h(CellOf(pc, p)), nb), from, to)
    ensures Hits(pc, p, hc, rows[..from]) == Hits(pc, p, hc, rows[..to + 1])
  {
    hide Bucket, Hits, CellOf;
    var hs := Hashes(h, hc, rows);
    forall s | to + 1 <= s < from ensures !Match(pc, p, hc, rows[s]) {
      assert Bucket(hs[s], nb) != Bucket(h(CellOf(pc, p)), nb);
    }
    HitsSkip(pc, p, hc, rows, to + 1, from);
  }

  // ---------------------------------------------------------------- the join

  /** The output row for a probing and a hashed row; `flip` when the hashed side is the left one. */
  function PairOf(flip: bool, p: nat, x: nat): Pair {
    if flip then Both(x, p) else Both(p, x)
  }

  /** The output rows of one probe. */
  function Emit(flip: bool, p: nat, hits: seq<nat>): (r: seq<Pair>)
    ensures |r| == |hits|
  {
    if hits == [] then [] else [PairOf(flip, p, hits[0])] + Emit(flip, p, hits[1..])
  }

  lemma {:induction false} EmitSnoc(flip: bool, p: nat, hits: seq<nat>, x: nat)
    ensures Emit(flip, p, hits + [x]) == Emit(flip, p, hits) + [PairOf(flip, p, x)]
  {
    if hits == [] {
      assert hits + [x] == [x];
    } else {
      EmitSnoc(flip, p, hits[1..], x);
      assert (hits + [x])[0] == hits[0] && (hits + [x])[1..] == hits[1..] + [x];
    }
  }

  method EmitRows(out: seq<Pair>, flip: bool, p: nat, hits: seq<nat>) returns (r: seq<Pair>)
    ensures r == out + Emit(flip, p, hits)
  {
    r := out;
    var i := 0;
    while i < |hits|
      invariant i <= |hits| && r == out + Emit(flip, p, hits[..i])
    {
      EmitSnoc(flip, p, hits[..i], hits[i]);
      assert hits[..i + 1] == hits[..i] + [hits[i]];
      r := r + [PairOf(flip, p, hits[i])];
      i := i + 1;
    }
    assert hits[..i] == hits;
  }

  /** All probes of an inner join, in order. */
  function ProbeAll(pc: Col, hc: Col, ps: seq<nat>, rows: seq<nat>, flip: bool): seq<Pair> {
    if ps == [] then [] else
    var n := |ps| - 1;
    ProbeAll(pc, hc, ps[..n], rows, flip) + Emit(flip, ps[n], Hits(pc, ps[n], hc, rows))
  }

  /** All probes of a left join, in order. */
  function ProbeLeft(lc: Col, rc: Col, lview: seq<nat>, rview: seq<nat>): seq<Pair> {
    if lview == [] then [] else
    var n := |lview| - 1;
    var hits := Hits(lc, lview[n], rc, rview);
    ProbeLeft(lc, rc, lview[..n], rview) + if hits == [] then [LeftOnly(lview[n])] else Emit(false, lview[n], hits)
  }

  /** The right side hashed, each left row probing it. */
  method LeftJoin(h: Cell -> nat, lc: Col, rc: Col, lview: seq<nat>, rview: seq<nat>) returns (out: seq<Pair>)
    ensures multiset(out) == multiset(LeftLoops(lc, rc, lview, rview))
  {
    hide Chains, Hits, Emit;
    out := [];
    var head, next := Build(h, rc, rview);
    var k := 0;
    while k < |lview|
      invariant k <= |lview| && Chains(Hashes(h, rc, rview), head, next, |rview|)
      invariant out == ProbeLeft(lc, rc, lview[..k], rview)
    {
      var hits := Probe(h, lc, lview[k], rc, rview, head, next);
      assert lview[..k + 1][..k] == lview[..k];
      if hits == [] {
        out := out + [LeftOnly(lview[k])];
      } else {
        out := EmitRows(out, false, lview[k], hits);
      }
      k := k + 1;
    }
    assert lview[..k] == lview;
    LeftJoinRight(lc, rc, lview, rview);
  }

  /** One side hashed and the other probing; `flip` when the hashed side is the left one. */
  method InnerJoin(h: Cell -> nat, pc: Col, hc: Col, ps: seq<nat>, rows: seq<nat>, flip: bool) returns (out: seq<Pair>)
    ensures out == ProbeAll(pc, hc, ps, rows, flip)
  {
    hide Chains, Hits, Emit;
    out := [];
    var head, next := Build(h, hc, rows);
    var k := 0;
    while k < |ps|
      invariant k <= |ps| && Chains(Hashes(h, hc, rows), head, next, |rows|)
      invariant out == ProbeAll(pc, hc, ps[..k], rows, flip)
    {
      var hits := Probe(h, pc, ps[k], hc, rows, head, next);
      assert ps[..k + 1][..k] == ps[..k];
      out := EmitRows(out, flip, ps[k], hits);
      k := k + 1;
    }
    assert ps[..k] == ps;
  }

  /** The join's rows by nested loops: `kind` 1 keeps unmatched left rows, any other kind drops
      them, and keys of different classes match nothing. */
  function Wanted(lc: Col, rc: Col, lview: seq<nat>, rview: seq<nat>, kind: int): seq<Pair> {
    if lc.IsText() != rc.IsText() then []
    else if kind == 1 then LeftLoops(lc, rc, lview, rview)
    else InnerLoops(lc, rc, lview, rview)
  }

  /** ct_join over row pairs.  `room` answers the requests for the hash table's memory; there is no
      other way to join, and the result is empty when one is refused. */
  method Join(h: Cell -> nat, lc: Col, rc: Col, lview: seq<nat>, rview: seq<nat>, kind: int, room: bool)
    returns (out: seq<Pair>)
    ensures multiset(out) == multiset(if room then Wanted(lc, rc, lview, rview, kind) else [])
    ensures multiset(out) == multiset(Wanted(lc, rc, lview, rview, kind)) <==>
            room || Wanted(lc, rc, lview, rview, kind) == []
    ensures room ==> PairCounts(lc, rc, lview, rview, out)
    ensures room ==> LoneCounts(lc, rc, lview, rview, kind == 1 && lc.IsText() == rc.IsText(), out)
  {
    hide Match, InnerLoops, LeftLoops, ProbeAll;
    out := [];
    WantedCounts(lc, rc, lview, rview, kind);
    NothingOnly(Wanted(lc, rc, lview, rview, kind));
    if lc.IsText() != rc.IsText() || !room { return; }
    if kind == 1 {
      out := LeftJoin(h, lc, rc, lview, rview);
    } else if |lview| <= |rview| {
      out := InnerJoin(h, rc, lc, rview, lview, true);
      InnerJoinRight(lc, rc, lview, rview, true);
    } else {
      out := InnerJoin(h, lc, rc, lview, rview, false);
      InnerJoinRight(lc, rc, lview, rview, false);
    }
  }

  /** Keys of one class, neither null, and the same number or the same text. */
  ghost predicate SameKeys(lc: Col, l: nat, rc: Col, r: nat) {
    && lc.IsText() == rc.IsText() && !lc.IsNull(l) && !rc.IsNull(r)
    && if lc.IsText() then lc.Text(l) == rc.Text(r) else lc.Num(l) == rc.Num(r)
  }

  /** No visible right row has the key of `l`. */
  ghost predicate Alone(lc: Col, l: nat, rc: Col, rview: seq<nat>) {
    forall r :: r in rview ==> !SameKeys(lc, l, rc, r)
  }

  /** Two rows appear together as often as they are visible together, if they have the same keys. */
  ghost predicate PairCounts(lc: Col, rc: Col, lview: seq<nat>, rview: seq<nat>, out: seq<Pair>) {
    forall l: nat, r: nat ::
      multiset(out)[Both(l, r)] == if SameKeys(lc, l, rc, r) then multiset(lview)[l] * multiset(rview)[r] else 0
  }

  /** A left row appears by itself as often as it is visible, if `kept` and it is alone. */
  ghost predicate LoneCounts(lc: Col, rc: Col, lview: seq<nat>, rview: seq<nat>, kept: bool, out: seq<Pair>) {
    forall l: nat :: multiset(out)[LeftOnly(l)] == if kept && Alone(lc, l, rc, rview) then multiset(lview)[l] else 0
  }

  /** How often each row is wanted. */
  lemma {:induction false} WantedCounts(lc: Col, rc: Col, lview: seq<nat>, rview: seq<nat>, kind: int)
    ensures var out := Wanted(lc, rc, lview, rview, kind);
      && PairCounts(lc, rc, lview, rview, out)
      && LoneCounts(lc, rc, lview, rview, kind == 1 && lc.IsText() == rc.IsText(), out)
  {
    hide InnerLoops, LeftLoops;
    if lc.IsText() == rc.IsText() {
      forall l: nat, r: nat ensures Match(lc, l, rc, r) <==> SameKeys(lc, l, rc, r) {
      }
      forall l: nat, r: nat
        ensures multiset(InnerLoops(lc, rc, lview, rview))[Both(l, r)] ==
                if SameKeys(lc, l, rc, r) then multiset(lview)[l] * multiset(rview)[r] else 0
        ensures multiset(LeftLoops(lc, rc, lview, rview))[Both(l, r)]
             == multiset(InnerLoops(lc, rc, lview, rview))[Both(l, r)]
      {
        LoopsCount(lc, rc, lview, rview, l, r);
        LeftJoinMeaning(lc, rc, lview, rview, l, r);
      }
      forall l: nat
        ensures multiset(InnerLoops(lc, rc, lview, rview))[LeftOnly(l)] == 0
        ensures multiset(LeftLoops(lc, rc, lview, rview))[LeftOnly(l)] ==
                if Alone(lc, l, rc, rview) then multiset(lview)[l] else 0
      {
        LoopsCount(lc, rc, lview, rview, l, 0);
        LeftJoinMeaning(lc, rc, lview, rview, l, 0);
      }
    }
  }

  lemma {:induction false} NothingOnly(s: seq<Pair>)
    ensures multiset(s) == multiset([]) <==> s == []
  {
    assert |multiset(s)| == |s|;
  }

  // ---------------------------------------------------------------- against the nested loops

  lemma {:induction false} HitsCount(pc: Col, p: nat, hc: Col, rows: seq<nat>, x: nat)
    ensures multiset(Hits(pc, p, hc, rows))[x] == if Match(pc, p, hc, x) then multiset(rows)[x] else 0
    decreases |rows|
  {
    if rows != [] {
      var n := |rows| - 1;
      HitsCount(pc, p, hc, rows[..n], x);
      assert rows == rows[..n] + [rows[n]];
    }
  }

  lemma {:induction false} EmitCount(flip: bool, p0: nat, hits: seq<nat>, p: nat, x: nat)
    ensures multiset(Emit(flip, p0, hits))[PairOf(flip, p, x)] == if p == p0 then multiset(hits)[x] else 0
    ensures multiset(Emit(flip, p0, hits))[LeftOnly(p)] == 0
  {
    if hits != [] {
      EmitCount(flip, p0, hits[1..], p, x);
      assert hits == [hits[0]] + hits[1..];
      OneCount(hits[1..], hits[0], x);
      OneCount(Emit(flip, p0, hits[1..]), PairOf(flip, p0, hits[0]), PairOf(flip, p, x));
    }
  }

  lemma {:induction false} RowCount(lc: Col, rc: Col, l0: nat, rview: seq<nat>, l: nat, r: nat)
    ensures multiset(Row(lc, rc, l0, rview))[Both(l, r)] == if l == l0
        && Match(lc, l, rc, r) then multiset(rview)[r] else 0
    ensures multiset(Row(lc, rc, l0, rview))[LeftOnly(l)] == 0
  {
    if rview != [] {
      RowCount(lc, rc, l0, rview[1..], l, r);
      assert rview == [rview[0]] + rview[1..];
    }
  }

  lemma {:induction false} SumCount<T>(a: seq<T>, b: seq<T>, x: T)
    ensures multiset(a + b)[x] == multiset(a)[x] + multiset(b)[x]
  {
  }

  lemma {:induction false} OneCount<T>(a: seq<T>, y: T, x: T)
    ensures multiset(a + [y])[x] == multiset(a)[x] + if y == x then 1 else 0
    ensures multiset([y] + a)[x] == multiset(a)[x] + if y == x then 1 else 0
  {
  }

  lemma {:induction false} OneMore(a: nat, b: nat, m: nat, one: bool)
    requires b == a + if one then 1 else 0
    ensures b * m == a * m + if one then m else 0
    ensures m * b == m * a + if one then m else 0
  {
  }

  /** A pair appears as often as its rows are visible together, if the keys match. */
  lemma {:induction false} LoopsCount(lc: Col, rc: Col, lview: seq<nat>, rview: seq<nat>, l: nat, r: nat)
    ensures multiset(InnerLoops(lc, rc, lview, rview))[Both(l, r)] ==
      if Match(lc, l, rc, r) then multiset(lview)[l] * multiset(rview)[r] else 0
    ensures multiset(InnerLoops(lc, rc, lview, rview))[LeftOnly(l)] == 0
  {
    hide Match, Row;
    if lview != [] {
      var row, rest := Row(lc, rc, lview[0], rview), InnerLoops(lc, rc, lview[1..], rview);
      LoopsCount(lc, rc, lview[1..], rview, l, r);
      RowCount(lc, rc, lview[0], rview, l, r);
      SumCount(row, rest, Both(l, r));
      SumCount(row, rest, LeftOnly(l));
      assert lview == [lview[0]] + lview[1..];
      OneCount(lview[1..], lview[0], l);
      OneMore(multiset(lview[1..])[l], multiset(lview)[l], multiset(rview)[r], lview[0] == l);
    }
  }

  lemma {:induction false} ProbesCount(pc: Col, hc: Col, ps: seq<nat>, rows: seq<nat>, flip: bool, p: nat, x: nat)
    ensures multiset(ProbeAll(pc, hc, ps, rows, flip))[PairOf(flip, p, x)] ==
      if Match(pc, p, hc, x) then multiset(ps)[p] * multiset(rows)[x] else 0
    ensures multiset(ProbeAll(pc, hc, ps, rows, flip))[LeftOnly(p)] == 0
    decreases |ps|
  {
    hide Match, Emit, Hits, PairOf;
    if ps != [] {
      var n := |ps| - 1;
      var rest, row := ProbeAll(pc, hc, ps[..n], rows, flip), Emit(flip, ps[n], Hits(pc, ps[n], hc, rows));
      ProbesCount(pc, hc, ps[..n], rows, flip, p, x);
      HitsCount(pc, ps[n], hc, rows, x);
      EmitCount(flip, ps[n], Hits(pc, ps[n], hc, rows), p, x);
      SumCount(rest, row, PairOf(flip, p, x));
      SumCount(rest, row, LeftOnly(p));
      assert ps == ps[..n] + [ps[n]];
      OneCount(ps[..n], ps[n], p);
      OneMore(multiset(ps[..n])[p], multiset(ps)[p], multiset(rows)[x], ps[n] == p);
    }
  }

  /** Whichever side is hashed, an inner join gives the nested loops' rows. */
  lemma {:induction false} InnerJoinRight(lc: Col, rc: Col, lview: seq<nat>, rview: seq<nat>, flip: bool)
    ensures multiset(if flip then ProbeAll(rc, lc, rview, lview, true) else ProbeAll(lc, rc, lview, rview, false))
         == multiset(InnerLoops(lc, rc, lview, rview))
  {
    hide ProbeAll, InnerLoops;
    var out := if flip then ProbeAll(rc, lc, rview, lview, true) else ProbeAll(lc, rc, lview, rview, false);
    forall x: Pair ensures multiset(out)[x] == multiset(InnerLoops(lc, rc, lview, rview))[x] {
      var r := if x.Both? then x.r else 0;
      LoopsCount(lc, rc, lview, rview, x.l, r);
      if flip {
        ProbesCount(rc, lc, rview, lview, flip, r, x.l);
        ProbesCount(rc, lc, rview, lview, flip, x.l, r);
      } else {
        ProbesCount(lc, rc, lview, rview, flip, x.l, r);
      }
    }
  }

  lemma {:induction false} LeftRowRight(lc: Col, rc: Col, l: nat, rview: seq<nat>)
    ensures var hits := Hits(lc, l, rc, rview);
      multiset(if hits == [] then [LeftOnly(l)] else Emit(false, l, hits)) == multiset(LeftRow(lc, rc, l, rview))
  {
    var hits := Hits(lc, l, rc, rview);
    var a, b := Emit(false, l, hits), Row(lc, rc, l, rview);
    forall x: Pair ensures multiset(a)[x] == multiset(b)[x] {
      var r := if x.Both? then x.r else 0;
      HitsCount(lc, l, rc, rview, r);
      EmitCount(false, l, hits, x.l, r);
      RowCount(lc, rc, l, rview, x.l, r);
    }
    assert multiset(a) == multiset(b);
    assert |multiset(a)| == |a| && |multiset(b)| == |b|;
  }

  lemma {:induction false} LeftLoopsSnoc(lc: Col, rc: Col, lview: seq<nat>, l: nat, rview: seq<nat>)
    ensures LeftLoops(lc, rc, lview + [l], rview) == LeftLoops(lc, rc, lview, rview) + LeftRow(lc, rc, l, rview)
  {
    hide LeftRow;
    if lview == [] {
      assert lview + [l] == [l];
    } else {
      LeftLoopsSnoc(lc, rc, lview[1..], l, rview);
      assert (lview + [l])[0] == lview[0] && (lview + [l])[1..] == lview[1..] + [l];
    }
  }

  /** A left join gives every match and one row for each left row that has none. */
  lemma {:induction false} LeftJoinRight(lc: Col, rc: Col, lview: seq<nat>, rview: seq<nat>)
    ensures multiset(ProbeLeft(lc, rc, lview, rview)) == multiset(LeftLoops(lc, rc, lview, rview))
    decreases |lview|
  {
    hide LeftRow, Emit, Hits;
    if lview != [] {
      var n := |lview| - 1;
      LeftJoinRight(lc, rc, lview[..n], rview);
      LeftRowRight(lc, rc, lview[n], rview);
      LeftLoopsSnoc(lc, rc, lview[..n], lview[n], rview);
      assert lview == lview[..n] + [lview[n]];
    }
  }

  /** An inner join's row is there exactly for two visible rows with equal keys that are not null. */
  lemma {:induction false} InnerJoinMeaning(lc: Col, rc: Col, lview: seq<nat>, rview: seq<nat>, l: nat, r: nat)
    ensures Both(l, r) in InnerLoops(lc, rc, lview, rview) <==> l in lview && r in rview && Match(lc, l, rc, r)
  {
    LoopsCount(lc, rc, lview, rview, l, r);
    assert Both(l, r) in InnerLoops(lc, rc, lview, rview) <==>
        multiset(InnerLoops(lc, rc, lview, rview))[Both(l, r)] > 0;
    assert l in lview <==> multiset(lview)[l] > 0;
    assert r in rview <==> multiset(rview)[r] > 0;
    if Match(lc, l, rc, r) {
      assert multiset(lview)[l] * multiset(rview)[r] > 0 <==> multiset(lview)[l] > 0 && multiset(rview)[r] > 0;
    }
  }

  lemma {:induction false} RowEmpty(lc: Col, rc: Col, l: nat, rview: seq<nat>)
    ensures Row(lc, rc, l, rview) == [] <==> forall r :: r in rview ==> !Match(lc, l, rc, r)
  {
    if rview != [] {
      RowEmpty(lc, rc, l, rview[1..]);
      assert rview == [rview[0]] + rview[1..];
    }
  }

  lemma {:induction false} LeftRowCount(lc: Col, rc: Col, l0: nat, rview: seq<nat>, l: nat, r: nat)
    ensures multiset(LeftRow(lc, rc, l0, rview))[Both(l, r)] == multiset(Row(lc, rc, l0, rview))[Both(l, r)]
    ensures multiset(LeftRow(lc, rc, l0, rview))[LeftOnly(l)] ==
      if l == l0 && forall x :: x in rview ==> !Match(lc, l, rc, x) then 1 else 0
  {
    hide Match, Row;
    RowCount(lc, rc, l0, rview, l, r);
    RowEmpty(lc, rc, l0, rview);
  }

  /** A left join has the inner join's rows, and besides them each left row without a match,
      as often as it is visible. */
  lemma {:induction false} LeftJoinMeaning(lc: Col, rc: Col, lview: seq<nat>, rview: seq<nat>, l: nat, r: nat)
    ensures multiset(LeftLoops(lc, rc, lview, rview))[Both(l, r)]
        == multiset(InnerLoops(lc, rc, lview, rview))[Both(l, r)]
    ensures multiset(LeftLoops(lc, rc, lview, rview))[LeftOnly(l)] ==
      if forall x :: x in rview ==> !Match(lc, l, rc, x) then multiset(lview)[l] else 0
  {
    hide Match, Row, LeftRow;
    if lview != [] {
      var l0, rest := lview[0], lview[1..];
      LeftJoinMeaning(lc, rc, rest, rview, l, r);
      LeftRowCount(lc, rc, l0, rview, l, r);
      SumCount(LeftRow(lc, rc, l0, rview), LeftLoops(lc, rc, rest, rview), Both(l, r));
      SumCount(LeftRow(lc, rc, l0, rview), LeftLoops(lc, rc, rest, rview), LeftOnly(l));
      SumCount(Row(lc, rc, l0, rview), InnerLoops(lc, rc, rest, rview), Both(l, r));
      assert lview == [l0] + rest;
      OneCount(rest, l0, l);
    }
  }
}
