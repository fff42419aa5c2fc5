/** Counting sort of rows by rank, and the ranges of equal keys in a sorted list. */
module CountingSort {
  import opened StableSort

  /** The rows of rank `q`, in order. */
  function Pick(rows: seq<nat>, r: seq<nat>, q: nat): seq<nat>
    requires |rows| == |r|
  {
    if rows == [] then [] else
    var n := |rows| - 1;
    if r[n] == q then Pick(rows[..n], r[..n], q) + [rows[n]] else Pick(rows[..n], r[..n], q)
  }

  /** Where rank `q` begins. */
  function Start(rows: seq<nat>, r: seq<nat>, q: nat): nat
    requires |rows| == |r|
  {
    if q == 0 then 0 else Start(rows, r, q - 1) + |Pick(rows, r, q - 1)|
  }

  /** The first `m` ranks laid out one after the other. */
  function Laid(rows: seq<nat>, r: seq<nat>, m: nat): (s: seq<nat>)
    requires |rows| == |r|
    ensures |s| == Start(rows, r, m)
  {
    if m == 0 then [] else Laid(rows, r, m - 1) + Pick(rows, r, m - 1)
  }

  lemma {:induction false} PickPrefix(rows: seq<nat>, r: seq<nat>, i: nat, q: nat)
    requires i <= |rows| == |r|
    ensures |Pick(rows[..i], r[..i], q)| <= |Pick(rows, r, q)|
    ensures Pick(rows[..i], r[..i], q) == Pick(rows, r, q)[..|Pick(rows[..i], r[..i], q)|]
    decreases |rows| - i
  {
    if i == |rows| {
      assert rows[..i] == rows && r[..i] == r;
    } else {
      PickPrefix(rows, r, i + 1, q);
      assert rows[..i + 1][..i] == rows[..i] && r[..i + 1][..i] == r[..i];
    }
  }

  lemma {:induction false} PickNext(rows: seq<nat>, r: seq<nat>, i: nat, q: nat)
    requires i < |rows| == |r|
    ensures Pick(rows[..i + 1], r[..i + 1], q) == Pick(rows[..i], r[..i], q) + if r[i] == q then [rows[i]] else []
  {
    assert rows[..i + 1][..i] == rows[..i] && r[..i + 1][..i] == r[..i];
  }

  lemma {:induction false} PickNothing(rows: seq<nat>, r: seq<nat>)
    requires |rows| == |r|
    ensures forall q :: Pick(rows[..0], r[..0], q) == []
  {
  }

  lemma {:induction false} TallyNothing(rows: seq<nat>, r: seq<nat>)
    requires |rows| == |r|
    ensures forall q :: Tally(rows[..0], r[..0], q) == 0
  {
  }

  lemma {:induction false} StartCount(rows: seq<nat>, r: seq<nat>, q: nat)
    requires |rows| == |r| && rows != []
    ensures var n := |rows| - 1;
      Start(rows, r, q) == Start(rows[..n], r[..n], q) + if r[n] < q then 1 else 0
  {
    if q > 0 { StartCount(rows, r, q - 1); }
  }

  lemma {:induction false} StartAll(rows: seq<nat>, r: seq<nat>, n: nat)
    requires |rows| == |r| && forall i :: 0 <= i < |r| ==> r[i] < n
    ensures Start(rows, r, n) == |rows|
    decreases |rows|
  {
    if rows == [] {
      StartNone(n);
    } else {
      StartCount(rows, r, n);
      StartAll(rows[..|rows| - 1], r[..|rows| - 1], n);
    }
  }

  lemma {:induction false} StartNone(n: nat)
    ensures Start([], [], n) == 0
  {
    if n > 0 { StartNone(n - 1); }
  }

  lemma {:induction false} StartMono(rows: seq<nat>, r: seq<nat>, p: nat, q: nat)
    requires |rows| == |r| && p <= q
    ensures Start(rows, r, p) <= Start(rows, r, q)
    decreases q
  {
    if p < q { StartMono(rows, r, p, q - 1); }
  }

  lemma {:induction false} LaidSegment(rows: seq<nat>, r: seq<nat>, n: nat, q: nat)
    requires |rows| == |r| && q < n
    ensures Start(rows, r, q + 1) <= Start(rows, r, n)
    ensures Laid(rows, r, n)[Start(rows, r, q)..Start(rows, r, q + 1)] == Pick(rows, r, q)
    decreases n
  {
    if q < n - 1 {
      LaidSegment(rows, r, n - 1, q);
      var a, b := Start(rows, r, q), Start(rows, r, q + 1);
      assert Laid(rows, r, n)[a..b] == Laid(rows, r, n - 1)[a..b];
    }
  }

  /** Where the counting sort puts row `i`. */
  lemma {:induction false} LaidAt(rows: seq<nat>, r: seq<nat>, n: nat, i: nat)
    requires i < |rows| == |r| && r[i] < n
    ensures var p := Start(rows, r, r[i]) + |Pick(rows[..i], r[..i], r[i])|;
      p < Start(rows, r, n) && Laid(rows, r, n)[p] == rows[i]
  {
    var q := r[i];
    LaidSegment(rows, r, n, q);
    PickPrefix(rows, r, i + 1, q);
    PickNext(rows, r, i, q);
    var j := |Pick(rows[..i], r[..i], q)|;
    assert Pick(rows, r, q)[j] == rows[i] by { assert Pick(rows, r, q)[..j + 1][j] == rows[i]; }
    assert Laid(rows, r, n)[Start(rows, r, q)..Start(rows, r, q + 1)][j] == rows[i];
  }

  lemma {:induction false} Covered(rows: seq<nat>, r: seq<nat>, n: nat, p: nat) returns (q: nat)
    requires |rows| == |r| && p < Start(rows, r, n)
    ensures q < n && Start(rows, r, q) <= p < Start(rows, r, q + 1)
  {
    if Start(rows, r, n - 1) <= p { q := n - 1; } else { q := Covered(rows, r, n - 1, p); }
  }

  /** How many rows have the rank just below `q`. */
  function Tally(rows: seq<nat>, r: seq<nat>, q: nat): nat
    requires |rows| == |r|
  {
    if q == 0 then 0 else |Pick(rows, r, q - 1)|
  }

  lemma {:induction false} TallyNext(rows: seq<nat>, r: seq<nat>, i: nat, q: nat)
    requires i < |rows| == |r|
    ensures Tally(rows[..i + 1], r[..i + 1], q) == Tally(rows[..i], r[..i], q) + if q == r[i] + 1 then 1 else 0
  {
    if q > 0 { PickNext(rows, r, i, q - 1); }
  }

  /** Count the ranks and sum up: `gstart[q]` becomes the place where rank `q` begins. */
  method Count(rows: seq<nat>, r: seq<nat>, n: nat) returns (gstart: array<nat>)
    requires |rows| == |r| && forall i :: 0 <= i < |r| ==> r[i] < n
    ensures fresh(gstart) && gstart.Length == n + 1 && forall q :: 0 <= q <= n ==> gstart[q] == Start(rows, r, q)
  {
    hide Pick, Tally;
    gstart := new nat[n + 1](_ => 0);
    TallyNothing(rows, r);
    var i := 0;
    while i < |rows|
      invariant i <= |rows|
      invariant forall q :: 0 <= q <= n ==> gstart[q] == Tally(rows[..i], r[..i], q)
    {
      forall q | 0 <= q <= n { TallyNext(rows, r, i, q); }
      gstart[r[i] + 1] := gstart[r[i] + 1] + 1;
      i := i + 1;
    }
    assert rows[..i] == rows && r[..i] == r;
    SumUp(rows, r, n, gstart);
  }

  /** Running totals. */
  method SumUp(rows: seq<nat>, r: seq<nat>, n: nat, gstart: array<nat>)
    requires |rows| == |r| && gstart.Length == n + 1 && forall q :: 0 <= q <= n ==> gstart[q] == Tally(rows, r, q)
    modifies gstart
    ensures forall q :: 0 <= q <= n ==> gstart[q] == Start(rows, r, q)
  {
    hide Pick;
    var i := 0;
    while i < n
      invariant i <= n
      invariant forall q :: 0 <= q <= n ==> gstart[q] == if q <= i then Start(rows, r, q) else Tally(rows, r, q)
    {
      gstart[i + 1] := gstart[i + 1] + gstart[i];
      i := i + 1;
    }
  }

  /** Each row goes to the next free place of its rank. */
  method Place(rows: seq<nat>, r: seq<nat>, n: nat, gstart: array<nat>) returns (grp: array<nat>)
    requires |rows| == |r| && forall i :: 0 <= i < |r| ==> r[i] < n
    requires gstart.Length == n + 1 && forall q :: 0 <= q <= n ==> gstart[q] == Start(rows, r, q)
    ensures fresh(grp) && grp[..] == Laid(rows, r, n)
  {
    hide Pick, Start, Laid;
    ghost var want := Laid(rows, r, n);
    StartAll(rows, r, n);
    PickNothing(rows, r);
    grp := new nat[|rows|](_ => 0);
    var fill := new nat[n + 1](q requires 0 <= q <= n reads gstart => gstart[q]);
    var i := 0;
    while i < |rows|
      invariant i <= |rows|
      invariant forall q :: 0 <= q < n ==> fill[q] == Start(rows, r, q) + |Pick(rows[..i], r[..i], q)|
      invariant forall q, p :: 0 <= q < n && Start(rows, r, q) <= p < fill[q] && p < grp.Length ==> grp[p] == want[p]
    {
      LaidAt(rows, r, n, i);
      forall q | 0 <= q < n
        ensures |Pick(rows[..i + 1], r[..i + 1], q)| == |Pick(rows[..i], r[..i], q)| + if r[i] == q then 1 else 0
      {
        PickNext(rows, r, i, q);
      }
      grp[fill[r[i]]] := rows[i];
      fill[r[i]] := fill[r[i]] + 1;
      i := i + 1;
    }
    assert rows[..i] == rows && r[..i] == r;
    forall p | 0 <= p < |rows| ensures grp[p] == want[p] {
      var q := Covered(rows, r, n, p);
      StartNext(rows, r, q);
    }
  }

  lemma {:induction false} StartNext(rows: seq<nat>, r: seq<nat>, q: nat)
    requires |rows| == |r|
    ensures Start(rows, r, q + 1) == Start(rows, r, q) + |Pick(rows, r, q)|
  {
  }

  // ---------------------------------------------------------------- the layout is the stable sort

  /** `order` lists one row per key, and `r` ranks every row by its key's place there. */
  ghost predicate Ranked(cmp: (nat, nat) -> int, rows: seq<nat>, r: seq<nat>, order: seq<nat>) {
    && Consistent(cmp) && |rows| == |r|
    && (forall i, j :: 0 <= i < j < |order| ==> cmp(order[i], order[j]) != 0)
    && (forall i :: 0 <= i < |rows| ==> r[i] < |order| && cmp(rows[i], order[r[i]]) == 0)
  }

  ghost predicate Rising(cmp: (nat, nat) -> int, order: seq<nat>) {
    forall i, j :: 0 <= i < j < |order| ==> cmp(order[i], order[j]) < 0
  }

  lemma {:induction false} PickIn(cmp: (nat, nat) -> int, rows: seq<nat>, r: seq<nat>, order: seq<nat>, q: nat)
    requires Ranked(cmp, rows, r, order) && q < |order|
    ensures forall x :: x in Pick(rows, r, q) ==> cmp(x, order[q]) == 0
    decreases |rows|
  {
    if rows != [] {
      var n := |rows| - 1;
      PickIn(cmp, rows[..n], r[..n], order, q);
    }
  }

  lemma {:induction false} AllTied(cmp: (nat, nat) -> int, s: seq<nat>, k: nat)
    requires Consistent(cmp) && forall x :: x in s ==> cmp(x, k) == 0
    ensures Sorted(cmp, s)
  {
    forall i, j | 0 <= i < j < |s| ensures cmp(s[i], s[j]) <= 0 {
      assert s[i] in s && s[j] in s;
      Flip(cmp, s[j], k);
      Trans(cmp, s[i], k, s[j]);
    }
  }

  lemma {:induction false} LaidSorted(cmp: (nat, nat) -> int, rows: seq<nat>, r: seq<nat>, order: seq<nat>, m: nat)
    requires Ranked(cmp, rows, r, order) && Rising(cmp, order) && m <= |order|
    ensures Sorted(cmp, Laid(rows, r, m))
    ensures m < |order| ==> forall x :: x in Laid(rows, r, m) ==> cmp(x, order[m]) <= 0
    decreases m
  {
    hide Consistent;
    if m > 0 {
      var front, seg := Laid(rows, r, m - 1), Pick(rows, r, m - 1);
      LaidSorted(cmp, rows, r, order, m - 1);
      PickIn(cmp, rows, r, order, m - 1);
      AllTied(cmp, seg, order[m - 1]);
      forall x, y | x in front && y in seg ensures cmp(x, y) <= 0 {
        Flip(cmp, y, order[m - 1]);
        Trans(cmp, x, order[m - 1], y);
      }
      SortedJoin(cmp, front, seg);
      if m < |order| {
        forall x | x in front + seg ensures cmp(x, order[m]) <= 0 {
          Trans(cmp, x, order[m - 1], order[m]);
        }
      }
    }
  }

  /** The rank of the key of `k`, or -1. */
  ghost predicate RankOf(cmp: (nat, nat) -> int, order: seq<nat>, k: nat, q: int) {
    && -1 <= q < |order|
    && forall i :: 0 <= i < |order| ==> (cmp(order[i], k) == 0 <==> i == q)
  }

  lemma {:induction false} FindRank(cmp: (nat, nat) -> int, rows: seq<nat>, r: seq<nat>, order: seq<nat>,
          k: nat) returns (q: int)
    requires Ranked(cmp, rows, r, order)
    ensures RankOf(cmp, order, k, q)
  {
    hide Consistent;
    if i :| 0 <= i < |order| && cmp(order[i], k) == 0 {
      q := i;
      forall j | 0 <= j < |order| && j != i ensures cmp(order[j], k) != 0 {
        if cmp(order[j], k) == 0 {
          TiedTo(cmp, order[i], order[j], k);
          TiedTo(cmp, order[j], order[i], k);
        }
      }
    } else {
      q := -1;
    }
  }

  lemma {:induction false} TiedTo(cmp: (nat, nat) -> int, x: nat, y: nat, k: nat)
    requires Consistent(cmp) && cmp(x, k) == 0
    ensures cmp(y, k) == 0 <==> cmp(x, y) == 0
  {
    Flip(cmp, x, k);
    Flip(cmp, y, k);
    Flip(cmp, x, y);
    if cmp(y, k) == 0 {
      Trans(cmp, x, k, y);
      Trans(cmp, y, k, x);
    }
    if cmp(x, y) == 0 {
      Trans(cmp, y, x, k);
      Trans(cmp, k, x, y);
    }
  }

  lemma {:induction false} RowsClass(cmp: (nat, nat) -> int, rows: seq<nat>, r: seq<nat>, order: seq<nat>, k: nat,
          q: int)
    requires Ranked(cmp, rows, r, order) && RankOf(cmp, order, k, q)
    ensures Class(cmp, k, rows) == if q < 0 then [] else Pick(rows, r, q)
    decreases |rows|
  {
    if rows != [] {
      hide Consistent, Ranked, Class, Pick, RankOf;
      var n := |rows| - 1;
      RankedInit(cmp, rows, r, order);
      RowsClass(cmp, rows[..n], r[..n], order, k, q);
      ClassLast(cmp, k, rows);
      SameTie(cmp, rows[n], order[r[n]], k);
      RankAt(cmp, order, k, q, r[n]);
      if q >= 0 { PickLast(rows, r, q); }
    }
  }

  lemma {:induction false} RankAt(cmp: (nat, nat) -> int, order: seq<nat>, k: nat, q: int, i: nat)
    requires RankOf(cmp, order, k, q) && i < |order|
    ensures cmp(order[i], k) == 0 <==> i == q
  {
  }

  lemma {:induction false} RankedInit(cmp: (nat, nat) -> int, rows: seq<nat>, r: seq<nat>, order: seq<nat>)
    requires Ranked(cmp, rows, r, order) && rows != []
    ensures var n := |rows| - 1;
      && |rows| == |r| && Consistent(cmp) && Ranked(cmp, rows[..n], r[..n], order)
      && r[n] < |order| && cmp(rows[n], order[r[n]]) == 0
  {
  }

  lemma {:induction false} PickLast(rows: seq<nat>, r: seq<nat>, q: nat)
    requires |rows| == |r| && rows != []
    ensures var n := |rows| - 1;
      Pick(rows, r, q) == Pick(rows[..n], r[..n], q) + if r[n] == q then [rows[n]] else []
  {
  }

  lemma {:induction false} ClassLast(cmp: (nat, nat) -> int, k: nat, rows: seq<nat>)
    requires rows != []
    ensures var n := |rows| - 1;
      Class(cmp, k, rows) == Class(cmp, k, rows[..n]) + if cmp(rows[n], k) == 0 then [rows[n]] else []
  {
    var n := |rows| - 1;
    assert rows == rows[..n] + [rows[n]];
    ClassAppend(cmp, k, rows[..n], [rows[n]]);
    assert Class(cmp, k, [rows[n]]) == if cmp(rows[n], k) == 0 then [rows[n]] else [];
  }

  lemma {:induction false} SameTie(cmp: (nat, nat) -> int, x: nat, y: nat, k: nat)
    requires Consistent(cmp) && cmp(x, y) == 0
    ensures cmp(x, k) == 0 <==> cmp(y, k) == 0
  {
    hide Consistent;
    Flip(cmp, x, y);
    Flip(cmp, x, k);
    Flip(cmp, y, k);
    if cmp(x, k) == 0 {
      Trans(cmp, y, x, k);
      Trans(cmp, k, x, y);
    }
    if cmp(y, k) == 0 {
      Trans(cmp, x, y, k);
      Trans(cmp, k, y, x);
    }
  }

  lemma {:induction false} LaidClass(cmp: (nat, nat) -> int, rows: seq<nat>, r: seq<nat>, order: seq<nat>, k: nat,
          q: int, m: nat)
    requires Ranked(cmp, rows, r, order) && RankOf(cmp, order, k, q) && m <= |order|
    ensures Class(cmp, k, Laid(rows, r, m)) == if 0 <= q < m then Pick(rows, r, q) else []
    decreases m
  {
    hide Consistent;
    if m > 0 {
      LaidClass(cmp, rows, r, order, k, q, m - 1);
      var seg := Pick(rows, r, m - 1);
      ClassAppend(cmp, k, Laid(rows, r, m - 1), seg);
      PickIn(cmp, rows, r, order, m - 1);
      forall x | x in seg ensures cmp(x, k) == 0 <==> m - 1 == q { SameTie(cmp, x, order[m - 1], k); }
      if m - 1 == q { ClassWhole(cmp, k, seg); } else { ClassNone(cmp, k, seg); }
    }
  }

  /** Laying the rows out rank by rank, the ranks ascending by key, is sorting them stably. */
  lemma {:induction false} LaidIsStableSort(cmp: (nat, nat) -> int, rows: seq<nat>, r: seq<nat>, order: seq<nat>)
    requires Ranked(cmp, rows, r, order) && Rising(cmp, order)
    ensures IsStableSort(cmp, rows, Laid(rows, r, |order|))
  {
    LaidSorted(cmp, rows, r, order, |order|);
    forall k: nat ensures Class(cmp, k, Laid(rows, r, |order|)) == Class(cmp, k, rows) {
      var q := FindRank(cmp, rows, r, order, k);
      RowsClass(cmp, rows, r, order, k, q);
      LaidClass(cmp, rows, r, order, k, q, |order|);
    }
  }
}
