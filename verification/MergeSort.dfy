/** The two in-place merge sorts: the table engine's over row indices and the runtime's over an
    array's elements, the latter with an insertion sort for when no scratch buffer is to be had. */
module MergeSort {
  import opened Basics
  import opened StableSort

  lemma {:induction false} MergeStep<T>(cmp: (T, T) -> int, a: seq<T>, b: seq<T>)
    requires a != [] && b != []
    ensures cmp(a[0], b[0]) <= 0 ==> Merge(cmp, a, b) == [a[0]] + Merge(cmp, a[1..], b)
    ensures cmp(a[0], b[0]) > 0 ==> Merge(cmp, a, b) == [b[0]] + Merge(cmp, a, b[1..])
  {
  }

  /** The same seen from positions in one buffer. */
  lemma {:induction false} MergeAt<T>(cmp: (T, T) -> int, f: seq<T>, i: nat, mid: nat, j: nat, hi: nat)
    requires i < mid <= j < hi <= |f|
    ensures Merge(cmp, f[i..mid], f[j..hi]) ==
      if cmp(f[i], f[j]) <= 0 then [f[i]] + Merge(cmp, f[i + 1..mid], f[j..hi])
      else [f[j]] + Merge(cmp, f[i..mid], f[j + 1..hi])
  {
    hide Merge;
    MergeStep(cmp, f[i..mid], f[j..hi]);
    assert f[i..mid][1..] == f[i + 1..mid] && f[j..hi][1..] == f[j + 1..hi];
  }

  lemma {:induction false} MergeRest<T>(cmp: (T, T) -> int, a: seq<T>, b: seq<T>)
    requires a == [] || b == []
    ensures Merge(cmp, a, b) == a + b
  {
  }

  /** Copy what is left of a run. */
  method CopyRun<T(!new)>(from: array<T>, to: array<T>, i: nat, end: nat, k: nat)
    requires from != to && i <= end <= from.Length && k + (end - i) <= to.Length
    modifies to
    ensures forall x :: 0 <= x < to.Length ==> to[x] == if k <= x < k + (end - i) then from[i + (x - k)] else old(to[x])
  {
    var n := 0;
    while n < end - i
      invariant n <= end - i
      invariant forall x :: 0 <= x < to.Length ==> to[x] == if k <= x < k + n then from[i + (x - k)] else old(to[x])
    {
      to[k + n] := from[i + n];
      n := n + 1;
    }
  }

  /** Merge the runs [lo, mid) and [mid, hi) of `from` into the same places of `to`.
      `rightFirst` asks the question the runtime's way round: is the right element below? */
  method MergeRuns<T(!new)>(from: array<T>, to: array<T>, lo: nat, mid: nat, hi: nat, cmp: (T, T) -> int,
          rightFirst: bool)
    requires from != to && lo <= mid <= hi <= from.Length && hi <= to.Length
    requires rightFirst ==> Consistent(cmp)
    modifies to
    ensures to[lo..hi] == Merge(cmp, from[lo..mid], from[mid..hi])
    ensures forall x :: 0 <= x < to.Length && !(lo <= x < hi) ==> to[x] == old(to[x])
  {
    hide Consistent, Merge;
    ghost var f := from[..];
    ghost var want := Merge(cmp, f[lo..mid], f[mid..hi]);
    var i, j, k := lo, mid, lo;
    while i < mid && j < hi
      invariant lo <= i <= mid <= j <= hi && k == lo + (i - lo) + (j - mid)
      invariant want[k - lo..] == Merge(cmp, f[i..mid], f[j..hi])
      invariant forall x :: lo <= x < k ==> to[x] == want[x - lo]
      invariant forall x :: 0 <= x < to.Length && !(lo <= x < k) ==> to[x] == old(to[x])
    {
      MergeAt(cmp, f, i, mid, j, hi);
      if rightFirst { Flip(cmp, from[j], from[i]); }
      assert want[k - lo] == want[k - lo..][0] && want[k - lo + 1..] == want[k - lo..][1..];
      if if rightFirst then !(cmp(from[j], from[i]) < 0) else cmp(from[i], from[j]) <= 0 {
        to[k] := from[i];
        i, k := i + 1, k + 1;
      } else {
        to[k] := from[j];
        j, k := j + 1, k + 1;
      }
    }
    MergeRest(cmp, f[i..mid], f[j..hi]);
    CopyRun(from, to, i, mid, k);
    CopyRun(from, to, j, hi, k + (mid - i));
    forall x | lo <= x < hi ensures to[x] == want[x - lo] {
      if x >= k { assert want[x - lo] == want[k - lo..][x - k]; }
    }
  }

  lemma {:induction false} PassUnfold<T>(cmp: (T, T) -> int, s: seq<T>, w: nat)
    requires w > 0 && s != []
    ensures var m, e := Least(w, |s|), Least(2 * w, |s|);
      MergePass(cmp, s, w) == Merge(cmp, s[..m], s[m..e]) + MergePass(cmp, s[e..], w)
  {
  }

  lemma {:induction false} PassStep<T>(cmp: (T, T) -> int, s: seq<T>, w: nat, lo: nat)
    requires w > 0 && lo < |s|
    ensures var mid, hi := Least(lo + w, |s|), Least(lo + 2 * w, |s|);
      MergePass(cmp, s[lo..], w) == Merge(cmp, s[lo..mid], s[mid..hi]) + MergePass(cmp, s[hi..], w)
  {
    hide MergePass, Merge;
    var mid, hi := Least(lo + w, |s|), Least(lo + 2 * w, |s|);
    var rest := s[lo..];
    PassUnfold(cmp, rest, w);
    assert rest[..mid - lo] == s[lo..mid];
    assert rest[mid - lo..hi - lo] == s[mid..hi];
    assert rest[hi - lo..] == s[hi..];
  }

  lemma {:induction false} SubSlices<T>(f: seq<T>, n: nat, lo: nat, mid: nat, hi: nat)
    requires lo <= mid <= hi <= n <= |f|
    ensures f[..n][lo..mid] == f[lo..mid] && f[..n][mid..hi] == f[mid..hi]
  {
  }

  /** One pass over the first `n` elements at width `w`. */
  method Pass<T(!new)>(from: array<T>, to: array<T>, n: nat, w: nat, cmp: (T, T) -> int, rightFirst: bool)
    requires from != to && n <= from.Length && n <= to.Length && w > 0
    requires rightFirst ==> Consistent(cmp)
    modifies to
    ensures to[..n] == MergePass(cmp, from[..n], w) && to[n..] == old(to[n..])
  {
    hide Consistent, MergePass, Merge;
    ghost var s := from[..n];
    var lo := 0;
    assert s[0..] == s && to[..0] == [];
    while lo < n
      invariant 0 <= lo <= n && s == from[..n]
      invariant to[..lo] + MergePass(cmp, s[lo..], w) == MergePass(cmp, s, w)
      invariant to[n..] == old(to[n..])
    {
      var mid, hi := Least(lo + w, n), Least(lo + 2 * w, n);
      PassStep(cmp, s, w, lo);
      SubSlices(from[..], n, lo, mid, hi);
      ghost var done := to[..lo];
      MergeRuns(from, to, lo, mid, hi, cmp, rightFirst);
      ghost var m := Merge(cmp, from[lo..mid], from[mid..hi]);
      assert to[..hi] == done + to[lo..hi];
      Assoc(done, m, MergePass(cmp, s[hi..], w));
      lo := hi;
    }
    assert MergePass(cmp, s[n..], w) == [] by { assert |s[n..]| == 0; }
  }

  /** Passes of doubling width, the two buffers swapping roles; the result ends up in `base`. */
  method Passes<T(!new)>(base: array<T>, buf: array<T>, n: nat, cmp: (T, T) -> int, rightFirst: bool)
    requires base != buf && n <= base.Length && n <= buf.Length
    requires rightFirst ==> Consistent(cmp)
    modifies base, buf
    ensures base[..n] == StableSorted(cmp, old(base[..n])) && base[n..] == old(base[n..])
  {
    hide Consistent, MergePass;
    var from, to, w := base, buf, 1;
    while w < n
      invariant w > 0 && from != to && ((from == base && to == buf) || (from == buf && to == base))
      invariant MergePasses(cmp, from[..n], w) == MergePasses(cmp, old(base[..n]), 1)
      invariant base[n..] == old(base[n..])
    {
      Pass(from, to, n, w, cmp, rightFirst);
      from, to, w := to, from, 2 * w;
    }
    assert MergePasses(cmp, from[..n], w) == from[..n];
    if from != base {
      ghost var tail := base[n..];
      forall i | 0 <= i < n { base[i] := from[i]; }
      assert base[..n] == from[..n] && base[n..] == tail;
    }
  }

  /** What the table engine's sort leaves: without a scratch buffer, the order it found. */
  function AfterSort<T>(cmp: (T, T) -> int, s: seq<T>, granted: bool): (r: seq<T>)
    ensures |r| == |s|
  {
    if granted then StableSorted(cmp, s) else s
  }

  /** Few elements need no buffer, and in a list that is ascending already nothing moves. */
  lemma {:induction false} SortedAnyway<T(!new)>(cmp: (T, T) -> int, s: seq<T>, granted: bool)
    requires Consistent(cmp)
    ensures AfterSort(cmp, s, granted) == StableSorted(cmp, s) <==> granted || Sorted(cmp, s)
    ensures multiset(AfterSort(cmp, s, granted)) == multiset(s)
  {
    hide Consistent, StableSorted;
    StableSortedSorts(cmp, s);
    if Sorted(cmp, s) { StableSortUnique(cmp, s, s, StableSorted(cmp, s)); }
  }

  /** The table engine's sort of the first `n` entries of an index buffer; `scratch` answers the
      request for a second buffer, and when it is refused nothing is done. */
  method SortBuf(arr: array<nat>, n: nat, cmp: (nat, nat) -> int, scratch: nat -> bool)
    requires n <= arr.Length
    modifies arr
    ensures arr[..n] == AfterSort(cmp, old(arr[..n]), scratch(n)) && arr[n..] == old(arr[n..])
  {
    if n < 2 { return; }
    if !scratch(n) { return; }
    var tmp := new nat[n];
    Passes(arr, tmp, n, cmp, false);
  }

  /** Swap element `i` down to `j`, one place at a time. */
  method RotateDown<T(!new)>(a: array<T>, j: nat, i: nat)
    requires j <= i < a.Length
    modifies a
    ensures a[..] == old(a[..j] + [a[i]] + a[j..i] + a[i + 1..])
  {
    var k := i;
    while k > j
      invariant j <= k <= i
      invariant a[k] == old(a[i])
      invariant forall x :: 0 <= x < k || i < x < a.Length ==> a[x] == old(a[x])
      invariant forall x :: k < x <= i ==> a[x] == old(a[x - 1])
    {
      a[k], a[k - 1] := a[k - 1], a[k];
      k := k - 1;
    }
  }

  /** Without scratch: each element moved down behind the last one not above it. */
  method InsertionSort<T(!new)>(a: array<T>, cmp: (T, T) -> int)
    requires Consistent(cmp)
    modifies a
    ensures IsStableSort(cmp, old(a[..]), a[..])
  {
    hide Consistent, IsStableSort;
    ghost var s := a[..];
    StableTrivial(cmp, s[..0]);
    var i := 0;
    if a.Length > 0 {
      StableTrivial(cmp, s[..1]);
      assert a[..1] == s[..1];
      i := 1;
    }
    while i < a.Length
      invariant i <= a.Length && IsStableSort(cmp, s[..i], a[..i]) && a[i..] == s[i..]
    {
      var j := i - 1;
      while j >= 0 && cmp(a[j], a[i]) > 0
        invariant -1 <= j < i
        invariant forall k :: j < k < i ==> cmp(a[k], a[i]) > 0
      {
        j := j - 1;
      }
      j := j + 1;
      ghost var out, x := a[..i], a[i];
      assert x == s[i] && s[..i + 1] == s[..i] + [x];
      InsertStable(cmp, s[..i], out, x, j);
      RotateDown(a, j, i);
      assert a[..i + 1] == out[..j] + [x] + out[j..];
      assert a[i + 1..] == s[i + 1..];
      i := i + 1;
    }
    assert s[..a.Length] == s && a[..a.Length] == a[..];
  }

  lemma {:induction false} StableTrivial<T(!new)>(cmp: (T, T) -> int, s: seq<T>)
    requires |s| < 2
    ensures IsStableSort(cmp, s, s)
  {
  }

  /** `arr.sort`: merge sort when a scratch buffer can be had, insertion sort when not.
      For a consistent comparator the outcome is the same: the one stable sort of the input. */
  method ArrSort<T(0, !new)>(a: array<T>, cmp: (T, T) -> int, haveScratch: bool)
    requires Consistent(cmp)
    modifies a
    ensures IsStableSort(cmp, old(a[..]), a[..])
    ensures a[..] == StableSorted(cmp, old(a[..]))
  {
    hide Consistent, StableSorted, IsStableSort;
    ghost var s := a[..];
    StableSortedSorts(cmp, s);
    if a.Length < 2 {
      StableTrivial(cmp, s);
      StableSortUnique(cmp, s, s, StableSorted(cmp, s));
      return;
    }
    if !haveScratch {
      InsertionSort(a, cmp);
      StableSortUnique(cmp, s, a[..], StableSorted(cmp, s));
      return;
    }
    var buf := new T[a.Length];
    assert a[..a.Length] == s;
    Passes(a, buf, a.Length, cmp, true);
    assert a[..a.Length] == a[..];
  }
}
