/** Stable sorting of sequences, as the table engine and `arr.sort` promise it: the result is
    ascending and, within every class of elements that compare equal, the order is the old one.
    Those two facts fix the result completely. */
module StableSort {
  import opened Basics

  /** A comparator that is a total preorder with a consistent sign. */
  ghost predicate Consistent<T(!new)>(cmp: (T, T) -> int) {
    && (forall a, b :: cmp(a, b) < 0 <==> cmp(b, a) > 0)
    && (forall a, b, c :: cmp(a, b) <= 0 && cmp(b, c) <= 0 ==> cmp(a, c) <= 0)
  }

  lemma {:induction false} Trans<T(!new)>(cmp: (T, T) -> int, a: T, b: T, c: T)
    requires Consistent(cmp) && cmp(a, b) <= 0 && cmp(b, c) <= 0
    ensures cmp(a, c) <= 0
  {
  }

  lemma {:induction false} Flip<T(!new)>(cmp: (T, T) -> int, a: T, b: T)
    requires Consistent(cmp)
    ensures cmp(a, a) == 0 && (cmp(a, b) < 0 <==> cmp(b, a) > 0) && (cmp(a, b) == 0 <==> cmp(b, a) == 0)
  {
    assert cmp(a, a) < 0 <==> cmp(a, a) > 0;
  }

  ghost predicate Sorted<T>(cmp: (T, T) -> int, s: seq<T>) {
    forall i, j :: 0 <= i < j < |s| ==> cmp(s[i], s[j]) <= 0
  }

  /** The elements that compare equal to `k`, in order. */
  function Class<T>(cmp: (T, T) -> int, k: T, s: seq<T>): seq<T> {
    if s == [] then []
    else if cmp(s[0], k) == 0 then [s[0]] + Class(cmp, k, s[1..])
    else Class(cmp, k, s[1..])
  }

  ghost predicate IsStableSort<T(!new)>(cmp: (T, T) -> int, inp: seq<T>, out: seq<T>) {
    Sorted(cmp, out) && forall k :: Class(cmp, k, out) == Class(cmp, k, inp)
  }

  lemma {:induction false} ClassAppend<T>(cmp: (T, T) -> int, k: T, a: seq<T>, b: seq<T>)
    ensures Class(cmp, k, a + b) == Class(cmp, k, a) + Class(cmp, k, b)
  {
    if a == [] {
      assert a + b == b;
    } else {
      ClassAppend(cmp, k, a[1..], b);
      assert (a + b)[0] == a[0] && (a + b)[1..] == a[1..] + b;
    }
  }

  lemma {:induction false} ClassIn<T>(cmp: (T, T) -> int, k: T, s: seq<T>)
    ensures forall x :: x in Class(cmp, k, s) <==> x in s && cmp(x, k) == 0
  {
    if s != [] {
      ClassIn(cmp, k, s[1..]);
      assert s == [s[0]] + s[1..];
    }
  }

  lemma {:induction false} ClassNone<T>(cmp: (T, T) -> int, k: T, s: seq<T>)
    requires forall x :: x in s ==> cmp(x, k) != 0
    ensures Class(cmp, k, s) == []
  {
    if s != [] {
      assert s[0] in s;
      ClassNone(cmp, k, s[1..]);
    }
  }

  lemma {:induction false} ClassWhole<T>(cmp: (T, T) -> int, k: T, s: seq<T>)
    requires forall x :: x in s ==> cmp(x, k) == 0
    ensures Class(cmp, k, s) == s
  {
    if s != [] { ClassWhole(cmp, k, s[1..]); }
  }

  /** What is not below `x`, where `x` is above `z`, is not in the class of `z`. */
  lemma {:induction false} Above<T(!new)>(cmp: (T, T) -> int, x: T, y: T, z: T, k: T)
    requires Consistent(cmp) && cmp(x, y) <= 0 && cmp(x, z) > 0 && cmp(z, k) == 0
    ensures cmp(y, k) != 0
  {
    var low := cmp(k, z) <= 0;
    var mid := cmp(y, z) <= 0 && cmp(x, z) <= 0;
    assert low;
    assert !mid;
  }

  lemma {:induction false} ClassCount<T>(cmp: (T, T) -> int, x: T, s: seq<T>)
    requires cmp(x, x) == 0
    ensures multiset(Class(cmp, x, s))[x] == multiset(s)[x]
  {
    if s != [] {
      ClassCount(cmp, x, s[1..]);
      assert s == [s[0]] + s[1..];
    }
  }

  /** A stable sort rearranges: nothing lost, nothing doubled. */
  lemma {:induction false} StableSortPermutes<T(!new)>(cmp: (T, T) -> int, inp: seq<T>, out: seq<T>)
    requires Consistent(cmp) && IsStableSort(cmp, inp, out)
    ensures multiset(out) == multiset(inp) && |out| == |inp|
  {
    forall x: T ensures multiset(out)[x] == multiset(inp)[x] {
      ClassCount(cmp, x, out);
      ClassCount(cmp, x, inp);
    }
    assert multiset(out) == multiset(inp);
    assert |multiset(out)| == |out| && |multiset(inp)| == |inp|;
  }

  /** The head of a stable sort is the first of the least elements. */
  lemma {:induction false} HeadIsFirstLeast<T(!new)>(cmp: (T, T) -> int, a: seq<T>, b: seq<T>)
    requires Consistent(cmp) && a != [] && b != [] && Sorted(cmp, a) && IsStableSort(cmp, a, b)
    ensures a[0] == b[0]
  {
    ClassIn(cmp, a[0], a);
    ClassIn(cmp, a[0], b);
    ClassIn(cmp, b[0], a);
    assert a[0] in Class(cmp, a[0], b);
    assert b[0] in Class(cmp, b[0], a) by { ClassIn(cmp, b[0], b); }
    assert cmp(b[0], a[0]) <= 0 && cmp(a[0], b[0]) <= 0;
    assert Class(cmp, a[0], a)[0] == a[0] && Class(cmp, a[0], b)[0] == b[0];
  }

  lemma {:induction false} TailClass<T>(cmp: (T, T) -> int, k: T, s: seq<T>)
    requires s != []
    ensures Class(cmp, k, s[1..]) == if cmp(s[0], k) == 0 then Class(cmp, k, s)[1..] else Class(cmp, k, s)
  {
  }

  /** Two stable sorts of the same sequence are equal. */
  lemma {:induction false} StableSortUnique<T(!new)>(cmp: (T, T) -> int, inp: seq<T>, a: seq<T>, b: seq<T>)
    requires Consistent(cmp) && IsStableSort(cmp, inp, a) && IsStableSort(cmp, inp, b)
    ensures a == b
    decreases |a|
  {
    StableSortPermutes(cmp, inp, a);
    StableSortPermutes(cmp, inp, b);
    if a != [] {
      HeadIsFirstLeast(cmp, a, b);
      forall k ensures Class(cmp, k, b[1..]) == Class(cmp, k, a[1..]) {
        TailClass(cmp, k, a);
        TailClass(cmp, k, b);
      }
      StableSortUnique(cmp, a[1..], a[1..], b[1..]);
      assert a == [a[0]] + a[1..] && b == [b[0]] + b[1..];
    }
  }

  // ---------------------------------------------------------------- merging

  function Merge<T>(cmp: (T, T) -> int, a: seq<T>, b: seq<T>): (r: seq<T>)
    ensures |r| == |a| + |b|
    decreases |a| + |b|
  {
    if a == [] then b
    else if b == [] then a
    else if cmp(a[0], b[0]) <= 0 then [a[0]] + Merge(cmp, a[1..], b)
    else [b[0]] + Merge(cmp, a, b[1..])
  }

  lemma {:induction false} MergeIn<T>(cmp: (T, T) -> int, a: seq<T>, b: seq<T>)
    ensures forall x :: x in Merge(cmp, a, b) <==> x in a || x in b
    decreases |a| + |b|
  {
    if a != [] && b != [] {
      assert a == [a[0]] + a[1..] && b == [b[0]] + b[1..];
      if cmp(a[0], b[0]) <= 0 { MergeIn(cmp, a[1..], b); } else { MergeIn(cmp, a, b[1..]); }
    }
  }

  lemma {:induction false} SortedCons<T(!new)>(cmp: (T, T) -> int, x: T, s: seq<T>)
    requires Sorted(cmp, s) && forall y :: y in s ==> cmp(x, y) <= 0
    ensures Sorted(cmp, [x] + s)
  {
  }

  lemma {:induction false} SortedTail<T>(cmp: (T, T) -> int, s: seq<T>)
    requires Sorted(cmp, s) && s != []
    ensures Sorted(cmp, s[1..]) && forall y :: y in s[1..] ==> cmp(s[0], y) <= 0
  {
  }

  lemma {:induction false} MergeSorted<T(!new)>(cmp: (T, T) -> int, a: seq<T>, b: seq<T>)
    requires Consistent(cmp) && Sorted(cmp, a) && Sorted(cmp, b)
    ensures Sorted(cmp, Merge(cmp, a, b))
    decreases |a| + |b|
  {
    if a != [] && b != [] {
      SortedTail(cmp, a);
      SortedTail(cmp, b);
      if cmp(a[0], b[0]) <= 0 {
        MergeSorted(cmp, a[1..], b);
        MergeIn(cmp, a[1..], b);
        forall y | y in b ensures cmp(a[0], y) <= 0 { assert y == b[0] || y in b[1..]; }
        SortedCons(cmp, a[0], Merge(cmp, a[1..], b));
      } else {
        MergeSorted(cmp, a, b[1..]);
        MergeIn(cmp, a, b[1..]);
        forall y | y in a ensures cmp(b[0], y) <= 0 { assert y == a[0] || y in a[1..]; }
        SortedCons(cmp, b[0], Merge(cmp, a, b[1..]));
      }
    }
  }

  /** Merging keeps each class: the left run's members come before the right run's. */
  lemma {:induction false} MergeClass<T(!new)>(cmp: (T, T) -> int, k: T, a: seq<T>, b: seq<T>)
    requires Consistent(cmp) && Sorted(cmp, a) && Sorted(cmp, b)
    ensures Class(cmp, k, Merge(cmp, a, b)) == Class(cmp, k, a) + Class(cmp, k, b)
    decreases |a| + |b|
  {
    hide Consistent, Sorted;
    if a != [] && b != [] {
      SortedTail(cmp, a);
      SortedTail(cmp, b);
      if cmp(a[0], b[0]) <= 0 {
        MergeClass(cmp, k, a[1..], b);
      } else {
        MergeClass(cmp, k, a, b[1..]);
        if cmp(b[0], k) == 0 {
          Flip(cmp, a[0], a[0]);
          forall y | y in a ensures cmp(y, k) != 0 {
            assert y == a[0] || y in a[1..];
            Above(cmp, a[0], y, b[0], k);
          }
          ClassNone(cmp, k, a);
        }
      }
    }
  }

  // ---------------------------------------------------------------- bottom-up passes

  /** One pass: neighbouring runs of length `w` merged. */
  function MergePass<T>(cmp: (T, T) -> int, s: seq<T>, w: nat): (r: seq<T>)
    requires w > 0
    ensures |r| == |s|
    decreases |s|
  {
    if s == [] then [] else
    var m, e := Least(w, |s|), Least(2 * w, |s|);
    Merge(cmp, s[..m], s[m..e]) + MergePass(cmp, s[e..], w)
  }

  function MergePasses<T>(cmp: (T, T) -> int, s: seq<T>, w: nat): (r: seq<T>)
    requires w > 0
    ensures |r| == |s|
    decreases |s| - w
  {
    if w >= |s| then s else MergePasses(cmp, MergePass(cmp, s, w), 2 * w)
  }

  /** Cut into runs of length `w`, each run is sorted. */
  ghost predicate RunsSorted<T>(cmp: (T, T) -> int, s: seq<T>, w: nat)
    requires w > 0
    decreases |s|
  {
    if |s| <= w then Sorted(cmp, s) else Sorted(cmp, s[..w]) && RunsSorted(cmp, s[w..], w)
  }

  lemma {:induction false} RunsOfOne<T>(cmp: (T, T) -> int, s: seq<T>)
    ensures RunsSorted(cmp, s, 1)
    decreases |s|
  {
    if |s| > 1 { RunsOfOne(cmp, s[1..]); }
  }

  lemma {:induction false} PassRuns<T(!new)>(cmp: (T, T) -> int, s: seq<T>, w: nat)
    requires w > 0 && Consistent(cmp) && RunsSorted(cmp, s, w)
    ensures RunsSorted(cmp, MergePass(cmp, s, w), 2 * w)
    decreases |s|
  {
    if s != [] {
      var m, e := Least(w, |s|), Least(2 * w, |s|);
      TwoRuns(cmp, s, w);
      MergeSorted(cmp, s[..m], s[m..e]);
      var front := Merge(cmp, s[..m], s[m..e]);
      if 2 * w < |s| {
        PassRuns(cmp, s[e..], w);
        var r := MergePass(cmp, s, w);
        assert r[..2 * w] == front && r[2 * w..] == MergePass(cmp, s[e..], w);
      } else {
        assert MergePass(cmp, s, w) == front;
      }
    }
  }

  lemma {:induction false} TwoRuns<T>(cmp: (T, T) -> int, s: seq<T>, w: nat)
    requires w > 0 && s != [] && RunsSorted(cmp, s, w)
    ensures var m, e := Least(w, |s|), Least(2 * w, |s|);
      Sorted(cmp, s[..m]) && Sorted(cmp, s[m..e]) && RunsSorted(cmp, s[e..], w)
  {
    if |s| <= w {
      assert s[..|s|] == s;
    } else if |s| <= 2 * w {
      assert s[w..|s|] == s[w..];
    } else {
      assert s[w..][..w] == s[w..2 * w] && s[w..][w..] == s[2 * w..];
    }
  }

  lemma {:induction false} PassClass<T(!new)>(cmp: (T, T) -> int, k: T, s: seq<T>, w: nat)
    requires w > 0 && Consistent(cmp) && RunsSorted(cmp, s, w)
    ensures Class(cmp, k, MergePass(cmp, s, w)) == Class(cmp, k, s)
    decreases |s|
  {
    hide Consistent, RunsSorted, Sorted, Class, Merge;
    if s != [] {
      var m, e := Least(w, |s|), Least(2 * w, |s|);
      var l, r, rest := s[..m], s[m..e], s[e..];
      TwoRuns(cmp, s, w);
      PassClass(cmp, k, rest, w);
      MergeClass(cmp, k, l, r);
      assert s == (l + r) + rest;
      Spread(cmp, k, l + r, rest, Merge(cmp, l, r), MergePass(cmp, rest, w)) by { ClassAppend(cmp, k, l, r); }
    }
  }

  lemma {:induction false} Spread<T>(cmp: (T, T) -> int, k: T, a: seq<T>, b: seq<T>, c: seq<T>, d: seq<T>)
    requires Class(cmp, k, a) == Class(cmp, k, c) && Class(cmp, k, b) == Class(cmp, k, d)
    ensures Class(cmp, k, a + b) == Class(cmp, k, c + d)
  {
    ClassAppend(cmp, k, a, b);
    ClassAppend(cmp, k, c, d);
  }

  /** The bottom-up passes sort stably, from any width at which the runs are sorted. */
  lemma {:induction false} MergePassesSort<T(!new)>(cmp: (T, T) -> int, s: seq<T>, w: nat)
    requires w > 0 && Consistent(cmp) && RunsSorted(cmp, s, w)
    ensures IsStableSort(cmp, s, MergePasses(cmp, s, w))
    decreases |s| - w
  {
    if w < |s| {
      PassRuns(cmp, s, w);
      MergePassesSort(cmp, MergePass(cmp, s, w), 2 * w);
      forall k ensures Class(cmp, k, MergePasses(cmp, s, w)) == Class(cmp, k, s) {
        PassClass(cmp, k, s, w);
      }
    }
  }

  /** The stable sort of a sequence. */
  function StableSorted<T>(cmp: (T, T) -> int, s: seq<T>): (r: seq<T>)
    ensures |r| == |s|
  {
    MergePasses(cmp, s, 1)
  }

  lemma {:induction false} StableSortedSorts<T(!new)>(cmp: (T, T) -> int, s: seq<T>)
    requires Consistent(cmp)
    ensures IsStableSort(cmp, s, StableSorted(cmp, s))
    ensures multiset(StableSorted(cmp, s)) == multiset(s)
  {
    RunsOfOne(cmp, s);
    MergePassesSort(cmp, s, 1);
    StableSortPermutes(cmp, s, StableSorted(cmp, s));
  }

  // ---------------------------------------------------------------- one insertion

  /** Placing `x` behind everything not above it extends a stable sort by one element. */
  lemma {:induction false} InsertStable<T(!new)>(cmp: (T, T) -> int, inp: seq<T>, out: seq<T>, x: T, j: nat)
    requires Consistent(cmp) && IsStableSort(cmp, inp, out) && j <= |out|
    requires j > 0 ==> cmp(out[j - 1], x) <= 0
    requires forall i :: j <= i < |out| ==> cmp(out[i], x) > 0
    ensures IsStableSort(cmp, inp + [x], out[..j] + [x] + out[j..])
  {
    hide Class;
    var lo, hi := out[..j], out[j..];
    assert lo + hi == out;
    InsertSorted(cmp, lo, x, hi);
    forall k ensures Class(cmp, k, lo + [x] + hi) == Class(cmp, k, inp + [x]) {
      InsertClass(cmp, k, inp, lo, x, hi);
    }
  }

  lemma {:induction false} SortedJoin<T(!new)>(cmp: (T, T) -> int, a: seq<T>, b: seq<T>)
    requires Sorted(cmp, a) && Sorted(cmp, b) && forall x, y :: x in a && y in b ==> cmp(x, y) <= 0
    ensures Sorted(cmp, a + b)
  {
    var c := a + b;
    forall i, j | 0 <= i < j < |c| ensures cmp(c[i], c[j]) <= 0 {
      if i < |a| && j >= |a| { assert c[i] in a && c[j] in b; }
    }
  }

  lemma {:induction false} SortedParts<T(!new)>(cmp: (T, T) -> int, a: seq<T>, b: seq<T>)
    requires Sorted(cmp, a + b)
    ensures Sorted(cmp, a) && Sorted(cmp, b) && forall x, y :: x in a && y in b ==> cmp(x, y) <= 0
  {
    var c := a + b;
    assert forall i :: 0 <= i < |a| ==> c[i] == a[i];
    assert forall i :: 0 <= i < |b| ==> c[|a| + i] == b[i];
    forall x, y | x in a && y in b ensures cmp(x, y) <= 0 {
      var i :| 0 <= i < |a| && a[i] == x;
      var j :| 0 <= j < |b| && b[j] == y;
      assert cmp(c[i], c[|a| + j]) <= 0;
    }
  }

  lemma {:induction false} InsertSorted<T(!new)>(cmp: (T, T) -> int, lo: seq<T>, x: T, hi: seq<T>)
    requires Consistent(cmp) && Sorted(cmp, lo + hi)
    requires lo != [] ==> cmp(lo[|lo| - 1], x) <= 0
    requires forall y :: y in hi ==> cmp(y, x) > 0
    ensures Sorted(cmp, lo + [x] + hi)
  {
    hide Consistent;
    SortedParts(cmp, lo, hi);
    forall y | y in lo ensures cmp(y, x) <= 0 {
      var i :| 0 <= i < |lo| && lo[i] == y;
      if i < |lo| - 1 { Trans(cmp, y, lo[|lo| - 1], x); }
    }
    forall y | y in hi ensures cmp(x, y) <= 0 { Flip(cmp, x, y); }
    SortedJoin(cmp, lo, [x]);
    SortedJoin(cmp, lo + [x], hi);
  }

  lemma {:induction false} InsertClass<T(!new)>(cmp: (T, T) -> int, k: T, inp: seq<T>, lo: seq<T>, x: T, hi: seq<T>)
    requires Consistent(cmp) && Class(cmp, k, lo + hi) == Class(cmp, k, inp)
    requires forall y :: y in hi ==> cmp(y, x) > 0
    ensures Class(cmp, k, lo + [x] + hi) == Class(cmp, k, inp + [x])
  {
    hide Consistent;
    ClassAppend(cmp, k, lo + [x], hi);
    ClassAppend(cmp, k, lo, [x]);
    ClassAppend(cmp, k, lo, hi);
    ClassAppend(cmp, k, inp, [x]);
    if cmp(x, k) == 0 {
      forall y | y in hi ensures cmp(y, k) != 0 {
        Flip(cmp, y, y);
        Above(cmp, y, y, x, k);
      }
      ClassNone(cmp, k, hi);
    }
  }
}
