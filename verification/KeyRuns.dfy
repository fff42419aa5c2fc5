/** The maximal ranges of equal keys in a sorted list. */
module KeyRuns {
  import opened StableSort

  /** From `lo` on, `runs` cuts `s` into ranges of equal keys, neighbours differing. */
  ghost predicate IsRuns(cmp: (nat, nat) -> int, s: seq<nat>, lo: nat, runs: seq<(nat, nat)>)
    requires lo <= |s|
    decreases |runs|
  {
    if runs == [] then lo == |s| else
    var (a, b) := runs[0];
    && a == lo < b <= |s|
    && (forall i :: a <= i < b ==> cmp(s[a], s[i]) == 0)
    && (b < |s| ==> cmp(s[a], s[b]) != 0)
    && IsRuns(cmp, s, b, runs[1..])
  }

  /** A sorted list is cut in one way only. */
  lemma {:induction false} RunsUnique(cmp: (nat, nat) -> int, s: seq<nat>, lo: nat, x: seq<(nat, nat)>,
          y: seq<(nat, nat)>)
    requires lo <= |s| && IsRuns(cmp, s, lo, x) && IsRuns(cmp, s, lo, y)
    ensures x == y
    decreases |x|
  {
    if x != [] && y != [] {
      var b, e := x[0].1, y[0].1;
      assert forall i :: lo <= i < b ==> cmp(s[lo], s[i]) == 0;
      assert forall i :: lo <= i < e ==> cmp(s[lo], s[i]) == 0;
      RunsUnique(cmp, s, b, x[1..], y[1..]);
      assert x == [x[0]] + x[1..] && y == [y[0]] + y[1..];
    }
  }

  /** The same cut, stopping at `hi`. */
  ghost predicate RunsTo(cmp: (nat, nat) -> int, s: seq<nat>, lo: nat, runs: seq<(nat, nat)>, hi: nat)
    requires lo <= hi <= |s|
    decreases |runs|
  {
    if runs == [] then lo == hi else
    var (a, b) := runs[0];
    && a == lo < b <= hi
    && (forall i :: a <= i < b ==> cmp(s[a], s[i]) == 0)
    && (b < |s| ==> cmp(s[a], s[b]) != 0)
    && RunsTo(cmp, s, b, runs[1..], hi)
  }

  lemma {:induction false} RunsPush(cmp: (nat, nat) -> int, s: seq<nat>, lo: nat, runs: seq<(nat, nat)>, mid: nat,
          hi: nat)
    requires lo <= mid < hi <= |s| && RunsTo(cmp, s, lo, runs, mid)
    requires (forall i :: mid <= i < hi ==> cmp(s[mid], s[i]) == 0) && (hi < |s| ==> cmp(s[mid], s[hi]) != 0)
    ensures RunsTo(cmp, s, lo, runs + [(mid, hi)], hi)
    decreases |runs|
  {
    if runs == [] {
      assert runs + [(mid, hi)] == [(mid, hi)];
    } else {
      RunsPush(cmp, s, runs[0].1, runs[1..], mid, hi);
      assert (runs + [(mid, hi)])[0] == runs[0] && (runs + [(mid, hi)])[1..] == runs[1..] + [(mid, hi)];
    }
  }

  lemma {:induction false} RunsToEnd(cmp: (nat, nat) -> int, s: seq<nat>, lo: nat, runs: seq<(nat, nat)>)
    requires lo <= |s|
    ensures RunsTo(cmp, s, lo, runs, |s|) <==> IsRuns(cmp, s, lo, runs)
    decreases |runs|
  {
    if runs != [] && lo < runs[0].1 <= |s| { RunsToEnd(cmp, s, runs[0].1, runs[1..]); }
  }

  /** The scan for the end of each range. */
  method Scan(cmp: (nat, nat) -> int, s: seq<nat>) returns (runs: seq<(nat, nat)>)
    requires Consistent(cmp)
    ensures IsRuns(cmp, s, 0, runs)
  {
    hide Consistent;
    runs := [];
    var start := 0;
    while start < |s|
      invariant start <= |s| && RunsTo(cmp, s, 0, runs, start)
      decreases |s| - start
    {
      var end := start + 1;
      Flip(cmp, s[start], s[start]);
      while end < |s| && cmp(s[start], s[end]) == 0
        invariant start < end <= |s|
        invariant forall i :: start < i < end ==> cmp(s[start], s[i]) == 0
      {
        end := end + 1;
      }
      RunsPush(cmp, s, 0, runs, start, end);
      runs := runs + [(start, end)];
      start := end;
    }
    RunsToEnd(cmp, s, 0, runs);
  }

  // ---------------------------------------------------------------- what the ranges hold

  /** The rows of each range. */
  function Groups(s: seq<nat>, runs: seq<(nat, nat)>): seq<seq<nat>> {
    if runs == [] then []
    else if runs[0].0 <= runs[0].1 <= |s| then [s[runs[0].0..runs[0].1]] + Groups(s, runs[1..])
    else []
  }

  function Flat(groups: seq<seq<nat>>): seq<nat> {
    if groups == [] then [] else groups[0] + Flat(groups[1..])
  }

  /** Every group is nonempty and holds exactly the rows of its key, in their old order. */
  ghost predicate AreClasses(cmp: (nat, nat) -> int, rows: seq<nat>, groups: seq<seq<nat>>) {
    groups != [] ==>
      groups[0] != [] && groups[0] == Class(cmp, groups[0][0], rows) && AreClasses(cmp, rows, groups[1..])
  }

  lemma {:induction false} Below(cmp: (nat, nat) -> int, s: seq<nat>, lo: nat, p: nat, q: nat)
    requires Consistent(cmp) && Sorted(cmp, s) && p < lo <= q < |s| && cmp(s[lo - 1], s[lo]) < 0
    ensures cmp(s[p], s[q]) < 0
  {
    hide Consistent;
    Flip(cmp, s[p], s[q]);
    Flip(cmp, s[q], s[p]);
    Flip(cmp, s[lo], s[lo - 1]);
    Flip(cmp, s[p], s[p]);
    Flip(cmp, s[q], s[q]);
    if cmp(s[p], s[q]) >= 0 {
      assert p == lo - 1 || cmp(s[p], s[lo - 1]) <= 0;
      assert q == lo || cmp(s[lo], s[q]) <= 0;
      Trans(cmp, s[q], s[p], s[lo - 1]);
      Trans(cmp, s[lo], s[q], s[lo - 1]);
    }
  }

  /** One range is the class of its first row. */
  lemma {:induction false} RunIsClass(cmp: (nat, nat) -> int, s: seq<nat>, a: nat, b: nat)
    requires Consistent(cmp) && Sorted(cmp, s) && a < b <= |s|
    requires a > 0 ==> cmp(s[a - 1], s[a]) < 0
    requires b < |s| ==> cmp(s[b - 1], s[b]) < 0
    requires forall i :: a <= i < b ==> cmp(s[a], s[i]) == 0
    ensures s[a..b] == Class(cmp, s[a], s)
  {
    hide Consistent, Class, Sorted;
    var k := s[a];
    NoneBefore(cmp, s, a);
    NoneBehind(cmp, s, a, b);
    forall x | x in s[a..b] ensures cmp(x, k) == 0 {
      var q :| a <= q < b && s[q] == x;
      Flip(cmp, k, x);
    }
    MiddleClass(cmp, k, s[..a], s[a..b], s[b..]);
    ThreeParts(s, a, b);
  }

  lemma {:induction false} NoneBefore(cmp: (nat, nat) -> int, s: seq<nat>, a: nat)
    requires Consistent(cmp) && Sorted(cmp, s) && a < |s| && (a > 0 ==> cmp(s[a - 1], s[a]) < 0)
    ensures forall x :: x in s[..a] ==> cmp(x, s[a]) != 0
  {
    hide Consistent, Sorted;
    forall x | x in s[..a] ensures cmp(x, s[a]) != 0 {
      var p :| 0 <= p < a && s[p] == x;
      Below(cmp, s, a, p, a);
    }
  }

  lemma {:induction false} NoneBehind(cmp: (nat, nat) -> int, s: seq<nat>, a: nat, b: nat)
    requires Consistent(cmp) && Sorted(cmp, s) && a < b <= |s| && (b < |s| ==> cmp(s[b - 1], s[b]) < 0)
    ensures forall x :: x in s[b..] ==> cmp(x, s[a]) != 0
  {
    hide Consistent, Sorted;
    forall x | x in s[b..] ensures cmp(x, s[a]) != 0 {
      var q :| b <= q < |s| && s[q] == x;
      Below(cmp, s, b, a, q);
      Flip(cmp, s[a], x);
    }
  }

  lemma {:induction false} ThreeParts(s: seq<nat>, a: nat, b: nat)
    requires a <= b <= |s|
    ensures (s[..a] + s[a..b]) + s[b..] == s
  {
  }

  lemma {:induction false} MiddleClass(cmp: (nat, nat) -> int, k: nat, lo: seq<nat>, mid: seq<nat>, hi: seq<nat>)
    requires forall x :: x in lo || x in hi ==> cmp(x, k) != 0
    requires forall x :: x in mid ==> cmp(x, k) == 0
    ensures Class(cmp, k, (lo + mid) + hi) == mid
  {
    hide Class;
    ClassAppend(cmp, k, lo + mid, hi);
    ClassAppend(cmp, k, lo, mid);
    ClassNone(cmp, k, lo);
    ClassNone(cmp, k, hi);
    ClassWhole(cmp, k, mid);
  }

  lemma {:induction false} LastBelow(cmp: (nat, nat) -> int, s: seq<nat>, a: nat, b: nat)
    requires Consistent(cmp) && Sorted(cmp, s) && a < b < |s| && cmp(s[a], s[b]) != 0
    requires forall i :: a <= i < b ==> cmp(s[a], s[i]) == 0
    ensures cmp(s[b - 1], s[b]) < 0
  {
    hide Consistent;
    assert cmp(s[b - 1], s[b]) <= 0;
    if cmp(s[b - 1], s[b]) == 0 {
      Flip(cmp, s[b - 1], s[b]);
      Flip(cmp, s[a], s[b]);
      Flip(cmp, s[a], s[b - 1]);
      Trans(cmp, s[a], s[b - 1], s[b]);
      Trans(cmp, s[b], s[b - 1], s[a]);
    }
  }

  lemma {:induction false} RunsGroup(cmp: (nat, nat) -> int, rows: seq<nat>, s: seq<nat>, lo: nat,
          runs: seq<(nat, nat)>)
    requires Consistent(cmp) && IsStableSort(cmp, rows, s) && lo <= |s| && IsRuns(cmp, s, lo, runs)
    requires 0 < lo < |s| ==> cmp(s[lo - 1], s[lo]) < 0
    ensures Flat(Groups(s, runs)) == s[lo..] && AreClasses(cmp, rows, Groups(s, runs))
    decreases |runs|
  {
    hide Consistent, Class;
    if runs != [] {
      var (a, b) := runs[0];
      if b < |s| { LastBelow(cmp, s, a, b); }
      RunsGroup(cmp, rows, s, b, runs[1..]);
      RunIsClass(cmp, s, a, b);
      assert Class(cmp, s[a], s) == Class(cmp, s[a], rows);
      assert s[a..b] + s[b..] == s[lo..];
    }
  }

  /** The ranges of a stable sort are the groups of its input: together they are the sorted rows,
      and each one is all the rows of one key. */
  lemma {:induction false} RunsAreGroups(cmp: (nat, nat) -> int, rows: seq<nat>, s: seq<nat>, runs: seq<(nat, nat)>)
    requires Consistent(cmp) && IsStableSort(cmp, rows, s) && IsRuns(cmp, s, 0, runs)
    ensures Flat(Groups(s, runs)) == s && AreClasses(cmp, rows, Groups(s, runs))
  {
    RunsGroup(cmp, rows, s, 0, runs);
    assert s[0..] == s;
  }

  /** In a sorted list the keys of the ranges rise strictly. */
  lemma {:induction false} RunsRise(cmp: (nat, nat) -> int, s: seq<nat>, lo: nat, runs: seq<(nat, nat)>)
    requires Consistent(cmp) && Sorted(cmp, s) && lo <= |s| && IsRuns(cmp, s, lo, runs)
    ensures forall i :: 0 <= i < |runs| ==> lo <= runs[i].0 < |s|
    ensures forall i, j :: 0 <= i < j < |runs| ==> cmp(s[runs[i].0], s[runs[j].0]) < 0
    decreases |runs|
  {
    hide Consistent;
    if runs != [] {
      var (a, b) := runs[0];
      RunsRise(cmp, s, b, runs[1..]);
      assert forall i :: 0 < i < |runs| ==> runs[i] == runs[1..][i - 1];
      forall j | 0 < j < |runs| ensures cmp(s[a], s[runs[j].0]) < 0 {
        LastBelow(cmp, s, a, b);
        Below(cmp, s, b, a, runs[j].0);
      }
    }
  }
}
