/** How stable sorts compose with each other and with filters. */
module SortAlgebra {
  import opened StableSort

  /** The elements passing `p`, in order. */
  function Keep<T>(p: T -> bool, s: seq<T>): (r: seq<T>)
    ensures |r| <= |s|
  {
    if s == [] then [] else if p(s[0]) then [s[0]] + Keep(p, s[1..]) else Keep(p, s[1..])
  }

  lemma {:induction false} KeepAppend<T>(p: T -> bool, a: seq<T>, b: seq<T>)
    ensures Keep(p, a + b) == Keep(p, a) + Keep(p, b)
  {
    if a == [] {
      assert a + b == b;
    } else {
      KeepAppend(p, a[1..], b);
      assert (a + b)[0] == a[0] && (a + b)[1..] == a[1..] + b;
    }
  }

  lemma {:induction false} KeepIn<T>(p: T -> bool, s: seq<T>)
    ensures forall x :: x in Keep(p, s) <==> x in s && p(x)
  {
    if s != [] {
      KeepIn(p, s[1..]);
      assert s == [s[0]] + s[1..];
    }
  }

  lemma {:induction false} KeepCount<T>(p: T -> bool, s: seq<T>, x: T)
    ensures multiset(Keep(p, s))[x] == if p(x) then multiset(s)[x] else 0
  {
    if s != [] {
      KeepCount(p, s[1..], x);
      assert s == [s[0]] + s[1..];
      if p(s[0]) { assert multiset(Keep(p, s)) == multiset{s[0]} + multiset(Keep(p, s[1..])); }
    }
  }

  lemma {:induction false} KeepSorted<T(!new)>(p: T -> bool, cmp: (T, T) -> int, s: seq<T>)
    requires Sorted(cmp, s)
    ensures Sorted(cmp, Keep(p, s))
  {
    if s != [] {
      SortedTail(cmp, s);
      KeepSorted(p, cmp, s[1..]);
      KeepIn(p, s[1..]);
      if p(s[0]) { SortedCons(cmp, s[0], Keep(p, s[1..])); }
    }
  }

  lemma {:induction false} KeepClass<T>(p: T -> bool, cmp: (T, T) -> int, k: T, s: seq<T>)
    ensures Class(cmp, k, Keep(p, s)) == Keep(p, Class(cmp, k, s))
  {
    if s != [] { KeepClass(p, cmp, k, s[1..]); }
  }

  /** Filtering commutes with sorting. */
  lemma {:induction false} FilterSortCommute<T(!new)>(p: T -> bool, cmp: (T, T) -> int, s: seq<T>)
    requires Consistent(cmp)
    ensures Keep(p, StableSorted(cmp, s)) == StableSorted(cmp, Keep(p, s))
  {
    hide Consistent, StableSorted;
    var t := StableSorted(cmp, s);
    StableSortedSorts(cmp, s);
    StableSortedSorts(cmp, Keep(p, s));
    KeepSorted(p, cmp, t);
    forall k ensures Class(cmp, k, Keep(p, t)) == Class(cmp, k, Keep(p, s)) {
      KeepClass(p, cmp, k, t);
      KeepClass(p, cmp, k, s);
      assert Class(cmp, k, t) == Class(cmp, k, s);
    }
    StableSortUnique(cmp, Keep(p, s), Keep(p, t), StableSorted(cmp, Keep(p, s)));
  }

  lemma {:induction false} FilterTwice<T>(p: T -> bool, q: T -> bool, both: T -> bool, s: seq<T>)
    requires forall x :: both(x) <==> p(x) && q(x)
    ensures Keep(q, Keep(p, s)) == Keep(both, s)
  {
    if s != [] { FilterTwice(p, q, both, s[1..]); }
  }

  /** `lex` asks `first` and lets `second` break its ties. */
  ghost predicate Lexicographic<T(!new)>(first: (T, T) -> int, second: (T, T) -> int, lex: (T, T) -> int) {
    forall a, b :: lex(a, b) == if first(a, b) != 0 then first(a, b) else second(a, b)
  }

  lemma {:induction false} ClassClass<T(!new)>(c1: (T, T) -> int, c2: (T, T) -> int, lex: (T, T) -> int, k: T,
          s: seq<T>)
    requires Lexicographic(c1, c2, lex)
    ensures Class(c2, k, Class(c1, k, s)) == Class(lex, k, s)
    ensures Class(c1, k, Class(c2, k, s)) == Class(lex, k, s)
  {
    if s != [] { ClassClass(c1, c2, lex, k, s[1..]); }
  }

  lemma {:induction false} ClassSorted<T(!new)>(cmp: (T, T) -> int, c1: (T, T) -> int, k: T, s: seq<T>)
    requires Sorted(cmp, s)
    ensures Sorted(cmp, Class(c1, k, s))
  {
    if s != [] {
      SortedTail(cmp, s);
      ClassSorted(cmp, c1, k, s[1..]);
      ClassIn(c1, k, s[1..]);
      if c1(s[0], k) == 0 { SortedCons(cmp, s[0], Class(c1, k, s[1..])); }
    }
  }

  /** Ties of a stable sort stay in the order they came in. */
  lemma {:induction false} TiesKeepOrder<T(!new)>(c1: (T, T) -> int, c2: (T, T) -> int, u: seq<T>, t: seq<T>, i: nat,
          j: nat)
    requires Consistent(c1) && Sorted(c2, u) && IsStableSort(c1, u, t)
    requires i < j < |t| && c1(t[i], t[j]) == 0
    ensures c2(t[i], t[j]) <= 0
  {
    var k := t[j];
    Flip(c1, k, k);
    ClassSorted(c2, c1, k, u);
    assert Class(c1, k, t) == Class(c1, k, u);
    var a, b := Class(c1, k, t[..j]), Class(c1, k, t[j..]);
    ClassAppend(c1, k, t[..j], t[j..]);
    assert t[..j] + t[j..] == t;
    ClassIn(c1, k, t[..j]);
    assert t[i] in t[..j] by { assert t[..j][i] == t[i]; }
    assert t[i] in a && b[0] == t[j];
    SortedParts(c2, a, b);
  }

  /** Sorting by the minor key and then by the major one is sorting by both. */
  lemma {:induction false} SortByMinorThenMajor<T(!new)>(c1: (T, T) -> int, c2: (T, T) -> int, lex: (T, T) -> int,
          s: seq<T>)
    requires Consistent(c1) && Consistent(c2) && Consistent(lex) && Lexicographic(c1, c2, lex)
    ensures StableSorted(c1, StableSorted(c2, s)) == StableSorted(lex, s)
  {
    hide Consistent, StableSorted;
    var u := StableSorted(c2, s);
    var t := StableSorted(c1, u);
    StableSortedSorts(c2, s);
    StableSortedSorts(c1, u);
    StableSortedSorts(lex, s);
    forall i, j | 0 <= i < j < |t| ensures lex(t[i], t[j]) <= 0 {
      assert c1(t[i], t[j]) <= 0;
      if c1(t[i], t[j]) == 0 { TiesKeepOrder(c1, c2, u, t, i, j); }
    }
    forall k ensures Class(lex, k, t) == Class(lex, k, s) {
      ClassClass(c1, c2, lex, k, t);
      ClassClass(c1, c2, lex, k, u);
      ClassClass(c1, c2, lex, k, s);
      assert Class(c1, k, t) == Class(c1, k, u) && Class(c2, k, u) == Class(c2, k, s);
    }
    StableSortUnique(lex, s, t, StableSorted(lex, s));
  }
}
