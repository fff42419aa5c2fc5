/** The runtime's byte-string search: find, count, replace, split and its partner join. */
module Strings {

  type Bytes = seq<nat>

  /** `p` stands at position `i` of `s`. */
  predicate At(s: Bytes, p: Bytes, i: int) {
    0 <= i && i + |p| <= |s| && s[i..i + |p|] == p
  }

  /** The first place of `p`, or -1. */
  function First(s: Bytes, p: Bytes): (k: int)
    ensures -1 <= k
    ensures k >= 0 ==> At(s, p, k)
    ensures k >= 0 ==> forall j :: 0 <= j < k ==> !At(s, p, j)
    ensures k < 0 ==> forall j :: !At(s, p, j)
  {
    if |p| > |s| then -1
    else if s[..|p|] == p then 0
    else if s == [] then -1
    else
      var r := First(s[1..], p);
      assert forall j :: 1 <= j ==> At(s, p, j) == At(s[1..], p, j - 1) by { AtTail(s, p); }
      if r < 0 then -1 else r + 1
  }

  lemma {:induction false} AtTail(s: Bytes, p: Bytes)
    requires s != []
    ensures forall j :: 1 <= j ==> At(s, p, j) == At(s[1..], p, j - 1)
  {
    forall j | 1 <= j ensures At(s, p, j) == At(s[1..], p, j - 1) {
      if j + |p| <= |s| { assert s[j..j + |p|] == s[1..][j - 1..j - 1 + |p|]; }
    }
  }

  // ---------------------------------------------------------------- what the operations compute

  /** Occurrences from left to right, none overlapping the one before. */
  function CountOf(s: Bytes, p: Bytes): nat
    requires p != []
  {
    if |s| < |p| then 0
    else if s[..|p|] == p then 1 + CountOf(s[|p|..], p)
    else CountOf(s[1..], p)
  }

  function Replaced(s: Bytes, p: Bytes, q: Bytes): Bytes
    requires p != []
    decreases |s|
  {
    if s == [] then []
    else if |p| <= |s| && s[..|p|] == p then q + Replaced(s[|p|..], p, q)
    else [s[0]] + Replaced(s[1..], p, q)
  }

  function Split(s: Bytes, p: Bytes): (r: seq<Bytes>)
    requires p != []
    ensures r != []
    decreases |s|
  {
    var k := First(s, p);
    if k < 0 then [s] else [s[..k]] + Split(s[k + |p|..], p)
  }

  function Join(pieces: seq<Bytes>, q: Bytes): Bytes {
    if pieces == [] then []
    else if |pieces| == 1 then pieces[0]
    else pieces[0] + q + Join(pieces[1..], q)
  }

  // ---------------------------------------------------------------- the laws

  lemma {:induction false} FirstTail(s: Bytes, p: Bytes)
    requires p != [] && s != [] && First(s, p) != 0
    ensures First(s[1..], p) == if First(s, p) < 0 then -1 else First(s, p) - 1
    ensures !(|p| <= |s| && s[..|p|] == p)
  {
    AtTail(s, p);
    assert !At(s, p, 0) by { assert First(s, p) < 0 || First(s, p) > 0; }
    var k, r := First(s, p), First(s[1..], p);
    if r >= 0 { assert At(s, p, r + 1); }
    if k > 0 { assert At(s[1..], p, k - 1); }
  }

  lemma {:induction false} ReplacedStep(s: Bytes, p: Bytes, q: Bytes)
    requires p != [] && s != []
    ensures |p| <= |s| && s[..|p|] == p ==>
      Replaced(s, p, q) == q + Replaced(s[|p|..], p, q) && CountOf(s, p) == 1 + CountOf(s[|p|..], p)
    ensures !(|p| <= |s| && s[..|p|] == p) ==>
      Replaced(s, p, q) == [s[0]] + Replaced(s[1..], p, q) && CountOf(s, p) == CountOf(s[1..], p)
  {
  }

  /** Replacing and counting jump from one occurrence to the next. */
  lemma {:induction false} NextHit(s: Bytes, p: Bytes, q: Bytes)
    requires p != []
    ensures First(s, p) < 0 ==> Replaced(s, p, q) == s && CountOf(s, p) == 0
    ensures First(s, p) >= 0 ==>
      var k := First(s, p);
      Replaced(s, p, q) == s[..k] + q + Replaced(s[k + |p|..], p, q) && CountOf(s, p) == 1 + CountOf(s[k + |p|..], p)
    decreases |s|
  {
    if s == [] {
    } else {
      hide First, Replaced, CountOf, At;
      ReplacedStep(s, p, q);
      var k := First(s, p);
      if k == 0 {
        FirstZero(s, p);
        assert s[..0] + q == q && s[0 + |p|..] == s[|p|..];
      } else {
        FirstTail(s, p);
        NextHit(s[1..], p, q);
        if k > 0 {
          FirstFits(s, p);
          Shift(s, k, |p|, q, Replaced(s[k + |p|..], p, q));
        } else {
          assert s == [s[0]] + s[1..];
        }
      }
    }
  }

  lemma {:induction false} FirstZero(s: Bytes, p: Bytes)
    requires First(s, p) == 0
    ensures |p| <= |s| && s[..|p|] == p
  {
    assert At(s, p, 0);
  }

  lemma {:induction false} FirstFits(s: Bytes, p: Bytes)
    requires First(s, p) >= 0
    ensures First(s, p) + |p| <= |s|
  {
    assert At(s, p, First(s, p));
  }

  lemma {:induction false} Shift(s: Bytes, k: nat, n: nat, q: Bytes, rest: Bytes)
    requires 0 < k && k + n <= |s|
    ensures s[1..][k - 1 + n..] == s[k + n..]
    ensures [s[0]] + (s[1..][..k - 1] + q + rest) == s[..k] + q + rest
  {
    assert [s[0]] + s[1..][..k - 1] == s[..k];
  }

  lemma {:induction false} SplitUnfold(s: Bytes, p: Bytes)
    requires p != []
    ensures First(s, p) < 0 ==> Split(s, p) == [s]
    ensures First(s, p) >= 0 ==> Split(s, p) == [s[..First(s, p)]] + Split(s[First(s, p) + |p|..], p)
  {
    hide First;
  }

  lemma {:induction false} JoinCons(x: Bytes, rest: seq<Bytes>, q: Bytes)
    requires rest != []
    ensures Join([x] + rest, q) == x + q + Join(rest, q)
  {
    assert ([x] + rest)[1..] == rest;
  }

  /** Splitting and joining with the separator gives the string back. */
  lemma {:induction false} SplitJoin(s: Bytes, p: Bytes)
    requires p != []
    ensures Join(Split(s, p), p) == s
    decreases |s|
  {
    hide First, Split;
    SplitUnfold(s, p);
    var k := First(s, p);
    if k >= 0 {
      var rest := s[k + |p|..];
      SplitJoin(rest, p);
      JoinCons(s[..k], Split(rest, p), p);
      assert s == s[..k] + s[k..k + |p|] + rest;
    }
  }

  /** Replacing is splitting at the old and joining with the new. */
  lemma {:induction false} ReplaceIsSplitJoin(s: Bytes, p: Bytes, q: Bytes)
    requires p != []
    ensures Replaced(s, p, q) == Join(Split(s, p), q)
    decreases |s|
  {
    hide First, Split, Replaced, CountOf;
    var k := First(s, p);
    NextHit(s, p, q);
    SplitUnfold(s, p);
    if k >= 0 {
      ReplaceIsSplitJoin(s[k + |p|..], p, q);
      JoinCons(s[..k], Split(s[k + |p|..], p), q);
    }
  }

  /** There is one piece more than there are occurrences. */
  lemma {:induction false} CountIsPieces(s: Bytes, p: Bytes)
    requires p != []
    ensures CountOf(s, p) + 1 == |Split(s, p)|
    decreases |s|
  {
    hide First, Split, CountOf, Replaced;
    NextHit(s, p, []);
    SplitUnfold(s, p);
    if First(s, p) >= 0 { CountIsPieces(s[First(s, p) + |p|..], p); }
  }

  /** No piece contains the separator. */
  lemma {:induction false} PiecesAreClean(s: Bytes, p: Bytes, i: nat)
    requires p != [] && i < |Split(s, p)|
    ensures forall j :: !At(Split(s, p)[i], p, j)
    decreases |s|
  {
    var k := First(s, p);
    if k >= 0 {
      if i > 0 {
        PiecesAreClean(s[k + |p|..], p, i - 1);
      } else {
        forall j ensures !At(s[..k], p, j) {
          if 0 <= j && j + |p| <= k { assert s[..k][j..j + |p|] == s[j..j + |p|] && !At(s, p, j); }
        }
      }
    }
  }

  lemma {:induction false} OneMore(c: int, d: int)
    ensures (c + 1) * d == c * d + d
  {
  }

  /** The length the replacement's buffer is given is the length that is written. */
  lemma {:induction false} ReplacedLength(s: Bytes, p: Bytes, q: Bytes)
    requires p != []
    ensures |Replaced(s, p, q)| == |s| + CountOf(s, p) * (|q| - |p|)
    decreases |s|
  {
    if s == [] {
    } else if |p| <= |s| && s[..|p|] == p {
      ReplacedLength(s[|p|..], p, q);
      OneMore(CountOf(s[|p|..], p), |q| - |p|);
    } else {
      ReplacedLength(s[1..], p, q);
      if |s| < |p| { assert CountOf(s[1..], p) == 0; }
    }
  }

  // ---------------------------------------------------------------- the runtime's loops

  /** str_find. */
  method Find(s: Bytes, p: Bytes, from: nat) returns (r: int)
    ensures r == if from > |s| || First(s[from..], p) < 0 then -1 else from + First(s[from..], p)
  {
    hide First;
    if |p| == 0 {
      if from > |s| { return -1; }
      assert At(s[from..], p, 0);
      return from;
    }
    if |p| > |s| || from > |s| { return -1; }
    var i := from;
    while i + |p| <= |s|
      invariant from <= i <= |s|
      invariant forall j :: 0 <= j < i - from ==> !At(s[from..], p, j)
    {
      assert i + |p| <= |s| ==> s[i..i + |p|] == s[from..][i - from..i - from + |p|];
      if s[i..i + |p|] == p {
        assert At(s[from..], p, i - from);
        return i;
      }
      i := i + 1;
    }
    return -1;
  }

  lemma {:induction false} SuffixStep(s: Bytes, i: nat, n: nat)
    requires i + n <= |s|
    ensures s[i..][..n] == s[i..i + n] && s[i..][n..] == s[i + n..]
  {
  }

  method Count(s: Bytes, p: Bytes) returns (n: nat)
    ensures n == if p == [] then 0 else CountOf(s, p)
  {
    if |p| == 0 { return 0; }
    n := 0;
    var i := 0;
    assert s[0..] == s;
    while i + |p| <= |s|
      invariant i <= |s| && n + CountOf(s[i..], p) == CountOf(s, p)
    {
      SuffixStep(s, i, |p|);
      SuffixStep(s, i, 1);
      if s[i..i + |p|] == p {
        n := n + 1;
        i := i + |p|;
      } else {
        i := i + 1;
      }
    }
  }

  /** Copy bytes into a buffer. */
  method Put(buf: array<nat>, at: nat, t: Bytes)
    requires at + |t| <= buf.Length
    modifies buf
    ensures forall x :: 0 <= x < buf.Length ==> buf[x] == if at <= x < at + |t| then t[x - at] else old(buf[x])
  {
    var i := 0;
    while i < |t|
      invariant i <= |t|
      invariant forall x :: 0 <= x < buf.Length ==> buf[x] == if at <= x < at + i then t[x - at] else old(buf[x])
    {
      buf[at + i] := t[i];
      i := i + 1;
    }
  }

  lemma {:induction false} Ahead(want: Bytes, di: nat, b: Bytes, rest: Bytes)
    requires di <= |want| && want[di..] == b + rest
    ensures di + |b| <= |want| && want[di + |b|..] == rest
    ensures forall x :: di <= x < di + |b| ==> want[x] == b[x - di]
  {
    assert |want[di..]| == |b| + |rest|;
    forall x | di <= x < di + |b| ensures want[x] == b[x - di] { assert want[x] == want[di..][x - di]; }
    assert want[di + |b|..] == want[di..][|b|..];
  }

  /** The replacement written into a buffer of the length it needs. */
  method Fill(s: Bytes, p: Bytes, q: Bytes, total: nat) returns (r: Bytes)
    requires p != [] && total == |Replaced(s, p, q)|
    ensures r == Replaced(s, p, q)
  {
    hide CountOf, Replaced, First, At;
    ghost var want := Replaced(s, p, q);
    var buf := new nat[total](_ => 0);
    var si: nat, di: nat := 0, 0;
    assert s[0..] == s && want[0..] == want;
    while si < |s|
      invariant si <= |s| && di <= total && want[di..] == Replaced(s[si..], p, q)
      invariant forall x :: 0 <= x < di ==> buf[x] == want[x]
    {
      ReplacedStep(s[si..], p, q);
      SuffixStep(s, si, 1);
      if si + |p| <= |s| { SuffixStep(s, si, |p|); }
      if si + |p| <= |s| && s[si..si + |p|] == p {
        Ahead(want, di, q, Replaced(s[si + |p|..], p, q));
        Put(buf, di, q);
        di := di + |q|;
        si := si + |p|;
      } else {
        Ahead(want, di, [s[si]], Replaced(s[si + 1..], p, q));
        Put(buf, di, [s[si]]);
        di, si := di + 1, si + 1;
      }
    }
    ReplacedNothing(s[si..], p, q);
    assert buf[..] == want;
    return buf[..];
  }

  /** The buffer is as long as the formula says and is filled to its end. */
  method Replace(s: Bytes, p: Bytes, q: Bytes) returns (r: Bytes)
    ensures r == if p == [] then s else Replaced(s, p, q)
    ensures p != [] ==> |r| == |s| + CountOf(s, p) * (|q| - |p|)
  {
    if |p| == 0 { return s; }
    var occ := Count(s, p);
    ReplacedLength(s, p, q);
    if occ == 0 {
      NextHit(s, p, q);
      NoHit(s, p);
      return s;
    }
    var total: nat := |s| + occ * (|q| - |p|);
    r := Fill(s, p, q, total);
  }

  lemma {:induction false} ReplacedNothing(s: Bytes, p: Bytes, q: Bytes)
    requires p != [] && s == []
    ensures Replaced(s, p, q) == []
  {
  }

  lemma {:induction false} NoHit(s: Bytes, p: Bytes)
    requires p != [] && CountOf(s, p) == 0
    ensures First(s, p) < 0
  {
    NextHit(s, p, []);
  }

  lemma {:induction false} Grouped(a: Bytes, b: Bytes, c: Bytes)
    ensures a + (b + c) == a + b + c
  {
  }

  method SplitLoop(s: Bytes, p: Bytes) returns (pieces: seq<Bytes>)
    ensures pieces == if p == [] then [s] else Split(s, p)
  {
    hide First, Split;
    if |p| == 0 { return [s]; }
    pieces := [];
    var start := 0;
    assert s[0..] == s;
    while true
      invariant start <= |s| && pieces + Split(s[start..], p) == Split(s, p)
      decreases |s| - start
    {
      var hit := Find(s, p, start);
      var stop := if hit < 0 then |s| else hit;
      SplitUnfold(s[start..], p);
      SuffixStep(s, start, stop - start);
      if hit < 0 { assert s[start..stop] == s[start..]; } else { SuffixStep(s, start, hit - start + |p|); }
      ghost var done := pieces;
      pieces := pieces + [s[start..stop]];
      if hit < 0 { return; }
      GroupedPieces(done, [s[start..stop]], Split(s[hit + |p|..], p));
      start := hit + |p|;
    }
  }

  lemma {:induction false} GroupedPieces(a: seq<Bytes>, b: seq<Bytes>, c: seq<Bytes>)
    ensures a + (b + c) == a + b + c
  {
  }

  function TotalLength(pieces: seq<Bytes>): nat {
    if pieces == [] then 0 else TotalLength(pieces[..|pieces| - 1]) + |pieces[|pieces| - 1]|
  }

  lemma {:induction false} JoinSnoc(pieces: seq<Bytes>, q: Bytes, x: Bytes)
    requires pieces != []
    ensures Join(pieces + [x], q) == Join(pieces, q) + q + x
  {
    assert (pieces + [x])[0] == pieces[0] && (pieces + [x])[1..] == pieces[1..] + [x];
    if |pieces| > 1 {
      JoinSnoc(pieces[1..], q, x);
      Grouped(pieces[0] + q, Join(pieces[1..], q), q);
      Grouped(pieces[0] + q, Join(pieces[1..], q) + q, x);
    } else {
      assert pieces[1..] + [x] == [x];
    }
  }

  lemma {:induction false} JoinLength(pieces: seq<Bytes>, q: Bytes)
    requires pieces != []
    ensures |Join(pieces, q)| == |q| * (|pieces| - 1) + TotalLength(pieces)
    decreases |pieces|
  {
    var n := |pieces| - 1;
    if n > 0 {
      JoinLength(pieces[..n], q);
      assert pieces == pieces[..n] + [pieces[n]];
      JoinSnoc(pieces[..n], q, pieces[n]);
      assert |q| * n == |q| * (n - 1) + |q|;
    } else {
      assert TotalLength(pieces[..0]) == 0;
    }
  }

  lemma {:induction false} JoinPrefix(pieces: seq<Bytes>, q: Bytes, i: nat)
    requires 0 < i <= |pieces|
    ensures Join(pieces[..i], q) <= Join(pieces, q)
    decreases |pieces| - i
  {
    if i < |pieces| {
      JoinPrefix(pieces, q, i + 1);
      assert pieces[..i + 1] == pieces[..i] + [pieces[i]];
      JoinSnoc(pieces[..i], q, pieces[i]);
    } else {
      assert pieces[..i] == pieces;
    }
  }

  /** The separator and the piece the loop writes next are what the result has there. */
  lemma {:induction false} JoinAhead(pieces: seq<Bytes>, q: Bytes, i: nat)
    requires i < |pieces|
    ensures var want := Join(pieces, q);
            var d := if i == 0 then 0 else |Join(pieces[..i], q)|;
            var a, b := if i == 0 then [] else q, pieces[i];
      && d + |a| + |b| <= |want| && |Join(pieces[..i + 1], q)| == d + |a| + |b|
      && (forall x :: d <= x < d + |a| ==> want[x] == a[x - d])
      && (forall x :: d + |a| <= x < d + |a| + |b| ==> want[x] == b[x - d - |a|])
  {
    hide Join;
    var t := Join(pieces[..i + 1], q);
    JoinPrefix(pieces, q, i + 1);
    JoinNext(pieces, q, i);
    assert forall x :: 0 <= x < |t| ==> t[x] == Join(pieces, q)[x];
  }

  /** join: the buffer's length is computed first, then filled exactly. */
  method JoinLoop(pieces: seq<Bytes>, q: Bytes) returns (r: Bytes)
    ensures r == Join(pieces, q)
  {
    if |pieces| == 0 { return []; }
    var total := |q| * (|pieces| - 1);
    var i := 0;
    while i < |pieces|
      invariant i <= |pieces| && total == |q| * (|pieces| - 1) + TotalLength(pieces[..i])
    {
      assert pieces[..i + 1][..i] == pieces[..i];
      total := total + |pieces[i]|;
      i := i + 1;
    }
    assert pieces[..i] == pieces;
    JoinLength(pieces, q);
    hide TotalLength, Join;
    ghost var want := Join(pieces, q);
    var buf := new nat[total](_ => 0);
    var di: nat := 0;
    i := 0;
    while i < |pieces|
      invariant i <= |pieces| && di == (if i == 0 then 0 else |Join(pieces[..i], q)|) && di <= total == |want|
      invariant forall x :: 0 <= x < di ==> buf[x] == want[x]
    {
      JoinAhead(pieces, q, i);
      if i > 0 && |q| > 0 {
        Put(buf, di, q);
        di := di + |q|;
      }
      Put(buf, di, pieces[i]);
      di := di + |pieces[i]|;
      i := i + 1;
    }
    assert pieces[..i] == pieces;
    assert buf[..] == want;
    return buf[..];
  }

  lemma {:induction false} JoinNext(pieces: seq<Bytes>, q: Bytes, i: nat)
    requires i < |pieces|
    ensures Join(pieces[..i + 1], q) == if i == 0 then pieces[0] else Join(pieces[..i], q) + q + pieces[i]
  {
    assert pieces[..i + 1] == pieces[..i] + [pieces[i]];
    if i > 0 { JoinSnoc(pieces[..i], q, pieces[i]); }
  }
}
