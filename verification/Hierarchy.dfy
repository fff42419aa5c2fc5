/** Parent chains as declared, cycles included, and the walk up a chain counted in steps. */
module Hierarchy {

  /** The parent of each class, -1 for none. */
  type Parents = seq<int>

  predicate InRange(ps: Parents) {
    forall c :: 0 <= c < |ps| ==> -1 <= ps[c] < |ps|
  }

  /** `k` parents up from a class, or -1. */
  function Up(ps: Parents, c: int, k: nat): (r: int)
    requires InRange(ps) && -1 <= c < |ps|
    ensures -1 <= r < |ps|
    decreases k
  {
    if c < 0 || k == 0 then c else Up(ps, ps[c], k - 1)
  }

  /** The chain comes to an end. */
  ghost predicate Rooted(ps: Parents, c: int)
    requires InRange(ps) && -1 <= c < |ps|
  {
    exists k: nat :: Up(ps, c, k) < 0
  }

  ghost predicate Reaches(ps: Parents, c: int, b: nat)
    requires InRange(ps) && -1 <= c < |ps|
  {
    exists k: nat :: Up(ps, c, k) == b
  }

  /** The class is its own ancestor. */
  ghost predicate Cyclic(ps: Parents, c: nat)
    requires InRange(ps) && c < |ps|
  {
    Reaches(ps, ps[c], c)
  }

  /** It is not, and its chain has no end either: the chain runs into a cycle further up. */
  ghost predicate Stuck(ps: Parents, c: nat)
    requires InRange(ps) && c < |ps|
  {
    !Rooted(ps, c) && !Cyclic(ps, c)
  }

  // ---------------------------------------------------------------- the walk

  datatype Answer = Running | Yes | No

  /** class_derives after `n` steps up. */
  function Walk(ps: Parents, sub: int, base: nat, n: nat): Answer
    requires InRange(ps) && -1 <= sub < |ps|
    decreases n
  {
    if sub < 0 then No
    else if sub == base then Yes
    else if n == 0 then Running
    else Walk(ps, ps[sub], base, n - 1)
  }

  /** After `k` steps the walk has met the class looked for, or the end. */
  predicate Met(ps: Parents, sub: int, base: nat, k: nat)
    requires InRange(ps) && -1 <= sub < |ps|
  {
    Up(ps, sub, k) < 0 || Up(ps, sub, k) == base
  }

  lemma {:induction false} UpOne(ps: Parents, c: int, k: nat)
    requires InRange(ps) && 0 <= c < |ps|
    ensures Up(ps, c, k + 1) == Up(ps, ps[c], k)
  {
  }

  /** `k` steps, then `j` more. */
  lemma {:induction false} UpAdd(ps: Parents, c: int, k: nat, j: nat)
    requires InRange(ps) && -1 <= c < |ps|
    ensures Up(ps, c, k + j) == Up(ps, Up(ps, c, k), j)
    decreases k
  {
    if c >= 0 && k > 0 { UpAdd(ps, ps[c], k - 1, j); }
  }

  /** Still running: neither was met. */
  lemma {:induction false} WalkRuns(ps: Parents, sub: int, base: nat, n: nat)
    requires InRange(ps) && -1 <= sub < |ps|
    ensures Walk(ps, sub, base, n) == Running <==> forall k: nat :: k <= n ==> !Met(ps, sub, base, k)
    decreases n
  {
    if sub < 0 || sub == base {
      assert Met(ps, sub, base, 0);
    } else if n > 0 {
      WalkRuns(ps, ps[sub], base, n - 1);
      forall k: nat | 0 < k ensures Met(ps, sub, base, k) == Met(ps, ps[sub], base, k - 1) { UpOne(ps, sub, k - 1); }
      if j: nat :| j <= n - 1 && Met(ps, ps[sub], base, j) {
        assert Met(ps, sub, base, j + 1);
      }
    }
  }

  /** The answer is yes only if the class looked for is up the chain, no only if the chain ends. */
  lemma {:induction false} WalkAnswers(ps: Parents, sub: int, base: nat, n: nat)
    requires InRange(ps) && -1 <= sub < |ps|
    ensures Walk(ps, sub, base, n) == Yes ==> Reaches(ps, sub, base)
    ensures Walk(ps, sub, base, n) == No ==> Rooted(ps, sub) && !Reaches(ps, sub, base)
    decreases n
  {
    if sub < 0 {
      assert Up(ps, sub, 0) < 0;
    } else if sub == base {
      assert Up(ps, sub, 0) == base;
    } else if n > 0 {
      WalkAnswers(ps, ps[sub], base, n - 1);
      if Reaches(ps, ps[sub], base) {
        var k: nat :| Up(ps, ps[sub], k) == base;
        UpOne(ps, sub, k);
      }
      if Rooted(ps, ps[sub]) {
        var k: nat :| Up(ps, ps[sub], k) < 0;
        UpOne(ps, sub, k);
      }
      if Reaches(ps, sub, base) {
        var k: nat :| Up(ps, sub, k) == base;
        UpOne(ps, sub, k - 1);
      }
    }
  }

  /** A class that is its own ancestor has a chain without end. */
  lemma {:induction false} CycleHasNoEnd(ps: Parents, c: nat, k: nat, n: nat)
    requires InRange(ps) && c < |ps| && k > 0 && Up(ps, c, k) == c
    ensures Up(ps, c, n) >= 0
    decreases n
  {
    if n < k {
      if Up(ps, c, n) < 0 { UpAdd(ps, c, n, k - n); }
    } else {
      UpAdd(ps, c, k, n - k);
      CycleHasNoEnd(ps, c, k, n - k);
    }
  }

  lemma {:induction false} CyclicIsNotRooted(ps: Parents, c: nat)
    requires InRange(ps) && c < |ps| && Cyclic(ps, c)
    ensures !Rooted(ps, c)
  {
    var k: nat :| Up(ps, ps[c], k) == c;
    UpOne(ps, c, k);
    forall n: nat ensures Up(ps, c, n) >= 0 { CycleHasNoEnd(ps, c, k + 1, n); }
  }

  lemma {:induction false} RootedUp(ps: Parents, c: nat)
    requires InRange(ps) && c < |ps|
    ensures Rooted(ps, c) <==> Rooted(ps, ps[c])
  {
    if Rooted(ps, c) {
      var k: nat :| Up(ps, c, k) < 0;
      UpOne(ps, c, k - 1);
    }
    if Rooted(ps, ps[c]) {
      var k: nat :| Up(ps, ps[c], k) < 0;
      UpOne(ps, c, k);
    }
  }

  /** The cycle test on a class: it says yes exactly if the class is its own ancestor, no exactly
      if its chain ends, and it does not come to an answer exactly if the class is stuck. */
  lemma {:induction false} CycleTest(ps: Parents, c: nat)
    requires InRange(ps) && c < |ps|
    ensures (exists n: nat :: Walk(ps, ps[c], c, n) == Yes) <==> Cyclic(ps, c)
    ensures (exists n: nat :: Walk(ps, ps[c], c, n) == No) <==> Rooted(ps, c)
    ensures (forall n: nat :: Walk(ps, ps[c], c, n) == Running) <==> Stuck(ps, c)
  {
    hide Walk, Reaches, Rooted;
    var p := ps[c];
    RootedUp(ps, c);
    forall n: nat { WalkAnswers(ps, p, c, n); }
    if Cyclic(ps, c) {
      CyclicIsNotRooted(ps, c);
      var n := StepsTo(ps, p, c);
    } else if Rooted(ps, c) {
      var n := StepsTo(ps, p, c);
    }
  }

  /** Steps enough for an answer, when there is one. */
  lemma {:induction false} StepsTo(ps: Parents, sub: int, base: nat) returns (n: nat)
    requires InRange(ps) && -1 <= sub < |ps| && (Rooted(ps, sub) || Reaches(ps, sub, base))
    ensures Walk(ps, sub, base, n) != Running
  {
    hide Walk;
    if Rooted(ps, sub) {
      var k: nat :| Up(ps, sub, k) < 0;
      n := k;
    } else {
      var k: nat :| Up(ps, sub, k) == base;
      n := k;
    }
    assert Met(ps, sub, base, n);
    WalkRuns(ps, sub, base, n);
  }

  // ---------------------------------------------------------------- enough steps

  /** More places than values: two places have the same value. */
  lemma {:induction false} Pigeons(s: seq<int>, n: nat) returns (i: nat, j: nat)
    requires |s| > n && forall k :: 0 <= k < |s| ==> 0 <= s[k] < n
    ensures i < j < |s| && s[i] == s[j]
    decreases n
  {
    var last := |s| - 1;
    if x :| 0 <= x < last && s[x] == s[last] {
      i, j := x, last;
    } else {
      var v := s[last];
      var t := seq(last, k requires 0 <= k < last => if s[k] > v then s[k] - 1 else s[k]);
      i, j := Pigeons(t, n - 1);
    }
  }

  /** A chain that returns somewhere goes on in the same way. */
  lemma {:induction false} Returns(ps: Parents, c: int, i: nat, j: nat, k: nat) returns (m: nat)
    requires InRange(ps) && -1 <= c < |ps| && i < j && Up(ps, c, i) == Up(ps, c, j)
    ensures m < j && Up(ps, c, m) == Up(ps, c, k)
    decreases k
  {
    if k < j {
      m := k;
    } else {
      UpAdd(ps, c, j, k - j);
      UpAdd(ps, c, i, k - j);
      m := Returns(ps, c, i, j, i + (k - j));
    }
  }

  /** A walk that has an answer at all has it after as many steps as there are classes. */
  lemma {:induction false} StepsSuffice(ps: Parents, sub: int, base: nat, n: nat)
    requires InRange(ps) && -1 <= sub < |ps| && Walk(ps, sub, base, |ps|) == Running
    ensures Walk(ps, sub, base, n) == Running
  {
    hide Walk, Up;
    WalkRuns(ps, sub, base, |ps|);
    WalkRuns(ps, sub, base, n);
    var s := seq(|ps| + 1, k requires 0 <= k <= |ps| => Up(ps, sub, k));
    forall k | 0 <= k < |s| ensures 0 <= s[k] < |ps| { assert !Met(ps, sub, base, k); }
    var i, j := Pigeons(s, |ps|);
    assert Up(ps, sub, i) == s[i] == s[j] == Up(ps, sub, j);
    forall k: nat | k <= n ensures !Met(ps, sub, base, k) {
      var m := Returns(ps, sub, i, j, k);
      assert !Met(ps, sub, base, m);
    }
  }

  /** So a rooted chain has ended after that many steps. */
  lemma {:induction false} RootedSoon(ps: Parents, c: int)
    requires InRange(ps) && -1 <= c < |ps| && Rooted(ps, c)
    ensures Up(ps, c, |ps|) < 0
  {
    hide Walk, Up;
    var n: nat :| Up(ps, c, n) < 0;
    assert Met(ps, c, |ps|, n);
    WalkRuns(ps, c, |ps|, n);
    if Walk(ps, c, |ps|, |ps|) == Running { StepsSuffice(ps, c, |ps|, n); }
    WalkRuns(ps, c, |ps|, |ps|);
    var k: nat :| k <= |ps| && Met(ps, c, |ps|, k);
    UpAdd(ps, c, k, |ps| - k);
    StaysOut(ps, |ps| - k);
  }

  lemma {:induction false} StaysOut(ps: Parents, k: nat)
    requires InRange(ps)
    ensures Up(ps, -1, k) == -1
  {
  }

  // ---------------------------------------------------------------- a chain that hangs

  /** A derives from B, B from C and C from B. */
  const HANGING: Parents := [1, 2, 1]

  /** Laid out first, A is asked whether it is among its ancestors, and the walk goes round B and C
      for ever: no number of steps ends it. */
  lemma {:induction false} WalkHangs(n: nat)
    ensures InRange(HANGING) && Stuck(HANGING, 0)
    ensures Walk(HANGING, 1, 0, n) == Running
  {
    forall k: nat ensures Walk(HANGING, 1, 0, k) == Running { RoundAndRound(1, k); }
    CycleTest(HANGING, 0);
    RoundAndRound(1, n);
  }

  lemma {:induction false} RoundAndRound(c: int, n: nat)
    requires c == 1 || c == 2
    ensures Walk(HANGING, c, 0, n) == Running
    decreases n
  {
    if n > 0 { RoundAndRound(HANGING[c], n - 1); }
  }

  // ---------------------------------------------------------------- heights

  /** Steps to the end of the chain, as far as `n` steps show. */
  function Height(ps: Parents, c: int, n: nat): nat
    requires InRange(ps) && -1 <= c < |ps|
    decreases n
  {
    if c < 0 || n == 0 then 0 else 1 + Height(ps, ps[c], n - 1)
  }

  lemma {:induction false} HeightEnds(ps: Parents, c: int, n: nat)
    requires InRange(ps) && -1 <= c < |ps| && Up(ps, c, n) < 0
    ensures Height(ps, c, n + 1) == Height(ps, c, n)
    decreases n
  {
    if c >= 0 { HeightEnds(ps, ps[c], n - 1); }
  }

  /** A rooted class is higher than its parent. */
  lemma {:induction false} HeightFalls(ps: Parents, c: nat)
    requires InRange(ps) && c < |ps| && Rooted(ps, c)
    ensures Height(ps, ps[c], |ps|) < Height(ps, c, |ps|)
  {
    hide Rooted;
    RootedSoon(ps, c);
    HeightEnds(ps, c, |ps|);
  }
}
