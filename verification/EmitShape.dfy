/** What emitting a statement does to the emitter's own state: pending temporaries return to
    the watermark, outer scopes keep their names, only the innermost scope gains names, and
    those are the statement's own binders; label requests are never withdrawn. */
module EmitShape {
  import opened Basics
  import opened VytoLang
  import opened CTarget
  import opened EmitSpec
  import opened EmitExpr

  /** Same stack of scopes; a label may have been asked for meanwhile. */
  ghost predicate Kept(a: seq<Scope>, b: seq<Scope>) {
    && |a| == |b|
    && forall i :: 0 <= i < |a| ==>
         && b[i].names == a[i].names && b[i].isLoop == a[i].isLoop && b[i].isSwitch == a[i].isSwitch
         && b[i].loopId == a[i].loopId && (a[i].needsLabel ==> b[i].needsLabel)
  }

  ghost predicate BinderIn(x: Name, n: nat, n1: nat) {
    x.L? && n <= x.n < n1
  }

  /** `names` extended by distinct binders numbered n..n1. */
  ghost predicate Extends(names: seq<Name>, names1: seq<Name>, n: nat, n1: nat) {
    && names <= names1
    && (forall i :: |names| <= i < |names1| ==> BinderIn(names1[i], n, n1))
    && (forall i, j :: |names| <= i < j < |names1| ==> names1[i].n < names1[j].n)
  }

  ghost predicate Evolves(cx: Cx, cx1: Cx, n: nat, n1: nat) {
    && cx.scopes != [] && cx1.scopes != []
    && cx1.temps == cx.temps && cx.tempc <= cx1.tempc && cx.loopc <= cx1.loopc && n <= n1
    && Kept([cx.scopes[0].(names := cx1.scopes[0].names)] + cx.scopes[1..], cx1.scopes)
    && Extends(cx.scopes[0].names, cx1.scopes[0].names, n, n1)
  }

  lemma {:induction false} EvolvesTrans(a: Cx, b: Cx, c: Cx, n: nat, n1: nat, n2: nat)
    requires Evolves(a, b, n, n1) && Evolves(b, c, n1, n2)
    ensures Evolves(a, c, n, n2)
  {
    var x, y, z := a.scopes[0].names, b.scopes[0].names, c.scopes[0].names;
    forall i | |x| <= i < |z|
      ensures BinderIn(z[i], n, n2)
      ensures i < |y| ==> z[i].n < n1
      ensures i >= |y| ==> z[i].n >= n1
    {
      if i < |y| { assert z[i] == y[i]; }
    }
    forall i, j | |x| <= i < j < |z| ensures z[i].n < z[j].n {
      if j < |y| { assert z[i] == y[i] && z[j] == y[j]; }
    }
  }

  /** Counters may grow without anything else happening. */
  lemma {:induction false} EvolvesSame(cx: Cx, cx1: Cx, n: nat, n1: nat)
    requires cx.scopes != [] && cx1.scopes == cx.scopes && cx1.temps == cx.temps
    requires cx.tempc <= cx1.tempc && cx.loopc <= cx1.loopc && n <= n1
    ensures Evolves(cx, cx1, n, n1)
  {
  }

  lemma {:induction false} EvolvesReg(cx: Cx, n: nat, n1: nat)
    requires cx.scopes != [] && n < n1
    ensures Evolves(cx, Reg(cx, L(n)), n, n1)
  {
  }

  /** A scope pushed and popped again leaves no trace on the outer ones. */
  lemma {:induction false} EvolvesPop(cx: Cx, s: Scope, cx0: Cx, cx1: Cx, n: nat, n1: nat)
    requires cx.scopes != [] && cx0.scopes == [s] + cx.scopes && cx0.temps == cx.temps
    requires cx.tempc <= cx0.tempc && cx.loopc <= cx0.loopc
    requires Evolves(cx0, cx1, n, n1)
    ensures |cx1.scopes| == |cx.scopes| + 1 && Quiet(cx, Pop(cx1))
  {
    var a := [cx0.scopes[0].(names := cx1.scopes[0].names)] + cx0.scopes[1..];
    assert Kept(a, cx1.scopes);
    forall i | 0 <= i < |cx.scopes|
      ensures Pop(cx1).scopes[i] == cx1.scopes[i + 1] && cx.scopes[i] == a[i + 1]
    {
    }
  }

  lemma {:induction false} EvolvesMark(cx: Cx, n: nat)
    requires cx.scopes != []
    ensures Evolves(cx, cx.(scopes := Mark(cx.scopes)), n, n)
  {
    MarkKept(cx.scopes);
  }

  lemma {:induction false} MarkKept(scopes: seq<Scope>)
    ensures Kept(scopes, Mark(scopes))
    ensures HasLoop(scopes) ==> HasLoop(Mark(scopes)) && LoopOf(Mark(scopes)).needsLabel
  {
    if scopes != [] && !scopes[0].isLoop {
      MarkKept(scopes[1..]);
      var m := Mark(scopes);
      assert m[1..] == Mark(scopes[1..]);
      forall i | 0 < i < |scopes|
        ensures m[i] == Mark(scopes[1..])[i - 1] && scopes[i] == scopes[1..][i - 1]
      {
      }
    }
  }

  /** Jumps read only what `Kept` preserves. */
  ghost function Below(scopes: seq<Scope>): seq<Scope> {
    if scopes == [] then [] else if scopes[0].isLoop then scopes[1..] else Below(scopes[1..])
  }

  lemma {:induction false} KeptFacts(a: seq<Scope>, b: seq<Scope>)
    requires Kept(a, b)
    ensures HasLoop(a) == HasLoop(b) && Crossed(a) == Crossed(b) && Flat(a) == Flat(b)
    ensures JumpNames(a) == JumpNames(b) && Flat(Below(a)) == Flat(Below(b))
    ensures HasLoop(a) ==> LoopOf(a).loopId == LoopOf(b).loopId && (LoopOf(a).needsLabel ==> LoopOf(b).needsLabel)
  {
    if a != [] {
      assert Kept(a[1..], b[1..]);
      KeptFacts(a[1..], b[1..]);
    }
  }

  lemma {:induction false} EvolvesFacts(cx: Cx, cx1: Cx, n: nat, n1: nat)
    requires Evolves(cx, cx1, n, n1)
    ensures HasLoop(cx.scopes) == HasLoop(cx1.scopes) && Crossed(cx.scopes) == Crossed(cx1.scopes)
    ensures Flat(cx1.scopes) == cx1.scopes[0].names + Flat(cx.scopes[1..])
    ensures forall x :: x in JumpNames(cx1.scopes) ==> x in JumpNames(cx.scopes) || BinderIn(x, n, n1)
    ensures HasLoop(cx.scopes) ==>
      && Flat(Below(cx.scopes)) == Flat(Below(cx1.scopes))
      && LoopOf(cx.scopes).loopId == LoopOf(cx1.scopes).loopId
      && (LoopOf(cx.scopes).needsLabel ==> LoopOf(cx1.scopes).needsLabel)
  {
    var a := [cx.scopes[0].(names := cx1.scopes[0].names)] + cx.scopes[1..];
    assert a[1..] == cx.scopes[1..];
    KeptFacts(a, cx1.scopes);
    var x, y := cx.scopes[0].names, cx1.scopes[0].names;
    assert y == x + y[|x|..];
  }

  // ---------------------------------------------------------------- a sane state

  ghost predicate NameOk(x: Name, n: nat, tempc: nat) {
    (x.L? && x.n < n) || (x.T? && x.n < tempc)
  }

  ghost predicate TempsOk(temps: seq<Name>, tempc: nat) {
    && (forall i :: 0 <= i < |temps| ==> SpillIn(temps[i], 0, tempc))
    && (forall i, j :: 0 <= i < j < |temps| ==> temps[i].n < temps[j].n)
  }

  ghost predicate LoopsOk(scopes: seq<Scope>, loopc: nat) {
    forall i :: 0 <= i < |scopes| ==> scopes[i].isLoop ==> scopes[i].loopId <= loopc
  }

  /** Owned names are distinct and numbered below the counters. */
  ghost predicate CxOk(cx: Cx, n: nat) {
    && cx.scopes != []
    && TempsOk(cx.temps, cx.tempc)
    && (forall x :: x in Flat(cx.scopes) ==> NameOk(x, n, cx.tempc))
    && Distinct(Flat(cx.scopes))
    && LoopsOk(cx.scopes, cx.loopc)
  }

  /** Distinct names stay distinct when fresh ones are put in between. */
  lemma {:induction false} DistinctInsert(x: seq<Name>, m: seq<Name>, r: seq<Name>)
    requires Distinct(x + r) && Distinct(m)
    requires forall y :: y in m ==> y !in x + r
    ensures Distinct(x + m + r)
  {
    var f, f1 := x + r, x + m + r;
    forall i, j | 0 <= i < j < |f1| ensures f1[i] != f1[j] {
      var p := if i < |x| then i else i - |m|;
      var q := if j < |x| then j else j - |m|;
      if |x| <= i < |x| + |m| {
        assert f1[i] == m[i - |x|];
        if j < |x| + |m| { assert f1[j] == m[j - |x|]; } else { assert f1[j] == f[q] && f[q] in f; }
      } else {
        assert f1[i] == f[p] && f[p] in f;
        if |x| <= j < |x| + |m| { assert f1[j] == m[j - |x|]; } else { assert f1[j] == f[q]; }
      }
    }
  }

  lemma {:induction false} CxOkEvolves(cx: Cx, cx1: Cx, n: nat, n1: nat)
    requires CxOk(cx, n) && Evolves(cx, cx1, n, n1)
    ensures CxOk(cx1, n1)
  {
    EvolvesFacts(cx, cx1, n, n1);
    var x, r := cx.scopes[0].names, Flat(cx.scopes[1..]);
    var m := cx1.scopes[0].names[|x|..];
    assert cx1.scopes[0].names == x + m;
    assert forall i :: 0 <= i < |m| ==> m[i] == cx1.scopes[0].names[|x| + i];
    forall y | y in m ensures BinderIn(y, n, n1) && y !in x + r {
      assert y in x + r ==> NameOk(y, n, cx.tempc);
    }
    DistinctInsert(x, m, r);
    assert x + m + r == cx1.scopes[0].names + r;
    forall y | y in x + m + r ensures NameOk(y, n1, cx1.tempc) {
      if y !in m { assert y in x + r; }
    }
    LoopsKept([cx.scopes[0].(names := cx1.scopes[0].names)] + cx.scopes[1..], cx1.scopes, cx.loopc, cx1.loopc);
  }

  lemma {:induction false} LoopsKept(a: seq<Scope>, b: seq<Scope>, l: nat, l1: nat)
    requires Kept(a, b) && LoopsOk(a, l) && l <= l1
    ensures LoopsOk(b, l1)
  {
  }

  lemma {:induction false} CxOkPush(cx: Cx, n: nat, s: Scope)
    requires CxOk(cx, n) && s.names == [] && (s.isLoop ==> s.loopId <= cx.loopc)
    ensures CxOk(Push(cx, s), n) && Flat(Push(cx, s).scopes) == Flat(cx.scopes)
  {
    assert Push(cx, s).scopes[1..] == cx.scopes;
  }

  lemma {:induction false} CxOkReg(cx: Cx, n: nat, x: Name, n1: nat, tempc: nat)
    requires CxOk(cx, n) && x !in Flat(cx.scopes) && NameOk(x, n1, tempc)
    requires n <= n1 && cx.tempc <= tempc
    ensures CxOk(Reg(cx, x).(tempc := tempc), n1)
    ensures Flat(Reg(cx, x).scopes) == cx.scopes[0].names + [x] + Flat(cx.scopes[1..])
  {
    var a, r := cx.scopes[0].names, Flat(cx.scopes[1..]);
    assert Reg(cx, x).scopes[1..] == cx.scopes[1..];
    var f, f1 := a + r, a + [x] + r;
    assert forall i :: 0 <= i < |a| ==> f1[i] == f[i];
    assert forall i :: |a| < i < |f1| ==> f1[i] == f[i - 1];
    assert forall y :: y in f ==> y != x;
    forall y | y in f1 ensures NameOk(y, n1, tempc) {
      if y != x { assert y in f; }
    }
  }

  // ---------------------------------------------------------------- labels

  /** Labels standing directly in a list are numbered lo+1..hi. */
  ghost predicate LabelsIn(cs: seq<CStmt>, lo: nat, hi: nat) {
    forall i :: 0 <= i < |cs| && cs[i].CLabel? ==> lo < cs[i].l <= hi
  }

  ghost predicate NoLabels(cs: seq<CStmt>) {
    forall i :: 0 <= i < |cs| ==> !cs[i].CLabel?
  }

  lemma {:induction false} RelNoLabels(names: seq<Name>)
    ensures NoLabels(RelCode(names))
    ensures forall i :: 0 <= i < |names| ==> RelCode(names)[i] == CReleaseNull(names[|names| - 1 - i])
  {
    if names != [] { RelNoLabels(names[1..]); }
  }

  lemma {:induction false} JumpNoLabels(scopes: seq<Scope>)
    ensures NoLabels(JumpCode(scopes)) && NoLabels(ReturnCode(scopes))
  {
    if scopes != [] {
      RelNoLabels(scopes[0].names);
      JumpNoLabels(scopes[1..]);
    }
  }

  // ---------------------------------------------------------------- statements

  /** What emitting leaves behind, and where its labels are numbered. */
  ghost predicate Shaped(code: seq<CStmt>, cx: Cx, cx1: Cx, n: nat, n1: nat) {
    Evolves(cx, cx1, n, n1) && LabelsIn(code, cx.loopc, cx1.loopc)
  }

  lemma {:induction false} ScopeShape(ss: seq<Stmt>, rt: RetType, cx: Cx, vis: View, n: nat, inLoop: bool)
    requires GoodAll(ss, vis, n, inLoop, rt) && cx.scopes != []
    ensures var (code, cx1) := EmitScope(ss, rt, cx);
            LabelsIn(code, cx.loopc, cx1.loopc) && cx1.scopes != [] && Quiet(cx, cx1)
    decreases ss, 1
  {
    var cx0 := Push(cx, PLAIN);
    AllShape(ss, rt, cx0, vis, n, inLoop);
    var (code, cx1) := EmitAll(ss, rt, cx0);
    EvolvesPop(cx, PLAIN, cx0, cx1, n, NextNames(ss, n));
    RelNoLabels(cx1.scopes[0].names);
  }

  lemma {:induction false} AllShape(ss: seq<Stmt>, rt: RetType, cx: Cx, vis: View, n: nat, inLoop: bool)
    requires GoodAll(ss, vis, n, inLoop, rt) && cx.scopes != []
    ensures var (code, cx1) := EmitAll(ss, rt, cx); Shaped(code, cx, cx1, n, NextNames(ss, n))
    decreases ss, 0
  {
    if ss == [] {
      EvolvesSame(cx, cx, n, n);
    } else {
      var (a, cx1) := EmitS(ss[0], rt, cx);
      var n1 := NextName(ss[0], n);
      StmtShape(ss[0], rt, cx, vis, n, inLoop);
      AllShape(ss[1..], rt, cx1, ViewAfter(ss[0], vis), n1, inLoop);
      EvolvesTrans(cx, cx1, EmitAll(ss[1..], rt, cx1).1, n, n1, NextNames(ss, n));
    }
  }

  lemma {:induction false} ArmsShape(arms: seq<Arm>, isStr: bool, rt: RetType, cx: Cx, vis: View, n: nat, inLoop: bool)
    requires GoodArms(arms, vis, n, inLoop, rt) && cx.scopes != []
    ensures var cx1 := EmitArms(arms, isStr, rt, cx).1;
            cx1.scopes != [] && Quiet(cx, cx1)
    decreases arms, 0
  {
    if arms != [] {
      var cx1 := if isStr && arms[0].isDefault then cx else EmitScope(arms[0].body, rt, cx).1;
      if !(isStr && arms[0].isDefault) {
        ScopeShape(arms[0].body, rt, cx, vis, n, inLoop);
      }
      ArmsShape(arms[1..], isStr, rt, cx1, vis, NextNames(arms[0].body, n), inLoop);
    }
  }

  /** Where arm `d`'s names start. */
  function ArmStart(arms: seq<Arm>, d: nat, n: nat): nat
    requires d <= |arms|
  {
    if d == 0 then n else ArmStart(arms[1..], d - 1, NextNames(arms[0].body, n))
  }

  lemma {:induction false} GoodArmAt(arms: seq<Arm>, d: nat, vis: View, n: nat, inLoop: bool, rt: RetType)
    requires GoodArms(arms, vis, n, inLoop, rt) && d < |arms|
    ensures GoodAll(arms[d].body, vis, ArmStart(arms, d, n), inLoop, rt)
    ensures n <= ArmStart(arms, d, n) <= NextNames(arms[d].body, ArmStart(arms, d, n)) <= NextNamesArms(arms, n)
  {
    if d > 0 { GoodArmAt(arms[1..], d - 1, vis, NextNames(arms[0].body, n), inLoop, rt); }
  }

  /** No scope gains a name. */
  ghost predicate Quiet(cx: Cx, cx1: Cx)
    requires cx.scopes != [] && cx1.scopes != []
  {
    && cx1.temps == cx.temps && cx.tempc <= cx1.tempc && cx.loopc <= cx1.loopc
    && Kept(cx.scopes, cx1.scopes)
  }

  lemma {:induction false} QuietEvolves(cx: Cx, cx1: Cx, n: nat, n1: nat)
    requires cx.scopes != [] && cx1.scopes != [] && n <= n1
    ensures Quiet(cx, cx1) ==> Evolves(cx, cx1, n, n1)
    ensures Evolves(cx, cx1, n, n1) && cx1.scopes[0].names == cx.scopes[0].names ==> Quiet(cx, cx1)
  {
    assert [cx.scopes[0].(names := cx.scopes[0].names)] + cx.scopes[1..] == cx.scopes;
  }

  /** A statement that only evaluates expressions and flushes. */
  lemma {:induction false} FlushShape(cx: Cx, cx1: Cx)
    requires cx.scopes != [] && Grown(cx, cx1) && cx1.scopes == cx.scopes && cx1.loopc == cx.loopc
    ensures var (fl, cx2) := Flush(cx1, |cx.temps|);
            NoLabels(fl) && cx2 == cx1.(temps := cx.temps) && Quiet(cx, cx2)
  {
    RelNoLabels(Fresh(cx, cx1));
  }

  lemma {:induction false} GrownT(cx: Cx, cx1: Cx)
    requires Grown(NextT(cx), cx1)
    ensures Grown(cx, cx1) && Fresh(cx, cx1) == Fresh(NextT(cx), cx1)
  {
    FreshJoin(cx, NextT(cx), cx1);
  }

  lemma {:induction false} ExForGrown(e: Expr, ref: bool, cx: Cx)
    ensures Grown(cx, ExFor(e, ref, cx).1)
    ensures Grown(cx, ExO(e, cx).1)
  {
    ExGrown(e, cx);
    ExBGrown(e, cx);
  }

  lemma {:induction false} PairBGrown(l: Expr, r: Expr, cx: Cx)
    ensures Grown(cx, ExB(r, ExB(l, cx).1).1)
  {
    ExBGrown(l, cx);
    ExBGrown(r, ExB(l, cx).1);
    FreshJoin(cx, ExB(l, cx).1, ExB(r, ExB(l, cx).1).1);
  }

  // One lemma per emitting function: nothing stays pending, no scope gains a name, and no
  // label stands directly in the code.

  ghost predicate Calm(r: (seq<CStmt>, Cx), cx: Cx)
    requires cx.scopes != []
  {
    NoLabels(r.0) && r.1.scopes != [] && Quiet(cx, r.1)
  }

  lemma {:induction false} AssignShape(x: nat, ref: bool, rhs: Expr, cx: Cx)
    requires cx.scopes != []
    ensures Calm(EmitAssign(x, ref, rhs, cx), cx)
  {
    var cx0 := if ref then NextT(cx) else cx;
    ExForGrown(rhs, ref, cx0);
    if ref { GrownT(cx, ExFor(rhs, ref, cx0).1); }
    FlushShape(cx, ExFor(rhs, ref, cx0).1);
  }

  lemma {:induction false} EvalShape(e: Expr, cx: Cx)
    requires cx.scopes != []
    ensures Calm(EmitEval(e, cx), cx) && Calm(EmitPanic(e, cx), cx)
  {
    ExBGrown(e, cx);
    FlushShape(cx, ExB(e, cx).1);
  }

  lemma {:induction false} SetStrongShape(obj: Expr, fld: int, rhs: Expr, cx: Cx)
    requires cx.scopes != []
    ensures Calm(EmitSetStrong(obj, fld, rhs, cx), cx)
  {
    var cxa := ExB(obj, NextT(cx)).1;
    ExBGrown(obj, NextT(cx));
    GrownT(cx, cxa);
    ExForGrown(rhs, true, NextT(cxa));
    var cxc := ExO(rhs, NextT(cxa)).1;
    GrownT(cxa, cxc);
    FreshJoin(cx, cxa, cxc);
    FlushShape(cx, cxc);
  }

  lemma {:induction false} SetPlainShape(obj: Expr, fld: int, rhs: Expr, cx: Cx)
    requires cx.scopes != []
    ensures Calm(EmitSetPlain(obj, fld, rhs, cx), cx)
  {
    PairBGrown(obj, rhs, NextT(cx));
    var cxc := ExB(rhs, ExB(obj, NextT(cx)).1).1;
    GrownT(cx, cxc);
    FlushShape(cx, cxc);
  }

  lemma {:induction false} SetElemShape(arr: Expr, idx: Expr, ref: bool, rhs: Expr, cx: Cx)
    requires cx.scopes != []
    ensures Calm(EmitSetElem(arr, idx, ref, rhs, cx), cx)
  {
    var cx0 := NextT(NextT(NextT(cx)));
    PairBGrown(arr, idx, cx0);
    var cxb := ExB(idx, ExB(arr, cx0).1).1;
    ExBGrown(rhs, cxb);
    var cxc := ExB(rhs, cxb).1;
    FreshJoin(cx0, cxb, cxc);
    GrownT(NextT(NextT(cx)), cxc);
    GrownT(NextT(cx), cxc);
    GrownT(cx, cxc);
    FlushShape(cx, cxc);
  }

  lemma {:induction false} ReturnShape(ret: Option<Expr>, rt: RetType, cx: Cx)
    requires cx.scopes != []
    ensures Calm(EmitReturn(ret, rt, cx), cx)
  {
    RelNoLabels(cx.temps);
    JumpNoLabels(cx.scopes);
    if ret.Some? && rt.Some? {
      ExForGrown(ret.value, rt.value, NextT(cx));
      var cxc := ExFor(ret.value, rt.value, NextT(cx)).1;
      GrownT(cx, cxc);
      FlushShape(cx, cxc);
    }
  }

  lemma {:induction false} CondShape(cond: Expr, cx: Cx)
    requires cx.scopes != []
    ensures Calm(EmitCond(cond, cx), cx) && EmitCond(cond, cx).1.loopc == cx.loopc
    ensures cx.tempc < EmitCond(cond, cx).1.tempc
  {
    ExBGrown(cond, NextT(cx));
    var cxc := ExB(cond, NextT(cx)).1;
    GrownT(cx, cxc);
    FlushShape(cx, cxc);
  }

  lemma {:induction false} LetShape(x: nat, ref: bool, init: Expr, cx: Cx)
    requires cx.scopes != []
    ensures Shaped(EmitLet(x, ref, init, cx).0, cx, EmitLet(x, ref, init, cx).1, x, x + 1)
  {
    ExForGrown(init, ref, cx);
    var cx0 := ExFor(init, ref, cx).1;
    FlushShape(cx, cx0);
    var cx1 := cx0.(temps := cx.temps);
    QuietEvolves(cx, cx1, x, x);
    QuietEvolves(cx, cx1, x, x + 1);
    EvolvesReg(cx1, x, x + 1);
    EvolvesTrans(cx, cx1, Reg(cx1, L(x)), x, x, x + 1);
  }

  lemma {:induction false} HeaderShape(x: nat, iter: Iter, cx: Cx, vis: View, n: nat)
    requires GoodIter(x, iter, vis, n) && cx.scopes != []
    ensures var h := EmitHeader(x, iter, cx);
      && Evolves(cx, h.cx.(temps := cx.temps), n, x) && h.cx.scopes != []
      && NoLabels(h.code) && cx.temps <= h.cx.temps && Grown(cx, h.cx)
      && (!iter.Each? ==> h.cx.temps == cx.temps)
  {
    var h := EmitHeader(x, iter, cx);
    match iter
    case Range(lo, hi) =>
      var cx0 := NextT(NextT(cx));
      PairBGrown(lo, hi, cx0);
      var cxb := ExB(hi, ExB(lo, cx0).1).1;
      GrownT(NextT(cx), cxb);
      GrownT(cx, cxb);
      FlushShape(cx, cxb);
      QuietEvolves(cx, h.cx, n, x);
    case Each(arr, _) =>
      ExBGrown(arr, NextT(cx));
      GrownT(cx, ExB(arr, NextT(cx)).1);
      EvolvesSame(cx, h.cx.(temps := cx.temps), n, x);
    case EnumVals(_) => EvolvesSame(cx, h.cx, n, x);
    case Iterate(obj, _, _, held, _, _) =>
      ExForGrown(obj, true, cx);
      var cx1 := ExO(obj, cx).1;
      FlushShape(cx, cx1);
      var cx2 := cx1.(temps := cx.temps);
      QuietEvolves(cx, cx2, n, n);
      EvolvesReg(cx2, n, x);
      EvolvesTrans(cx, cx2, h.cx, n, n, x);
  }

  lemma {:induction false} HeadShape(subject: Expr, isStr: bool, cx: Cx)
    requires cx.scopes != []
    ensures var (pre, cx2) := SwitchHead(subject, isStr, cx);
      && NoLabels(pre) && cx2.temps == cx.temps && cx.tempc < cx2.tempc && cx2.loopc == cx.loopc
      && cx2.scopes == [PLAIN.(isSwitch := true, names := if isStr then [T(cx.tempc)] else [])] + cx.scopes
  {
    var cx0 := Push(cx, PLAIN.(isSwitch := true));
    ExForGrown(subject, true, NextT(cx0));
    var cx1 := ExO(subject, NextT(cx0)).1;
    GrownT(cx0, cx1);
    FlushShape(cx0, cx1);
    assert cx0.scopes[1..] == cx.scopes;
    assert [] + [T(cx.tempc)] == [T(cx.tempc)];
  }

  lemma {:induction false} IfShape(s: Stmt, rt: RetType, cx: Cx, vis: View, n: nat, inLoop: bool)
    requires s.If? && Good(s, vis, n, inLoop, rt) && cx.scopes != []
    ensures Calm(EmitIf(s, rt, cx), cx)
    decreases s, 0, 0
  {
    CondShape(s.cond, cx);
    var cx2 := EmitCond(s.cond, cx).1;
    var cx3 := EmitScope(s.thn, rt, cx2).1;
    ScopeShape(s.thn, rt, cx2, vis, n, inLoop);
    if s.hasElse {
      ScopeShape(s.els, rt, cx3, vis, NextNames(s.thn, n), inLoop);
    }
  }

  lemma {:induction false} WhileShape(s: Stmt, rt: RetType, cx: Cx, vis: View, n: nat, inLoop: bool)
    requires s.While? && Good(s, vis, n, inLoop, rt) && cx.scopes != []
    ensures var r := EmitWhile(s, rt, cx);
            LabelsIn(r.0, cx.loopc, r.1.loopc) && r.1.scopes != [] && Quiet(cx, r.1)
    decreases s, 0, 0
  {
    var cx0 := LoopBegin(cx);
    CondShape(s.cond, cx0);
    var cx2 := EmitCond(s.cond, cx0).1;
    ScopeShape(s.body, rt, cx2, vis, n, true);
    var cx3 := EmitScope(s.body, rt, cx2).1;
    PopQuiet(cx, LoopScope(cx), cx0, cx3);
  }

  /** A quiet stretch with one more scope around it is quiet without it. */
  lemma {:induction false} PopQuiet(cx: Cx, s: Scope, cx0: Cx, cx1: Cx)
    requires cx.scopes != [] && cx0.scopes == [s] + cx.scopes && cx0.temps == cx.temps
    requires cx.tempc <= cx0.tempc && cx.loopc <= cx0.loopc
    requires cx1.scopes != [] && Quiet(cx0, cx1)
    ensures |cx1.scopes| == |cx.scopes| + 1 && Quiet(cx, Pop(cx1))
    ensures cx1.scopes[0].loopId == s.loopId
  {
    assert Kept(cx0.scopes, cx1.scopes);
    forall i | 0 <= i < |cx.scopes|
      ensures Pop(cx1).scopes[i] == cx1.scopes[i + 1] && cx.scopes[i] == cx0.scopes[i + 1]
    {
    }
  }

  lemma {:induction false} GoodForParts(s: Stmt, vis: View, n: nat, inLoop: bool, rt: RetType)
    requires s.For? && Good(s, vis, n, inLoop, rt)
    ensures GoodIter(s.x, s.iter, vis, n) && GoodAll(s.body, vis[s.x := LoopVarKind(s.iter)], s.x + 1, true, rt)
    ensures n <= s.x <= NextName(s, n)
  {
  }

  lemma {:induction false} ForShape(s: Stmt, rt: RetType, cx: Cx, vis: View, n: nat, inLoop: bool)
    requires s.For? && Good(s, vis, n, inLoop, rt) && cx.scopes != []
    ensures var r := EmitFor(s, rt, cx); Shaped(r.0, cx, r.1, n, NextName(s, n))
    decreases s, 0, 1
  {
    hide Evolves, Grown, EmitHeader, EmitAll, LoadItem, RelCode, Good, GoodAll, GoodIter;
    var n1 := NextName(s, n);
    GoodForParts(s, vis, n, inLoop, rt);
    HeaderShape(s.x, s.iter, cx, vis, n);
    var h := EmitHeader(s.x, s.iter, cx);
    ForBodyShape(s, rt, h.cx, vis, n);
    var cx2 := EmitAll(s.body, rt, RegIf(LoopBegin(h.cx), L(s.x), ItemIsRef(s.iter))).1;
    ForClose(s.x, cx, h.cx, cx2, n, n1);
  }

  lemma {:induction false} ForBodyShape(s: Stmt, rt: RetType, hx: Cx, vis: View, n: nat)
    requires s.For? && GoodIter(s.x, s.iter, vis, n) && hx.scopes != []
    requires GoodAll(s.body, vis[s.x := LoopVarKind(s.iter)], s.x + 1, true, rt)
    ensures Evolves(LoopBegin(hx), EmitAll(s.body, rt, RegIf(LoopBegin(hx), L(s.x), ItemIsRef(s.iter))).1,
                    s.x, NextName(s, n))
    decreases s, 0, 0
  {
    var cx0 := LoopBegin(hx);
    var cxr := RegIf(cx0, L(s.x), ItemIsRef(s.iter));
    EvolvesReg(cx0, s.x, s.x + 1);
    EvolvesSame(cx0, cx0, s.x, s.x + 1);
    AllShape(s.body, rt, cxr, vis[s.x := LoopVarKind(s.iter)], s.x + 1, true);
    EvolvesTrans(cx0, cxr, EmitAll(s.body, rt, cxr).1, s.x, s.x + 1, NextName(s, n));
  }

  lemma {:induction false} ForClose(x: nat, cx: Cx, hx: Cx, cx2: Cx, n: nat, n1: nat)
    requires cx.scopes != [] && hx.scopes != [] && n <= x <= n1 && Grown(cx, hx)
    requires Evolves(cx, hx.(temps := cx.temps), n, x)
    requires Evolves(LoopBegin(hx), cx2, x, n1)
    ensures var (fl, cx3) := Flush(Pop(cx2), |cx.temps|);
      && Evolves(cx, cx3, n, n1) && NoLabels(fl) && hx.loopc + 1 <= cx3.loopc
      && cx2.scopes[0].loopId == hx.loopc + 1
      && cx3 == Pop(cx2).(temps := cx.temps) && fl == RelCode(Fresh(cx, hx))
  {
    EvolvesPop(hx, LoopScope(hx), LoopBegin(hx), cx2, x, n1);
    var cx3 := Pop(cx2).(temps := cx.temps);
    RelNoLabels(Fresh(cx, hx));
    QuietEvolves(hx.(temps := cx.temps), cx3, x, n1);
    EvolvesTrans(cx, hx.(temps := cx.temps), cx3, n, x, n1);
  }

  lemma {:induction false} SwitchShape(s: Stmt, rt: RetType, cx: Cx, vis: View, n: nat, inLoop: bool)
    requires s.Switch? && Good(s, vis, n, inLoop, rt) && cx.scopes != []
    ensures Calm(EmitSwitch(s, rt, cx), cx)
    decreases s, 0, 0
  {
    HeadShape(s.subject, s.isStr, cx);
    var cx2 := SwitchHead(s.subject, s.isStr, cx).1;
    ArmsShape(s.arms, s.isStr, rt, cx2, vis, n, inLoop);
    var cx3 := EmitArms(s.arms, s.isStr, rt, cx2).1;
    var d := FindDefault(s.arms);
    if s.isStr && d < |s.arms| {
      GoodArmAt(s.arms, d, vis, n, inLoop, rt);
      ScopeShape(s.arms[d].body, rt, cx3, vis, ArmStart(s.arms, d, n), inLoop);
      PopQuiet(cx, cx2.scopes[0], cx2, EmitScope(s.arms[d].body, rt, cx3).1);
    } else {
      PopQuiet(cx, cx2.scopes[0], cx2, cx3);
    }
  }

  lemma {:induction false} CalmShaped(r: (seq<CStmt>, Cx), cx: Cx, n: nat, n1: nat)
    requires cx.scopes != [] && r.1.scopes != [] && Quiet(cx, r.1) && n <= n1
    requires LabelsIn(r.0, cx.loopc, r.1.loopc)
    ensures Shaped(r.0, cx, r.1, n, n1)
  {
    QuietEvolves(cx, r.1, n, n1);
  }

  lemma {:induction false} OneNoLabel(c: CStmt, lo: nat, hi: nat)
    requires !c.CLabel?
    ensures LabelsIn([c], lo, hi)
  {
  }

  lemma {:induction false} NoLabelsAny(cs: seq<CStmt>, lo: nat, hi: nat)
    requires NoLabels(cs)
    ensures LabelsIn(cs, lo, hi)
  {
  }

  lemma {:induction false} BreakShape(cx: Cx, n: nat)
    requires cx.scopes != []
    ensures Shaped(EmitBreak(cx).0, cx, EmitBreak(cx).1, n, n)
  {
    hide Kept, LoopOf, Crossed, HasLoop, Mark, JumpCode;
    JumpNoLabels(cx.scopes);
    EvolvesMark(cx, n);
    EvolvesSame(cx, cx, n, n);
  }

  lemma {:induction false} StmtShape(s: Stmt, rt: RetType, cx: Cx, vis: View, n: nat, inLoop: bool)
    requires Good(s, vis, n, inLoop, rt) && cx.scopes != []
    ensures var r := EmitS(s, rt, cx); Shaped(r.0, cx, r.1, n, NextName(s, n))
    decreases s, 1
  {
    hide Evolves, Quiet, LabelsIn, NoLabels, EmitFor, EmitWhile, EmitIf, EmitSwitch, EmitScope, EmitLet, EmitReturn,
        EmitAssign,
      EmitSetStrong, EmitSetPlain, EmitSetElem, EmitEval, EmitPanic;
    if s.For? {
      ForShape(s, rt, cx, vis, n, inLoop);
    } else if s.While? {
      WhileShape(s, rt, cx, vis, n, inLoop);
      CalmShaped(EmitWhile(s, rt, cx), cx, n, NextName(s, n));
    } else if s.Let? {
      LetShape(s.x, s.ref, s.init, cx);
    } else if s.Block? {
      ScopeShape(s.body, rt, cx, vis, n, inLoop);
      OneNoLabel(CBlock(EmitScope(s.body, rt, cx).0), cx.loopc, EmitScope(s.body, rt, cx).1.loopc);
      CalmShaped(EmitS(s, rt, cx), cx, n, NextName(s, n));
    } else if s.Break? {
      BreakShape(cx, n);
    } else {
      StmtCalm(s, rt, cx, vis, n, inLoop);
      NoLabelsAny(EmitS(s, rt, cx).0, cx.loopc, EmitS(s, rt, cx).1.loopc);
      CalmShaped(EmitS(s, rt, cx), cx, n, NextName(s, n));
    }
  }

  lemma {:induction false} StmtCalm(s: Stmt, rt: RetType, cx: Cx, vis: View, n: nat, inLoop: bool)
    requires Good(s, vis, n, inLoop, rt) && cx.scopes != []
    requires !s.For? && !s.While? && !s.Let? && !s.Block? && !s.Break?
    ensures Calm(EmitS(s, rt, cx), cx)
    decreases s, 0, 1
  {
    match s
    case Eval(e) => EvalShape(e, cx);
    case Panic(e) => EvalShape(e, cx);
    case Assign(x, ref, rhs) => AssignShape(x, ref, rhs, cx);
    case SetField(obj, fld, kind, rhs) =>
      SetStrongShape(obj, fld, rhs, cx);
      SetPlainShape(obj, fld, rhs, cx);
    case SetElem(arr, idx, ref, rhs) => SetElemShape(arr, idx, ref, rhs, cx);
    case If(_, _, _, _) => IfShape(s, rt, cx, vis, n, inLoop);
    case Switch(_, _, _, _) => SwitchShape(s, rt, cx, vis, n, inLoop);
    case Return(ret) => ReturnShape(ret, rt, cx);
    case Continue => JumpNoLabels(cx.scopes);
  }
}
