/** Running emitted code piece by piece, and what each piece does to the bookkeeping. */
module EmitRun {
  import opened Basics
  import opened VytoLang
  import opened CTarget
  import opened EmitSpec
  import opened EmitExpr
  import opened EmitShape

  // ---------------------------------------------------------------- sequencing

  lemma {:induction false} LabelAtAppend(a: seq<CStmt>, b: seq<CStmt>, l: nat)
    ensures LabelAt(a + b, l) == if LabelAt(a, l) < |a| then LabelAt(a, l) else |a| + LabelAt(b, l)
  {
    if a == [] {
      assert a + b == b;
    } else {
      assert (a + b)[1..] == a[1..] + b;
      LabelAtAppend(a[1..], b, l);
    }
  }

  lemma {:induction false} ThenAssoc(w: World, fuel: nat, out: COut, a: seq<CStmt>, b: seq<CStmt>)
    ensures Then(w, fuel, Then(w, fuel, out, a), b) == Then(w, fuel, out, a + b)
    decreases |a|, 1
  {
    if out.CNorm? {
      ExecApp(w, fuel, a, b, out.st);
    } else if out.CGo? {
      LabelAtAppend(a, b, out.l);
      var k := LabelAt(a, out.l);
      if k < |a| {
        assert (a + b)[k + 1..] == a[k + 1..] + b;
        ExecApp(w, fuel, a[k + 1..], b, out.st);
      } else {
        var j := LabelAt(b, out.l);
        if j < |b| { assert (a + b)[|a| + j + 1..] == b[j + 1..]; }
      }
    }
  }

  lemma {:induction false} ExecApp(w: World, fuel: nat, a: seq<CStmt>, b: seq<CStmt>, st: CState)
    ensures ExecCs(w, fuel, a + b, st) == Then(w, fuel, ExecCs(w, fuel, a, st), b)
    decreases |a|, 0
  {
    if a == [] {
      assert a + b == b;
    } else {
      assert (a + b)[1..] == a[1..] + b;
      ThenAssoc(w, fuel, ExecC(w, fuel, a[0], st), a[1..], b);
    }
  }

  /** One statement that goes on. */
  lemma {:induction false} StepC(w: World, fuel: nat, c: CStmt, rest: seq<CStmt>, st: CState)
    requires ExecC(w, fuel, c, st).CNorm?
    ensures ExecCs(w, fuel, [c] + rest, st) == ExecCs(w, fuel, rest, ExecC(w, fuel, c, st).st)
  {
    assert ([c] + rest)[1..] == rest;
  }

  lemma {:induction false} RunOne(w: World, fuel: nat, c: CStmt, st: CState)
    ensures ExecCs(w, fuel, [c], st) == ExecC(w, fuel, c, st)
  {
    var out := ExecC(w, fuel, c, st);
    if out.CNorm? { StepC(w, fuel, c, [], st); assert [c] + [] == [c]; }
  }

  // ---------------------------------------------------------------- ownership

  lemma {:induction false} OwnPutOther(names: seq<Name>, vars: map<Name, Val>, x: Name, v: Val, o: Watch)
    requires x !in names
    ensures Own(names, vars[x := v], o) == Own(names, vars, o)
  {
    OwnSame(names, vars, vars[x := v], o);
  }

  lemma {:induction false} OwnPut(names: seq<Name>, vars: map<Name, Val>, x: Name, v: Val, o: Watch)
    requires x in names && Distinct(names)
    ensures Own(names, vars[x := v], o)
         == Own(names, vars, o) - (if Rd(vars, x) == o.id then 1 else 0) + (if v == o.id then 1 else 0)
  {
    if names[0] == x {
      forall i | 0 <= i < |names[1..]| ensures names[1..][i] != x { assert names[1..][i] == names[i + 1]; }
      OwnPutOther(names[1..], vars, x, v, o);
    } else {
      assert forall i, j :: 0 <= i < j < |names[1..]| ==>
          names[1..][i] == names[i + 1] && names[1..][j] == names[j + 1];
      OwnPut(names[1..], vars, x, v, o);
    }
  }

  lemma {:induction false} BumpNet(st: CState, v: Val, d: int, o: Watch)
    requires o.id != 0
    ensures Net(Bump(st, v, d), o) == Net(st, o) + if v == o.id then d else 0
    ensures Live(v, st, o) ==> Spared(st, Bump(st, v, d), o)
  {
  }

  /** Each of `names` has a count to give back. */
  ghost predicate Pays(names: seq<Name>, st: CState, o: Watch) {
    o.sound ==> Others(st.tr, o) >= 0 && Net(st, o) >= Own(names, st.vars, o)
  }

  /** `a` with every name of `names` set to null is `b`. */
  ghost predicate Nulled(a: map<Name, Val>, b: map<Name, Val>, names: seq<Name>) {
    forall x :: Rd(b, x) == if x in names then 0 else Rd(a, x)
  }

  lemma {:induction false} RelOne(w: World, fuel: nat, x: Name, st: CState, o: Watch)
    requires o.id != 0
    ensures var st1 := Put(Bump(st, Rd(st.vars, x), -1), x, 0);
      && ExecCs(w, fuel, [CReleaseNull(x)], st) == CNorm(st1)
      && st1.tr == st.tr && st1.vars == st.vars[x := 0]
      && Net(st1, o) == Net(st, o) - (if Rd(st.vars, x) == o.id then 1 else 0)
      && (Live(Rd(st.vars, x), st, o) ==> Spared(st, st1, o))
  {
    RunOne(w, fuel, CReleaseNull(x), st);
    BumpNet(st, Rd(st.vars, x), -1, o);
  }

  /** VT_RELEASE of distinct names gives back exactly the counts they held, and meets nothing dead
      where each has one. */
  lemma {:induction false} RelExec(w: World, fuel: nat, names: seq<Name>, st: CState, o: Watch)
    requires Distinct(names) && o.id != 0
    ensures var out := ExecCs(w, fuel, RelCode(names), st);
      && out.CNorm? && out.st.tr == st.tr && Nulled(st.vars, out.st.vars, names)
      && Net(out.st, o) == Net(st, o) - Own(names, st.vars, o)
      && (Pays(names, st, o) ==> Spared(st, out.st, o))
    decreases |names|
  {
    if names != [] {
      hide ExecC, Nulled, Distinct, HeapNet;
      var x, rest := names[0], names[1..];
      DistinctTail(names);
      RelExec(w, fuel, rest, st, o);
      var st1 := ExecCs(w, fuel, RelCode(rest), st).st;
      ExecApp(w, fuel, RelCode(rest), [CReleaseNull(x)], st);
      RelOne(w, fuel, x, st1, o);
      NulledCons(st.vars, st1.vars, x, rest);
      assert names == [x] + rest;
    }
  }

  /** Names go in the order opposite to that in which they came. */
  lemma {:induction false} LastFirst(names: seq<Name>, k: nat)
    requires k < |names|
    ensures RelCode(names)[k] == CReleaseNull(names[|names| - 1 - k])
  {
    if k < |names| - 1 { LastFirst(names[1..], k); }
  }

  lemma {:induction false} DistinctTail(names: seq<Name>)
    requires Distinct(names) && names != []
    ensures Distinct(names[1..]) && names[0] !in names[1..]
  {
    var rest := names[1..];
    assert forall i :: 0 <= i < |rest| ==> rest[i] == names[i + 1];
  }

  lemma {:induction false} NulledCons(a: map<Name, Val>, b: map<Name, Val>, x: Name, rest: seq<Name>)
    requires Nulled(a, b, rest) && x !in rest
    ensures Nulled(a, b[x := 0], [x] + rest) && Rd(b, x) == Rd(a, x)
  {
  }

  lemma {:induction false} NulledJoin(a: map<Name, Val>, b: map<Name, Val>, c: map<Name, Val>, x: seq<Name>,
          y: seq<Name>)
    requires Nulled(a, b, x) && Nulled(b, c, y)
    ensures Nulled(a, c, x + y)
  {
  }

  lemma {:induction false} DistinctParts(a: seq<Name>, b: seq<Name>)
    requires Distinct(a + b)
    ensures Distinct(a) && Distinct(b) && (forall x :: x in a ==> x !in b)
  {
    assert forall i :: 0 <= i < |a| ==> (a + b)[i] == a[i];
    assert forall i :: 0 <= i < |b| ==> (a + b)[|a| + i] == b[i];
    forall x | x in a ensures x !in b {
      var i :| 0 <= i < |a| && a[i] == x;
    }
  }

  /** Releasing for a jump empties the scopes it leaves and no other. */
  lemma {:induction false} JumpExec(w: World, fuel: nat, scopes: seq<Scope>, st: CState, o: Watch)
    requires Distinct(Flat(scopes)) && o.id != 0 && HasLoop(scopes)
    ensures Flat(scopes) == JumpNames(scopes) + Flat(Below(scopes))
    ensures var out := ExecCs(w, fuel, JumpCode(scopes), st);
      && out.CNorm? && out.st.tr == st.tr && Nulled(st.vars, out.st.vars, JumpNames(scopes))
      && Net(out.st, o) == Net(st, o) - Own(JumpNames(scopes), st.vars, o)
      && (Pays(JumpNames(scopes), st, o) ==> Spared(st, out.st, o))
    decreases |scopes|
  {
    hide ExecC, Net, RelCode, Distinct, Own, Nulled, Spared, Pays;
    var top := scopes[0].names;
    DistinctParts(top, Flat(scopes[1..]));
    RelExec(w, fuel, top, st, o);
    if !scopes[0].isLoop {
      var st1 := ExecCs(w, fuel, RelCode(top), st).st;
      JumpExec(w, fuel, scopes[1..], st1, o);
      ExecApp(w, fuel, RelCode(top), JumpCode(scopes[1..]), st);
      var rest := JumpNames(scopes[1..]);
      assert forall x :: x in rest ==> x in Flat(scopes[1..]);
      assert JumpNames(scopes) == top + rest;
      JumpJoin(top, rest, st, st1, ExecCs(w, fuel, JumpCode(scopes[1..]), st1).st, o);
    }
  }

  /** Two groups of names released one after the other. */
  lemma {:induction false} JumpJoin(top: seq<Name>, rest: seq<Name>, st: CState, st1: CState, st2: CState, o: Watch)
    requires forall x :: x in top ==> x !in rest
    requires Nulled(st.vars, st1.vars, top) && Net(st1, o) == Net(st, o) - Own(top, st.vars, o)
    requires Nulled(st1.vars, st2.vars, rest) && Net(st2, o) == Net(st1, o) - Own(rest, st1.vars, o)
    requires st1.tr == st.tr && (Pays(top, st, o) ==> Spared(st, st1, o))
    requires Pays(rest, st1, o) ==> Spared(st1, st2, o)
    ensures Nulled(st.vars, st2.vars, top + rest) && Net(st2, o) == Net(st, o) - Own(top + rest, st.vars, o)
    ensures Pays(top + rest, st, o) ==> Spared(st, st2, o)
  {
    hide Net;
    OwnAppend(top, rest, st.vars, o);
    OwnSame(rest, st.vars, st1.vars, o);
    NulledJoin(st.vars, st1.vars, st2.vars, top, rest);
  }

  lemma {:induction false} ReturnExec(w: World, fuel: nat, scopes: seq<Scope>, st: CState, o: Watch)
    requires Distinct(Flat(scopes)) && o.id != 0
    ensures var out := ExecCs(w, fuel, ReturnCode(scopes), st);
      && out.CNorm? && out.st.tr == st.tr && Nulled(st.vars, out.st.vars, Flat(scopes))
      && Net(out.st, o) == Net(st, o) - Own(Flat(scopes), st.vars, o)
      && (Pays(Flat(scopes), st, o) ==> Spared(st, out.st, o))
    decreases |scopes|
  {
    hide Net;
    if scopes != [] {
      var top, rest := scopes[0].names, Flat(scopes[1..]);
      DistinctParts(top, rest);
      RelExec(w, fuel, top, st, o);
      var st1 := ExecCs(w, fuel, RelCode(top), st).st;
      ReturnExec(w, fuel, scopes[1..], st1, o);
      ExecApp(w, fuel, RelCode(top), ReturnCode(scopes[1..]), st);
      JumpJoin(top, rest, st, st1, ExecCs(w, fuel, ReturnCode(scopes), st).st, o);
    }
  }

  // ---------------------------------------------------------------- the relation

  ghost predicate Clear(vars: map<Name, Val>, temps: seq<Name>) {
    forall x: Name :: x.S? && x !in temps ==> Rd(vars, x) == 0
  }

  /** Nothing dead was touched, and whoever lends `o` still has it. */
  ghost predicate Unhurt(st: CState, o: Watch) {
    o.sound ==> o.id !in st.hurt
  }

  ghost predicate Safe(vis: View, env: Env, st: CState, o: Watch) {
    o.sound ==>
      && o.id !in st.hurt && Others(st.tr, o) >= o.lent
      && (forall x :: x in vis && vis[x].Lent? && Rd(env, x) == o.id ==> o.lent > 0)
  }

  /** The compiled state stands for the source state: variables in view agree, spare spill
      temporaries are null, and the counts taken on `o` are the stores in the heap plus one
      for each owned name that holds it, plus `k` still in transit. */
  ghost predicate R(cx: Cx, vis: View, env: Env, st: CState, o: Watch, k: int) {
    && Agree(vis, env, st.vars)
    && Clear(st.vars, cx.temps)
    && Net(st, o) == Own(Flat(cx.scopes), st.vars, o) + Own(cx.temps, st.vars, o) + k
    && Safe(vis, env, st, o)
  }

  lemma {:induction false} RUnhurt(cx: Cx, vis: View, env: Env, st: CState, o: Watch, k: int)
    requires R(cx, vis, env, st, o, k)
    ensures Unhurt(st, o)
  {
  }

  lemma {:induction false} OwnSome(names: seq<Name>, vars: map<Name, Val>, x: Name, o: Watch)
    requires x in names && Rd(vars, x) == o.id
    ensures Own(names, vars, o) > 0
  {
    if names[0] != x { OwnSome(names[1..], vars, x, o); }
  }

  /** A name that owns its reference can be released. */
  lemma {:induction false} OwnedLive(cx: Cx, vis: View, env: Env, st: CState, x: Name, o: Watch, k: nat)
    requires R(cx, vis, env, st, o, k) && x in Flat(cx.scopes)
    ensures Live(Rd(st.vars, x), st, o)
  {
    if Rd(st.vars, x) == o.id { OwnSome(Flat(cx.scopes), st.vars, x, o); }
  }

  /** Between two statements, and with new references in hand, code may touch what it can name. */
  lemma {:induction false} ArmR(w: World, cx: Cx, vis: View, n: nat, env: Env, st: CState, o: Watch, k: nat)
    requires VisOk(vis, n, cx.scopes) && R(cx, vis, env, st, o, k) && Watched(w, o)
    ensures Armed(w, vis, env, st, o)
  {
    hide Backed, Clear;
    forall x | x in vis && !vis[x].Value? ensures Live(Rd(env, x), st, o) {
      if vis[x].Owned? { OwnedLive(cx, vis, env, st, L(x), o, k); }
    }
  }

  ghost predicate VisOk(vis: View, n: nat, scopes: seq<Scope>) {
    forall x :: x in vis ==> x < n && (L(x) in Flat(scopes) <==> vis[x].Owned?)
  }

  ghost predicate Ready(cx: Cx, vis: View, n: nat, inLoop: bool) {
    cx.scopes != [] && CxOk(cx, n) && VisOk(vis, n, cx.scopes) && (inLoop ==> HasLoop(cx.scopes))
  }

  /** Variables a statement may not touch: hidden ones of enclosing constructs. */
  ghost predicate Hidden(x: Name, vis: View, n: nat, tempc: nat) {
    (x.T? && x.n < tempc) || (x.L? && x.n < n && x.n !in vis)
  }

  ghost predicate Frame(vis: View, n: nat, tempc: nat, released: seq<Name>, a: map<Name, Val>, b: map<Name, Val>) {
    forall x: Name :: Hidden(x, vis, n, tempc) && x !in released ==> Rd(a, x) == Rd(b, x)
  }

  ghost predicate SameLT(a: map<Name, Val>, b: map<Name, Val>) {
    forall x: Name :: !x.S? ==> Rd(a, x) == Rd(b, x)
  }

  lemma {:induction false} ClearStart(cx: Cx, n: nat, vars: map<Name, Val>)
    requires CxOk(cx, n) && Clear(vars, cx.temps)
    ensures ClearFrom(vars, cx.tempc)
  {
    forall m: nat | cx.tempc <= m ensures S(m) !in cx.temps {
      assert forall i :: 0 <= i < |cx.temps| ==> SpillIn(cx.temps[i], 0, cx.tempc);
    }
  }

  lemma {:induction false} CxOkGrown(cx: Cx, cx1: Cx, n: nat)
    requires CxOk(cx, n) && Grown(cx, cx1) && cx1.scopes == cx.scopes && cx1.loopc == cx.loopc
    ensures CxOk(cx1, n)
  {
    forall i | 0 <= i < |cx1.temps| ensures SpillIn(cx1.temps[i], 0, cx1.tempc) {
      if i < |cx.temps| { assert cx1.temps[i] == cx.temps[i]; }
    }
    forall i, j | 0 <= i < j < |cx1.temps| ensures cx1.temps[i].n < cx1.temps[j].n {
      if i < |cx.temps| { assert cx1.temps[i] == cx.temps[i] && SpillIn(cx.temps[i], 0, cx.tempc); }
      if j < |cx.temps| { assert cx1.temps[j] == cx.temps[j]; }
    }
  }

  lemma {:induction false} TempsDistinct(temps: seq<Name>, tempc: nat)
    requires TempsOk(temps, tempc)
    ensures Distinct(temps)
  {
  }

  /** After an emitted fragment that `Tracks` its source, the relation moves along. */
  lemma {:induction false} TrackR(w: World, e: Expr, cx: Cx, c: CExpr, cx1: Cx, vis: View, n: nat, env: Env, st: CState,
          own: bool, o: Watch, k: int)
    requires CxOk(cx, n) && R(cx, vis, env, st, o, k)
    requires cx1.scopes == cx.scopes && cx1.loopc == cx.loopc
    requires Tracks(w, e, cx, c, cx1, env, st, own, o)
    ensures var (u, st1) := EvalC(w, c, st);
      && CxOk(cx1, n) && EvalE(w, e, env, st.tr) == (u, st1.tr) && SameLT(st.vars, st1.vars)
      && R(cx1, vis, env, st1, o, k + if own && u == o.id then 1 else 0)
      && Rd(st1.rc, o.id) >= Rd(st.rc, o.id) && (IsRef(e) ==> Live(u, st1, o))
  {
    var (u, st1) := EvalC(w, c, st);
    CxOkGrown(cx, cx1, n);
    assert cx1.temps == cx.temps + Fresh(cx, cx1);
    assert forall y :: y in Fresh(cx, cx1) ==> SpillIn(y, cx.tempc, cx1.tempc);
    OwnAppend(cx.temps, Fresh(cx, cx1), st1.vars, o);
    forall x | x in cx.temps ensures Rd(st1.vars, x) == Rd(st.vars, x) {
      var i :| 0 <= i < |cx.temps| && cx.temps[i] == x;
      assert SpillIn(x, 0, cx.tempc);
    }
    OwnSame(cx.temps, st.vars, st1.vars, o);
    forall x | x in Flat(cx.scopes) ensures Rd(st1.vars, x) == Rd(st.vars, x) {
      assert NameOk(x, n, cx.tempc);
    }
    OwnSame(Flat(cx.scopes), st.vars, st1.vars, o);
  }
}
