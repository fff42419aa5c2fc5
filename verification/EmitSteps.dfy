/** Straight-line statements: each emitted sequence keeps the relation and pays its counts. */
module EmitSteps {
  import opened Basics
  import opened VytoLang
  import opened CTarget
  import opened EmitSpec
  import opened EmitExpr
  import opened EmitShape
  import opened EmitRun

  lemma {:induction false} CxOkNextT(cx: Cx, n: nat)
    requires CxOk(cx, n)
    ensures CxOk(NextT(cx), n) && T(cx.tempc) !in Flat(cx.scopes)
  {
  }

  lemma {:induction false} BorrowR(w: World, e: Expr, cx: Cx, vis: View, n: nat, env: Env, st: CState, o: Watch, k: nat)
    requires CxOk(cx, n) && VisOk(vis, n, cx.scopes) && GoodExpr(e, vis) && R(cx, vis, env, st, o, k) && Watched(w, o)
    ensures var (c, cx1) := ExB(e, cx);
            var (u, st1) := EvalC(w, c, st);
      && CxOk(cx1, n) && Grown(cx, cx1) && EvalE(w, e, env, st.tr) == (u, st1.tr)
      && SameLT(st.vars, st1.vars) && R(cx1, vis, env, st1, o, k)
      && Rd(st1.rc, o.id) >= Rd(st.rc, o.id) && (IsRef(e) ==> Live(u, st1, o))
  {
    ClearStart(cx, n, st.vars);
    ArmR(w, cx, vis, n, env, st, o, k);
    ExBSim(w, e, cx, vis, env, st, o);
    var (c, cx1) := ExB(e, cx);
    TrackR(w, e, cx, c, cx1, vis, n, env, st, false, o, k);
  }

  lemma {:induction false} OwnR(w: World, e: Expr, ref: bool, cx: Cx, vis: View, n: nat, env: Env, st: CState, o: Watch,
          k: nat)
    requires CxOk(cx, n) && VisOk(vis, n, cx.scopes) && GoodExpr(e, vis) && FitsRef(e, ref)
    requires R(cx, vis, env, st, o, k) && Watched(w, o)
    ensures var (c, cx1) := ExFor(e, ref, cx);
            var (u, st1) := EvalC(w, c, st);
      && CxOk(cx1, n) && Grown(cx, cx1) && EvalE(w, e, env, st.tr) == (u, st1.tr)
      && SameLT(st.vars, st1.vars) && R(cx1, vis, env, st1, o, k + if ref && u == o.id then 1 else 0)
      && Rd(st1.rc, o.id) >= Rd(st.rc, o.id) && (IsRef(e) ==> Live(u, st1, o))
  {
    ClearStart(cx, n, st.vars);
    ArmR(w, cx, vis, n, env, st, o, k);
    ExForSim(w, e, ref, cx, vis, env, st, o);
    var (c, cx1) := ExFor(e, ref, cx);
    TrackR(w, e, cx, c, cx1, vis, n, env, st, ref, o, k);
  }

  /** Setting a variable nobody owns. */
  lemma {:induction false} PutR(cx: Cx, vis: View, env: Env, st: CState, x: Name, v: Val, o: Watch, k: int)
    requires R(cx, vis, env, st, o, k) && x !in Flat(cx.scopes) && !x.S?
    requires x !in cx.temps && (x.L? ==> x.n !in vis)
    ensures R(cx, vis, env, Put(st, x, v), o, k)
  {
    OwnPutOther(Flat(cx.scopes), st.vars, x, v, o);
    OwnPutOther(cx.temps, st.vars, x, v, o);
  }

  lemma {:induction false} TempsNoLT(cx: Cx, n: nat, x: Name)
    requires CxOk(cx, n) && !x.S?
    ensures x !in cx.temps
  {
    assert forall i :: 0 <= i < |cx.temps| ==> SpillIn(cx.temps[i], 0, cx.tempc);
  }

  /** Setting a source variable and its counterpart together. */
  lemma {:induction false} PutVarR(cx: Cx, vis: View, n: nat, env: Env, st: CState, x: nat, v: Val, kind: Kind,
          o: Watch, k: int)
    requires CxOk(cx, n) && R(cx, vis, env, st, o, k) && L(x) !in Flat(cx.scopes) && !kind.Lent?
    ensures R(cx, vis[x := kind], env[x := v], Put(st, L(x), v), o, k)
  {
    TempsNoLT(cx, n, L(x));
    OwnPutOther(Flat(cx.scopes), st.vars, L(x), v, o);
    OwnPutOther(cx.temps, st.vars, L(x), v, o);
  }

  /** Overwriting an owned variable: the old reference leaves, the new one arrives. */
  lemma {:induction false} PutOwnedR(cx: Cx, vis: View, n: nat, env: Env, st: CState, x: nat, v: Val, o: Watch, k: int)
    requires CxOk(cx, n) && R(cx, vis, env, st, o, k) && L(x) in Flat(cx.scopes) && x in vis && !vis[x].Lent?
    ensures R(cx, vis, env[x := v], Put(st, L(x), v), o,
              k + (if Rd(st.vars, L(x)) == o.id then 1 else 0) - (if v == o.id then 1 else 0))
  {
    TempsNoLT(cx, n, L(x));
    OwnPut(Flat(cx.scopes), st.vars, L(x), v, o);
    OwnPutOther(cx.temps, st.vars, L(x), v, o);
  }

  lemma {:induction false} BumpR(cx: Cx, vis: View, env: Env, st: CState, v: Val, d: int, o: Watch, k: int)
    requires R(cx, vis, env, st, o, k) && o.id != 0 && Live(v, st, o)
    ensures R(cx, vis, env, Bump(st, v, d), o, k + if v == o.id then d else 0)
  {
    BumpNet(st, v, d, o);
  }

  lemma {:induction false} TouchR(cx: Cx, vis: View, env: Env, st: CState, v: Val, o: Watch, k: int)
    requires R(cx, vis, env, st, o, k) && o.id != 0 && Live(v, st, o)
    ensures R(cx, vis, env, Touch(st, v), o, k)
  {
  }

  lemma {:induction false} GiveR(cx: Cx, vis: View, env: Env, st: CState, v: Val, o: Watch, k: int)
    requires R(cx, vis, env, st, o, k) && o.id != 0
    ensures R(cx, vis, env, Give(st, v), o, k + if v == o.id then 1 else 0)
  {
  }

  /** What a slot shows can be released, and taken out of the slot. */
  lemma {:induction false} ShownLive(w: World, cx: Cx, vis: View, env: Env, st: CState, a: Val, i: int, o: Watch,
          k: nat)
    requires R(cx, vis, env, st, o, k) && Watched(w, o)
    ensures Live(w.field(st.tr, a, i), st, o) && Live(w.elem(st.tr, a, i), st, o)
    ensures o.sound && w.field(st.tr, a, i) == o.id ==> Others(st.tr, o) > o.lent
    ensures o.sound && w.elem(st.tr, a, i) == o.id ==> Others(st.tr, o) > o.lent
  {
  }

  /** A store: the heap net moves with the event. */
  lemma {:induction false} StoreR(cx: Cx, vis: View, env: Env, st: CState, e: Event, o: Watch, k: int)
    requires R(cx, vis, env, st, o, k)
    requires o.sound && e.EStore? && e.counted && e.was == o.id ==> Others(st.tr, o) > o.lent
    ensures R(cx, vis, env, st.(tr := st.tr + [e]), o, k - EventNet(e, o.id))
  {
    HeapSnoc(st.tr, e, o.id);
  }

  /** Registering a name turns its count in transit into an owned one. */
  lemma {:induction false} RegR(cx: Cx, vis: View, n: nat, env: Env, st: CState, x: Name, o: Watch, k: int)
    requires cx.scopes != [] && R(cx, vis, env, st, o, k)
    ensures R(Reg(cx, x), vis, env, st, o, k - if Rd(st.vars, x) == o.id then 1 else 0)
    ensures Flat(Reg(cx, x).scopes) == cx.scopes[0].names + [x] + Flat(cx.scopes[1..])
  {
    var a, r := cx.scopes[0].names, Flat(cx.scopes[1..]);
    assert Reg(cx, x).scopes[1..] == cx.scopes[1..];
    OwnAppend(a, r, st.vars, o);
    OwnAppend(a + [x], r, st.vars, o);
    OwnAppend(a, [x], st.vars, o);
  }

  lemma {:induction false} FlushR(w: World, fuel: nat, cx: Cx, cx1: Cx, vis: View, n: nat, env: Env, st: CState,
          o: Watch, k: nat)
    requires TempsOk(cx1.temps, cx1.tempc) && Grown(cx, cx1) && R(cx1, vis, env, st, o, k) && o.id != 0
    requires forall x :: x in Flat(cx1.scopes) ==> !x.S?
    ensures Flush(cx1, |cx.temps|) == (RelCode(Fresh(cx, cx1)), cx1.(temps := cx.temps))
    ensures var out := ExecCs(w, fuel, RelCode(Fresh(cx, cx1)), st);
      && out.CNorm? && out.st.tr == st.tr && SameLT(st.vars, out.st.vars)
      && R(cx1.(temps := cx.temps), vis, env, out.st, o, k)
  {
    var fl := Fresh(cx, cx1);
    assert cx1.temps == cx.temps + fl;
    TempsDistinct(cx1.temps, cx1.tempc);
    DistinctParts(cx.temps, fl);
    RelExec(w, fuel, fl, st, o);
    var st1 := ExecCs(w, fuel, RelCode(fl), st).st;
    assert forall y :: y in fl ==> SpillIn(y, cx.tempc, cx1.tempc);
    OwnAppend(cx.temps, fl, st.vars, o);
    OwnSame(cx.temps, st.vars, st1.vars, o);
    OwnSame(Flat(cx1.scopes), st.vars, st1.vars, o);
  }

  lemma {:induction false} CxNotS(cx: Cx, n: nat)
    requires CxOk(cx, n)
    ensures TempsOk(cx.temps, cx.tempc) && forall x :: x in Flat(cx.scopes) ==> !x.S?
  {
    assert forall x :: x in Flat(cx.scopes) ==> NameOk(x, n, cx.tempc);
  }

  // ---------------------------------------------------------------- whole statements

  /** The statement went on: the relation holds again and hidden variables are as before. */
  ghost predicate Went(out: COut, cx: Cx, cx1: Cx, vis: View, vis1: View, n: nat, env1: Env, tr1: Trace, st: CState,
          o: Watch) {
    && out.CNorm? && out.st.tr == tr1
    && R(cx1, vis1, env1, out.st, o, 0)
    && Frame(vis, n, cx.tempc, [], st.vars, out.st.vars)
  }

  lemma {:induction false} SimLet(w: World, fuel: nat, x: nat, ref: bool, init: Expr, cx: Cx, vis: View, env: Env,
          st: CState, o: Watch)
    requires CxOk(cx, x) && VisOk(vis, x, cx.scopes) && GoodExpr(init, vis) && FitsRef(init, ref)
    requires R(cx, vis, env, st, o, 0) && Watched(w, o)
    ensures var (code, cx1) := EmitLet(x, ref, init, cx);
            var (v, tr1) := EvalE(w, init, env, st.tr);
            Went(ExecCs(w, fuel, code, st), cx, cx1, vis, vis[x := RefKind(ref)], x, env[x := v], tr1, st, o)
  {
    hide Net, Own, EvalE, EvalC, ExFor;
    OwnR(w, init, ref, cx, vis, x, env, st, o, 0);
    var (c, cxe) := ExFor(init, ref, cx);
    var (v, st1) := EvalC(w, c, st);
    var st2 := Put(st1, L(x), v);
    var vis1, env1 := vis[x := RefKind(ref)], env[x := v];
    assert L(x) !in Flat(cxe.scopes) by { assert !NameOk(L(x), x, cx.tempc); }
    PutVarR(cxe, vis, x, env, st1, x, v, RefKind(ref), o, if ref && v == o.id then 1 else 0);
    var cxr := RegIf(cxe, L(x), ref);
    CxNotS(cxe, x);
    if ref { RegR(cxe, vis1, x, env1, st2, L(x), o, if v == o.id then 1 else 0); }
    FlushR(w, fuel, cx, cxr, vis1, x, env1, st2, o, 0);
    StepC(w, fuel, CSet(L(x), c), RelCode(Fresh(cx, cxr)), st);
  }

  lemma {:induction false} SimEval(w: World, fuel: nat, e: Expr, cx: Cx, vis: View, n: nat, env: Env, st: CState,
          o: Watch)
    requires CxOk(cx, n) && VisOk(vis, n, cx.scopes) && GoodExpr(e, vis) && R(cx, vis, env, st, o, 0) && Watched(w, o)
    ensures var (code, cx1) := EmitEval(e, cx);
            Went(ExecCs(w, fuel, code, st), cx, cx1, vis, vis, n, env, EvalE(w, e, env, st.tr).1, st, o)
  {
    BorrowR(w, e, cx, vis, n, env, st, o, 0);
    var (c, cxe) := ExB(e, cx);
    var st1 := EvalC(w, c, st).1;
    CxNotS(cxe, n);
    FlushR(w, fuel, cx, cxe, vis, n, env, st1, o, 0);
    StepC(w, fuel, CEval(c), RelCode(Fresh(cx, cxe)), st);
  }

  lemma {:induction false} SimPanic(w: World, fuel: nat, e: Expr, cx: Cx, vis: View, n: nat, env: Env, st: CState,
          o: Watch)
    requires CxOk(cx, n) && VisOk(vis, n, cx.scopes) && GoodExpr(e, vis) && R(cx, vis, env, st, o, 0) && Watched(w, o)
    ensures var out := ExecCs(w, fuel, EmitPanic(e, cx).0, st);
            out.CPanicked? && out.st.tr == EvalE(w, e, env, st.tr).1 && Unhurt(out.st, o)
  {
    BorrowR(w, e, cx, vis, n, env, st, o, 0);
  }

  /** All variables but spill temporaries and `t` are as before. */
  ghost predicate OnlyT(a: map<Name, Val>, b: map<Name, Val>, t: Name) {
    forall x: Name :: !x.S? && x != t ==> Rd(a, x) == Rd(b, x)
  }

  /** Evaluate into a scratch temporary. */
  lemma {:induction false} IntoT(w: World, fuel: nat, e: Expr, ref: bool, m: nat, cx: Cx, vis: View, n: nat, env: Env,
          st: CState, o: Watch, k: nat)
    requires CxOk(cx, n) && VisOk(vis, n, cx.scopes) && GoodExpr(e, vis) && (ref ==> IsRef(e))
    requires R(cx, vis, env, st, o, k) && Watched(w, o)
    requires T(m) !in Flat(cx.scopes)
    ensures var (c, cx1) := ExFor(e, ref, cx);
            var out := ExecC(w, fuel, CSet(T(m), c), st);
      && out.CNorm? && EvalE(w, e, env, st.tr) == (Rd(out.st.vars, T(m)), out.st.tr)
      && CxOk(cx1, n) && Grown(cx, cx1) && OnlyT(st.vars, out.st.vars, T(m))
      && R(cx1, vis, env, out.st, o, k + if ref && Rd(out.st.vars, T(m)) == o.id then 1 else 0)
      && Rd(out.st.rc, o.id) >= Rd(st.rc, o.id) && (IsRef(e) ==> Live(Rd(out.st.vars, T(m)), out.st, o))
  {
    var (c, cx1) := ExFor(e, ref, cx);
    var (v, st1) := EvalC(w, c, st);
    if ref { OwnR(w, e, ref, cx, vis, n, env, st, o, k); } else { BorrowR(w, e, cx, vis, n, env, st, o, k); }
    TempsNoLT(cx1, n, T(m));
    PutR(cx1, vis, env, st1, T(m), v, o, k + if ref && v == o.id then 1 else 0);
  }

  lemma {:induction false} RNextT(cx: Cx, vis: View, n: nat, env: Env, st: CState, o: Watch, k: int)
    requires CxOk(cx, n)
    ensures CxOk(NextT(cx), n) && T(cx.tempc) !in Flat(cx.scopes)
    ensures R(NextT(cx), vis, env, st, o, k) == R(cx, vis, env, st, o, k)
  {
  }

  /** Flush at the end of a statement whose code so far led from `st` to `st1`. */
  lemma {:induction false} Finish(w: World, fuel: nat, cx: Cx, cx1: Cx, vis: View, n: nat, env: Env, st: CState,
          st1: CState, o: Watch)
    requires CxOk(cx1, n) && Grown(cx, cx1) && R(cx1, vis, env, st1, o, 0) && o.id != 0
    requires Frame(vis, n, cx.tempc, [], st.vars, st1.vars)
    ensures Flush(cx1, |cx.temps|) == (RelCode(Fresh(cx, cx1)), cx1.(temps := cx.temps))
    ensures Went(ExecCs(w, fuel, RelCode(Fresh(cx, cx1)), st1), cx, cx1.(temps := cx.temps), vis, vis, n, env, st1.tr,
        st, o)
  {
    CxNotS(cx1, n);
    FlushR(w, fuel, cx, cx1, vis, n, env, st1, o, 0);
  }

  lemma {:induction false} CopyVar(w: World, fuel: nat, x: Name, t: Name, st: CState)
    ensures ExecC(w, fuel, CSet(x, CVar(t)), st) == CNorm(Put(st, x, Rd(st.vars, t)))
  {
  }

  lemma {:induction false} SimAssignRef(w: World, fuel: nat, x: nat, rhs: Expr, cx: Cx, vis: View, n: nat, env: Env,
          st: CState, o: Watch)
    requires CxOk(cx, n) && VisOk(vis, n, cx.scopes) && GoodExpr(rhs, vis) && IsRef(rhs)
    requires x in vis && vis[x].Owned? && R(cx, vis, env, st, o, 0) && Watched(w, o)
    ensures var (code, cx1) := EmitAssign(x, true, rhs, cx);
            var (v, tr1) := EvalE(w, rhs, env, st.tr);
            Went(ExecCs(w, fuel, code, st), cx, cx1, vis, vis, n, env[x := v], tr1, st, o)
  {
    hide R, ExB, Ex, EvalC, EvalE, GoodExpr, Backed, CxOk, RelCode, Flat, Own, Net, ExecCs;
    var t := T(cx.tempc);
    RNextT(cx, vis, n, env, st, o, 0);
    IntoT(w, fuel, rhs, true, cx.tempc, NextT(cx), vis, n, env, st, o, 0);
    var (c, cxe) := ExO(rhs, NextT(cx));
    GrownT(cx, cxe);
    var st2 := ExecC(w, fuel, CSet(t, c), st).st;
    var v, was := Rd(st2.vars, t), Rd(st2.vars, L(x));
    var k := if v == o.id then 1 else 0;
    OwnedLive(cxe, vis, env, st2, L(x), o, k);
    BumpR(cxe, vis, env, st2, was, -1, o, k);
    var st3 := Bump(st2, was, -1);
    PutOwnedR(cxe, vis, n, env, st3, x, v, o, k - if was == o.id then 1 else 0);
    var st4 := Put(st3, L(x), v);
    Finish(w, fuel, cx, cxe, vis, n, env[x := v], st, st4, o);
    CopyVar(w, fuel, L(x), t, st3);
    Run3(w, fuel, CSet(t, c), CReleaseKeep(L(x)), CSet(L(x), CVar(t)), RelCode(Fresh(cx, cxe)), st, st2, st3, st4);
  }

  lemma {:induction false} SimAssignVal(w: World, fuel: nat, x: nat, rhs: Expr, cx: Cx, vis: View, n: nat, env: Env,
          st: CState, o: Watch)
    requires CxOk(cx, n) && VisOk(vis, n, cx.scopes) && GoodExpr(rhs, vis)
    requires x in vis && vis[x].Value? && R(cx, vis, env, st, o, 0) && Watched(w, o)
    ensures var (code, cx1) := EmitAssign(x, false, rhs, cx);
            var (v, tr1) := EvalE(w, rhs, env, st.tr);
            Went(ExecCs(w, fuel, code, st), cx, cx1, vis, vis, n, env[x := v], tr1, st, o)
  {
    BorrowR(w, rhs, cx, vis, n, env, st, o, 0);
    var (c, cxe) := ExB(rhs, cx);
    var (v, st1) := EvalC(w, c, st);
    PutVarR(cxe, vis, n, env, st1, x, v, Value, o, 0);
    assert vis[x := Value] == vis;
    CxNotS(cxe, n);
    FlushR(w, fuel, cx, cxe, vis, n, env[x := v], Put(st1, L(x), v), o, 0);
    StepC(w, fuel, CSet(L(x), c), RelCode(Fresh(cx, cxe)), st);
  }

  lemma {:induction false} SimSetStrong(w: World, fuel: nat, obj: Expr, fld: int, rhs: Expr, cx: Cx, vis: View, n: nat,
          env: Env, st: CState, o: Watch)
    requires CxOk(cx, n) && VisOk(vis, n, cx.scopes)
    requires GoodExpr(obj, vis) && IsRef(obj) && GoodExpr(rhs, vis) && IsRef(rhs)
    requires R(cx, vis, env, st, o, 0) && Watched(w, o)
    ensures var (code, cx1) := EmitSetStrong(obj, fld, rhs, cx);
            var (a, tr1) := EvalE(w, obj, env, st.tr);
            var (v, tr2) := EvalE(w, rhs, env, tr1);
            Went(ExecCs(w, fuel, code, st), cx, cx1, vis, vis, n, env,
                 tr2 + [EStore(a, fld, w.field(tr2, a, fld), v, true)], st, o)
  {
    hide R, ExB, Ex, EvalC, EvalE, GoodExpr, Backed, CxOk, Flat, Own, Net, VisOk, RelCode, ExecCs;
    var to := T(cx.tempc);
    RNextT(cx, vis, n, env, st, o, 0);
    IntoT(w, fuel, obj, false, cx.tempc, NextT(cx), vis, n, env, st, o, 0);
    var (co, cxa) := ExB(obj, NextT(cx));
    GrownT(cx, cxa);
    var st1 := ExecC(w, fuel, CSet(to, co), st).st;
    var tv := T(cxa.tempc);
    RNextT(cxa, vis, n, env, st1, o, 0);
    IntoT(w, fuel, rhs, true, cxa.tempc, NextT(cxa), vis, n, env, st1, o, 0);
    var (cr, cxb) := ExO(rhs, NextT(cxa));
    GrownT(cxa, cxb);
    FreshJoin(cx, cxa, cxb);
    var st2 := ExecC(w, fuel, CSet(tv, cr), st1).st;
    var c3, c4 := CReleaseSlot(to, fld), CPutSlot(to, fld, CVar(tv), true);
    SlotR(w, fuel, cxb, vis, env, st2, to, fld, tv, o);
    var st3 := ExecC(w, fuel, c3, st2).st;
    var st4 := ExecC(w, fuel, c4, st3).st;
    Finish(w, fuel, cx, cxb, vis, n, env, st, st4, o);
    Run4(w, fuel, CSet(to, co), CSet(tv, cr), c3, c4, RelCode(Fresh(cx, cxb)), st, st1, st2, st3, st4);
  }

  /** Replacing a strong slot: the old reference is released, the new one moves in. */
  lemma {:induction false} SlotR(w: World, fuel: nat, cx: Cx, vis: View, env: Env, st: CState, to: Name, fld: int,
          tv: Name, o: Watch)
    requires R(cx, vis, env, st, o, if Rd(st.vars, tv) == o.id then 1 else 0) && Watched(w, o)
    requires Live(Rd(st.vars, to), st, o)
    ensures var a, v := Rd(st.vars, to), Rd(st.vars, tv);
            var o3 := ExecC(w, fuel, CReleaseSlot(to, fld), st);
      && o3.CNorm?
      && var o4 := ExecC(w, fuel, CPutSlot(to, fld, CVar(tv), true), o3.st);
      && o4.CNorm? && o4.st.vars == st.vars
      && o4.st.tr == st.tr + [EStore(a, fld, w.field(st.tr, a, fld), v, true)]
      && R(cx, vis, env, o4.st, o, 0)
  {
    hide R, Own, Net, Backed;
    var a, v := Rd(st.vars, to), Rd(st.vars, tv);
    var was := w.field(st.tr, a, fld);
    var k := if v == o.id then 1 else 0;
    TouchR(cx, vis, env, st, a, o, k);
    var st0 := Touch(st, a);
    ShownLive(w, cx, vis, env, st0, a, fld, o, k);
    BumpR(cx, vis, env, st0, was, -1, o, k);
    StoreR(cx, vis, env, Bump(st0, was, -1), EStore(a, fld, was, v, true), o, k - if was == o.id then 1 else 0);
  }

  /** Four statements that go on, then the rest. */
  lemma {:induction false} Run4(w: World, fuel: nat, c1: CStmt, c2: CStmt, c3: CStmt, c4: CStmt, rest: seq<CStmt>,
             s0: CState, s1: CState, s2: CState, s3: CState, s4: CState)
    requires ExecC(w, fuel, c1, s0) == CNorm(s1) && ExecC(w, fuel, c2, s1) == CNorm(s2)
    requires ExecC(w, fuel, c3, s2) == CNorm(s3) && ExecC(w, fuel, c4, s3) == CNorm(s4)
    ensures ExecCs(w, fuel, [c1, c2, c3, c4] + rest, s0) == ExecCs(w, fuel, rest, s4)
  {
    hide ExecC;
    assert [c1, c2, c3, c4] + rest == [c1] + ([c2] + ([c3] + ([c4] + rest)));
    StepC(w, fuel, c1, [c2] + ([c3] + ([c4] + rest)), s0);
    StepC(w, fuel, c2, [c3] + ([c4] + rest), s1);
    StepC(w, fuel, c3, [c4] + rest, s2);
    StepC(w, fuel, c4, rest, s3);
  }

  lemma {:induction false} Run3(w: World, fuel: nat, c1: CStmt, c2: CStmt, c3: CStmt, rest: seq<CStmt>,
             s0: CState, s1: CState, s2: CState, s3: CState)
    requires ExecC(w, fuel, c1, s0) == CNorm(s1) && ExecC(w, fuel, c2, s1) == CNorm(s2)
    requires ExecC(w, fuel, c3, s2) == CNorm(s3)
    ensures ExecCs(w, fuel, [c1, c2, c3] + rest, s0) == ExecCs(w, fuel, rest, s3)
  {
    hide ExecC;
    assert [c1, c2, c3] + rest == [c1] + ([c2] + ([c3] + rest));
    StepC(w, fuel, c1, [c2] + ([c3] + rest), s0);
    StepC(w, fuel, c2, [c3] + rest, s1);
    StepC(w, fuel, c3, rest, s2);
  }

  lemma {:induction false} Run2(w: World, fuel: nat, c1: CStmt, c2: CStmt, rest: seq<CStmt>, s0: CState, s1: CState,
          s2: CState)
    requires ExecC(w, fuel, c1, s0) == CNorm(s1) && ExecC(w, fuel, c2, s1) == CNorm(s2)
    ensures ExecCs(w, fuel, [c1, c2] + rest, s0) == ExecCs(w, fuel, rest, s2)
  {
    hide ExecC;
    assert [c1, c2] + rest == [c1] + ([c2] + rest);
    StepC(w, fuel, c1, [c2] + rest, s0);
    StepC(w, fuel, c2, rest, s1);
  }

  lemma {:induction false} SimSetPlain(w: World, fuel: nat, obj: Expr, fld: int, rhs: Expr, cx: Cx, vis: View, n: nat,
          env: Env, st: CState, o: Watch)
    requires CxOk(cx, n) && VisOk(vis, n, cx.scopes) && GoodExpr(obj, vis) && IsRef(obj) && GoodExpr(rhs, vis)
    requires R(cx, vis, env, st, o, 0) && Watched(w, o)
    ensures var (code, cx1) := EmitSetPlain(obj, fld, rhs, cx);
            var (a, tr1) := EvalE(w, obj, env, st.tr);
            var (v, tr2) := EvalE(w, rhs, env, tr1);
            Went(ExecCs(w, fuel, code, st), cx, cx1, vis, vis, n, env,
                 tr2 + [EStore(a, fld, w.field(tr2, a, fld), v, false)], st, o)
  {
    hide R, ExB, Ex, EvalC, EvalE, GoodExpr, Backed, CxOk, Flat, Own, Net, VisOk, RelCode, ExecCs;
    var to := T(cx.tempc);
    RNextT(cx, vis, n, env, st, o, 0);
    IntoT(w, fuel, obj, false, cx.tempc, NextT(cx), vis, n, env, st, o, 0);
    var (co, cxa) := ExB(obj, NextT(cx));
    GrownT(cx, cxa);
    var st1 := ExecC(w, fuel, CSet(to, co), st).st;
    BorrowR(w, rhs, cxa, vis, n, env, st1, o, 0);
    var (cr, cxb) := ExB(rhs, cxa);
    FreshJoin(cx, cxa, cxb);
    var (v, st2) := EvalC(w, cr, st1);
    var a := Rd(st1.vars, to);
    var ev := EStore(a, fld, w.field(st2.tr, a, fld), v, false);
    TouchR(cxb, vis, env, st2, a, o, 0);
    StoreR(cxb, vis, env, Touch(st2, a), ev, o, 0);
    var st3 := Touch(st2, a).(tr := st2.tr + [ev]);
    Finish(w, fuel, cx, cxb, vis, n, env, st, st3, o);
    Run2(w, fuel, CSet(to, co), CPutSlot(to, fld, cr, false), RelCode(Fresh(cx, cxb)), st, st1, st3);
  }

  lemma {:induction false} SimSetElem(w: World, fuel: nat, arr: Expr, idx: Expr, ref: bool, rhs: Expr, cx: Cx,
          vis: View, n: nat, env: Env, st: CState, o: Watch)
    requires CxOk(cx, n) && VisOk(vis, n, cx.scopes)
    requires GoodExpr(arr, vis) && IsRef(arr) && GoodExpr(idx, vis) && GoodExpr(rhs, vis) && FitsRef(rhs, ref)
    requires R(cx, vis, env, st, o, 0) && Watched(w, o)
    ensures var (code, cx1) := EmitSetElem(arr, idx, ref, rhs, cx);
            var (a, tr1) := EvalE(w, arr, env, st.tr);
            var (i, tr2) := EvalE(w, idx, env, tr1);
            var (v, tr3) := EvalE(w, rhs, env, tr2);
            Went(ExecCs(w, fuel, code, st), cx, cx1, vis, vis, n, env,
                 tr3 + [EStore(a, i, w.elem(tr3, a, i), v, ref)], st, o)
  {
    hide R, ExB, Ex, EvalC, EvalE, GoodExpr, Backed, CxOk, Flat, RelCode, VisOk, Own, Net, ExecCs, ExecC, Grown, Fresh;
    var m := cx.tempc;
    var ta, ti, tv := T(m), T(m + 1), T(m + 2);
    var (ca, cxa) := ExB(arr, NextT(NextT(NextT(cx))));
    var (ci, cxb) := ExB(idx, cxa);
    var (cv, cxc) := ExB(rhs, cxb);
    var st1, st2, st3 := ElemArgs(w, fuel, arr, idx, ref, rhs, cx, vis, n, env, st, o);
    ElemStoreR(w, fuel, cxc, vis, env, st3, ta, ti, tv, ref, o);
    var st4 := ExecC(w, fuel, CArrSet(ta, ti, tv, ref), st3).st;
    Finish(w, fuel, cx, cxc, vis, n, env, st, st4, o);
    Run4(w, fuel, CSet(ta, ca), CSet(ti, ci), CSet(tv, cv), CArrSet(ta, ti, tv, ref),
         RelCode(Fresh(cx, cxc)), st, st1, st2, st3, st4);
  }

  /** Two expressions into two scratch temporaries, one after the other. */
  lemma {:induction false} IntoTwo(w: World, fuel: nat, a: Expr, b: Expr, m: nat, cx: Cx, vis: View, n: nat, env: Env,
          st: CState, o: Watch) returns (st1: CState, st2: CState)
    requires CxOk(cx, n) && VisOk(vis, n, cx.scopes) && GoodExpr(a, vis) && GoodExpr(b, vis)
    requires R(cx, vis, env, st, o, 0) && Watched(w, o)
    requires T(m) !in Flat(cx.scopes) && T(m + 1) !in Flat(cx.scopes)
    ensures var (ca, cxa) := ExB(a, cx);
            var (cb, cxb) := ExB(b, cxa);
            var (u, tr1) := EvalE(w, a, env, st.tr);
      && ExecC(w, fuel, CSet(T(m), ca), st) == CNorm(st1) && ExecC(w, fuel, CSet(T(m + 1), cb), st1) == CNorm(st2)
      && Rd(st2.vars, T(m)) == u && EvalE(w, b, env, tr1) == (Rd(st2.vars, T(m + 1)), st2.tr)
      && CxOk(cxb, n) && Grown(cx, cxb) && R(cxb, vis, env, st2, o, 0)
      && OnlyT(st.vars, st1.vars, T(m)) && OnlyT(st1.vars, st2.vars, T(m + 1))
      && Rd(st2.rc, o.id) >= Rd(st.rc, o.id) && (IsRef(b) ==> Live(Rd(st2.vars, T(m + 1)), st2, o))
  {
    hide R, ExB, Ex, EvalC, EvalE, GoodExpr, Backed, CxOk, Flat, RelCode, VisOk, Own, Net, ExecCs, Grown, Live, IsRef;
    IntoT(w, fuel, a, false, m, cx, vis, n, env, st, o, 0);
    var (ca, cxa) := ExB(a, cx);
    st1 := ExecC(w, fuel, CSet(T(m), ca), st).st;
    IntoT(w, fuel, b, false, m + 1, cxa, vis, n, env, st1, o, 0);
    var (cb, cxb) := ExB(b, cxa);
    st2 := ExecC(w, fuel, CSet(T(m + 1), cb), st1).st;
    FreshJoin(cx, cxa, cxb);
  }

  /** The array, the index and the value of an element store go into three temporaries. */
  lemma {:induction false} ElemArgs(w: World, fuel: nat, arr: Expr, idx: Expr, ref: bool, rhs: Expr, cx: Cx, vis: View,
          n: nat, env: Env, st: CState, o: Watch) returns (st1: CState, st2: CState, st3: CState)
    requires CxOk(cx, n) && VisOk(vis, n, cx.scopes)
    requires GoodExpr(arr, vis) && IsRef(arr) && GoodExpr(idx, vis) && GoodExpr(rhs, vis) && FitsRef(rhs, ref)
    requires R(cx, vis, env, st, o, 0) && Watched(w, o)
    ensures var ta, ti, tv := T(cx.tempc), T(cx.tempc + 1), T(cx.tempc + 2);
            var (ca, cxa) := ExB(arr, NextT(NextT(NextT(cx))));
            var (ci, cxb) := ExB(idx, cxa);
            var (cv, cxc) := ExB(rhs, cxb);
            var (a, tr1) := EvalE(w, arr, env, st.tr);
            var (i, tr2) := EvalE(w, idx, env, tr1);
            var (v, tr3) := EvalE(w, rhs, env, tr2);
      && ExecC(w, fuel, CSet(ta, ca), st) == CNorm(st1) && ExecC(w, fuel, CSet(ti, ci), st1) == CNorm(st2)
      && ExecC(w, fuel, CSet(tv, cv), st2) == CNorm(st3) && st3.tr == tr3
      && Rd(st3.vars, ta) == a && Rd(st3.vars, ti) == i && Rd(st3.vars, tv) == v
      && CxOk(cxc, n) && Grown(cx, cxc) && R(cxc, vis, env, st3, o, 0)
      && Frame(vis, n, cx.tempc, [], st.vars, st3.vars)
      && Live(a, st3, o) && (ref ==> Live(v, st3, o))
  {
    hide R, ExB, Ex, EvalC, EvalE, GoodExpr, Backed, CxOk, Flat, RelCode, VisOk, Own, Net, ExecCs, Grown, Frame;
    var m := cx.tempc;
    var cx0 := NextT(NextT(NextT(cx)));
    RThreeT(cx, vis, n, env, st, o);
    IntoT(w, fuel, arr, false, m, cx0, vis, n, env, st, o, 0);
    var (ca, cxa) := ExB(arr, cx0);
    st1 := ExecC(w, fuel, CSet(T(m), ca), st).st;
    st2, st3 := IntoTwo(w, fuel, idx, rhs, m + 1, cxa, vis, n, env, st1, o);
    var cxc := ExB(rhs, ExB(idx, cxa).1).1;
    ThreeT(cx, cxa, cxc, vis, n, st.vars, st1.vars, st2.vars, st3.vars);
  }

  lemma {:induction false} RThreeT(cx: Cx, vis: View, n: nat, env: Env, st: CState, o: Watch)
    requires CxOk(cx, n) && R(cx, vis, env, st, o, 0)
    ensures var cx0 := NextT(NextT(NextT(cx)));
      && CxOk(cx0, n) && R(cx0, vis, env, st, o, 0) && cx0.scopes == cx.scopes
      && T(cx.tempc) !in Flat(cx.scopes) && T(cx.tempc + 1) !in Flat(cx.scopes) && T(cx.tempc + 2) !in Flat(cx.scopes)
  {
    RNextT(cx, vis, n, env, st, o, 0);
    RNextT(NextT(cx), vis, n, env, st, o, 0);
    RNextT(NextT(NextT(cx)), vis, n, env, st, o, 0);
  }

  lemma {:induction false} ThreeT(cx: Cx, cxa: Cx, cxc: Cx, vis: View, n: nat, a: map<Name, Val>,
          b: map<Name, Val>, c: map<Name, Val>, d: map<Name, Val>)
    requires Grown(NextT(NextT(NextT(cx))), cxa) && Grown(cxa, cxc)
    requires OnlyT(a, b, T(cx.tempc)) && OnlyT(b, c, T(cx.tempc + 1)) && OnlyT(c, d, T(cx.tempc + 2))
    ensures Grown(cx, cxc) && Frame(vis, n, cx.tempc, [], a, d)
  {
    FreshJoin(NextT(NextT(NextT(cx))), cxa, cxc);
    GrownT(NextT(NextT(cx)), cxc);
    GrownT(NextT(cx), cxc);
    GrownT(cx, cxc);
  }

  /** vt_arr_set retains what it stores and releases what it replaces. */
  lemma {:induction false} ElemStoreR(w: World, fuel: nat, cxc: Cx, vis: View, env: Env, st: CState,
                   ta: Name, ti: Name, tv: Name, ref: bool, o: Watch)
    requires R(cxc, vis, env, st, o, 0) && Watched(w, o)
    requires Live(Rd(st.vars, ta), st, o) && (ref ==> Live(Rd(st.vars, tv), st, o))
    ensures var a, i, v := Rd(st.vars, ta), Rd(st.vars, ti), Rd(st.vars, tv);
            var out := ExecC(w, fuel, CArrSet(ta, ti, tv, ref), st);
      && out.CNorm? && out.st.vars == st.vars
      && out.st.tr == st.tr + [EStore(a, i, w.elem(st.tr, a, i), v, ref)]
      && R(cxc, vis, env, out.st, o, 0)
  {
    hide R, Own, Net, Backed;
    var a, i, v := Rd(st.vars, ta), Rd(st.vars, ti), Rd(st.vars, tv);
    var was := w.elem(st.tr, a, i);
    var ev := EStore(a, i, was, v, ref);
    var k := if v == o.id then 1 else 0;
    TouchR(cxc, vis, env, st, a, o, 0);
    var st0 := Touch(st, a);
    if ref {
      BumpR(cxc, vis, env, st0, v, 1, o, 0);
      ShownLive(w, cxc, vis, env, Bump(st0, v, 1), a, i, o, k);
      BumpR(cxc, vis, env, Bump(st0, v, 1), was, -1, o, k);
      StoreR(cxc, vis, env, Bump(Bump(st0, v, 1), was, -1), ev, o, k - if was == o.id then 1 else 0);
    } else {
      StoreR(cxc, vis, env, st0, ev, o, 0);
    }
  }

  /** A condition ends up in its scratch temporary, with nothing pending. */
  lemma {:induction false} SimCond(w: World, fuel: nat, cond: Expr, cx: Cx, vis: View, n: nat, env: Env, st: CState,
          o: Watch)
    requires CxOk(cx, n) && VisOk(vis, n, cx.scopes) && GoodExpr(cond, vis)
    requires R(cx, vis, env, st, o, 0) && Watched(w, o)
    ensures var (code, cx1) := EmitCond(cond, cx);
            var (v, tr1) := EvalE(w, cond, env, st.tr);
            var out := ExecCs(w, fuel, code, st);
      && Went(out, cx, cx1, vis, vis, n, env, tr1, st, o)
      && Rd(out.st.vars, T(cx.tempc)) == v
      && CxOk(cx1, n) && cx1.temps == cx.temps && cx1.loopc == cx.loopc && cx.tempc < cx1.tempc
  {
    hide R, ExB, Ex, EvalC, EvalE, GoodExpr, Backed;
    var t := T(cx.tempc);
    RNextT(cx, vis, n, env, st, o, 0);
    IntoT(w, fuel, cond, false, cx.tempc, NextT(cx), vis, n, env, st, o, 0);
    var (c, cxe) := ExB(cond, NextT(cx));
    GrownT(cx, cxe);
    var st1 := ExecC(w, fuel, CSet(t, c), st).st;
    Finish(w, fuel, cx, cxe, vis, n, env, st, st1, o);
    CxNotS(cxe, n);
    FlushR(w, fuel, cx, cxe, vis, n, env, st1, o, 0);
    StepC(w, fuel, CSet(t, c), RelCode(Fresh(cx, cxe)), st);
    CxOkCut(cx, cxe, n);
  }

  lemma {:induction false} CxOkCut(cx: Cx, cx1: Cx, n: nat)
    requires CxOk(cx1, n) && cx.temps <= cx1.temps
    ensures CxOk(cx1.(temps := cx.temps), n)
  {
    assert forall i :: 0 <= i < |cx.temps| ==> cx1.temps[i] == cx.temps[i];
  }

  // ---------------------------------------------------------------- ways out

  ghost predicate Jumped(cx: Cx, vis: View, n: nat, env1: Env, tr1: Trace, st: CState, st1: CState, o: Watch) {
    && st1.tr == tr1
    && (forall x :: x in vis && L(x) !in JumpNames(cx.scopes) ==> Rd(st1.vars, L(x)) == Rd(env1, x))
    && Clear(st1.vars, cx.temps)
    && Net(st1, o) == Own(Flat(Below(cx.scopes)), st1.vars, o) + Own(cx.temps, st1.vars, o)
    && Frame(vis, n, cx.tempc, JumpNames(cx.scopes), st.vars, st1.vars)
    && Safe(vis, env1, st1, o)
  }

  lemma {:induction false} SimJump(w: World, fuel: nat, cx: Cx, vis: View, n: nat, env: Env, st: CState, o: Watch)
    requires CxOk(cx, n) && HasLoop(cx.scopes) && R(cx, vis, env, st, o, 0) && o.id != 0
    ensures var out := ExecCs(w, fuel, JumpCode(cx.scopes), st);
            out.CNorm? && Jumped(cx, vis, n, env, st.tr, st, out.st, o)
  {
    JumpExec(w, fuel, cx.scopes, st, o);
    var names, rest := JumpNames(cx.scopes), Flat(Below(cx.scopes));
    var st1 := ExecCs(w, fuel, JumpCode(cx.scopes), st).st;
    DistinctParts(names, rest);
    OwnAppend(names, rest, st.vars, o);
    OwnSame(rest, st.vars, st1.vars, o);
    forall x | x in cx.temps ensures x !in names {
      CxNotS(cx, n);
      TempsNoFlat(cx, n, x);
    }
    OwnSame(cx.temps, st.vars, st1.vars, o);
  }

  lemma {:induction false} TempsNoFlat(cx: Cx, n: nat, x: Name)
    requires CxOk(cx, n) && x in cx.temps
    ensures x.S? && x !in Flat(cx.scopes)
  {
    assert forall i :: 0 <= i < |cx.temps| ==> SpillIn(cx.temps[i], 0, cx.tempc);
    assert forall y :: y in Flat(cx.scopes) ==> NameOk(y, n, cx.tempc);
  }

  /** Leaving the function: every owned name and every pending temporary is released. */
  lemma {:induction false} SimLeave(w: World, fuel: nat, cx: Cx, vis: View, n: nat, env: Env, st: CState, o: Watch,
          k: nat, x: Option<Name>)
    requires CxOk(cx, n) && R(cx, vis, env, st, o, k) && o.id != 0
    requires x.Some? ==> !x.value.S? && x.value !in Flat(cx.scopes)
    ensures var out := ExecCs(w, fuel, RelCode(cx.temps) + ReturnCode(cx.scopes) + [CReturn(x)], st);
      && out.CRet? && out.st.tr == st.tr && Net(out.st, o) == k
      && out.v == (if x.Some? then Rd(st.vars, x.value) else 0) && Unhurt(out.st, o)
  {
    TempsDistinct(cx.temps, cx.tempc);
    RelExec(w, fuel, cx.temps, st, o);
    var st1 := ExecCs(w, fuel, RelCode(cx.temps), st).st;
    forall y | y in Flat(cx.scopes) ensures Rd(st1.vars, y) == Rd(st.vars, y) {
      CxNotS(cx, n);
      if y in cx.temps { TempsNoFlat(cx, n, y); }
    }
    OwnSame(Flat(cx.scopes), st.vars, st1.vars, o);
    ReturnExec(w, fuel, cx.scopes, st1, o);
    var st2 := ExecCs(w, fuel, ReturnCode(cx.scopes), st1).st;
    if x.Some? && x.value in cx.temps { TempsNoFlat(cx, n, x.value); }
    ExecApp(w, fuel, RelCode(cx.temps), ReturnCode(cx.scopes), st);
    ExecApp(w, fuel, RelCode(cx.temps) + ReturnCode(cx.scopes), [CReturn(x)], st);
    RunOne(w, fuel, CReturn(x), st2);
  }

  lemma {:induction false} SimReturn(w: World, fuel: nat, ret: Option<Expr>, rt: RetType, cx: Cx, vis: View, n: nat,
          env: Env, st: CState, o: Watch)
    requires CxOk(cx, n) && VisOk(vis, n, cx.scopes) && R(cx, vis, env, st, o, 0) && Watched(w, o)
    requires ret.Some? == rt.Some? && (ret.Some? ==> GoodExpr(ret.value, vis) && FitsRef(ret.value, rt.value))
    ensures var out := ExecCs(w, fuel, EmitReturn(ret, rt, cx).0, st);
            var (v, tr1) := if ret.Some? then EvalE(w, ret.value, env, st.tr) else (0, st.tr);
            out.CRet? && out.v == v && out.st.tr == tr1 && Unhurt(out.st, o)
                && Net(out.st, o) == if rt == Some(true) && v == o.id then 1 else 0
  {
    hide Net, Own, EvalE, EvalC, ExFor;
    if ret.Some? {
      var t := T(cx.tempc);
      CxOkNextT(cx, n);
      OwnR(w, ret.value, rt.value, NextT(cx), vis, n, env, st, o, 0);
      var (c, cxe) := ExFor(ret.value, rt.value, NextT(cx));
      GrownT(cx, cxe);
      var (v, st1) := EvalC(w, c, st);
      var k := if rt.value && v == o.id then 1 else 0;
      TempsNoLT(cxe, n, t);
      PutR(cxe, vis, env, st1, t, v, o, k);
      var st2 := Put(st1, t, v);
      CxNotS(cxe, n);
      FlushR(w, fuel, cx, cxe, vis, n, env, st2, o, k);
      var fl := RelCode(Fresh(cx, cxe));
      var st3 := ExecCs(w, fuel, fl, st2).st;
      CxOkCut(cx, cxe, n);
      SimLeave(w, fuel, cxe.(temps := cx.temps), vis, n, env, st3, o, k, Some(t));
      var tail := RelCode(cx.temps) + ReturnCode(cx.scopes) + [CReturn(Some(t))];
      ExecApp(w, fuel, fl, tail, st2);
      assert [CSet(t, c)] + fl + tail == [CSet(t, c)] + (fl + tail);
      StepC(w, fuel, CSet(t, c), fl + tail, st);
    } else {
      SimLeave(w, fuel, cx, vis, n, env, st, o, 0, None);
    }
  }
}
