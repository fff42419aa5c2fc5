/** The theorem about whole functions: the emitted C has the source's trace and result, and
    leaves every object's count as it found it, one returned reference apart. */
module EmitTheorem {
  import opened Basics
  import opened VytoLang
  import opened CTarget
  import opened EmitSpec
  import opened EmitExpr
  import opened EmitShape
  import opened EmitRun
  import opened EmitSteps
  import opened EmitSim
  import opened EmitMain
  import EmitLabels
  import ReturnPaths

  function ParamKind(p: Param): Kind {
    if !p.ref then Value else if p.written then Owned else Lent
  }

  function ParamView(ps: seq<Param>): View {
    map i: nat | i < |ps| :: ParamKind(ps[i])
  }

  /** Parameters are numbered 0.., locals go on from there; every name is used as declared,
      and a reference parameter that the body assigns is marked as such. */
  predicate GoodFn(ps: seq<Param>, body: seq<Stmt>, rt: RetType) {
    GoodAll(body, ParamView(ps), |ps|, false, rt)
  }

  /** Change of an object's count between two states that the stores in between do not explain. */
  ghost function Gain(st: CState, st1: CState, id: Val): int {
    (Rd(st1.rc, id) - Rd(st.rc, id)) - (HeapNet(st1.tr, id) - HeapNet(st.tr, id))
  }

  ghost predicate FnMatch(out: Out, cout: COut, rt: RetType, st: CState, id: Val) {
    match out
    case Timeout => cout.CTimeout?
    case Norm(_, tr1) =>
      && (if rt.Some? then cout.CRet? && cout.v == 0 else cout.CNorm?)
      && cout.st.tr == tr1 && Gain(st, cout.st, id) == 0
    case Ret(v, tr1) =>
      && cout.CRet? && cout.v == v && cout.st.tr == tr1
      && Gain(st, cout.st, id) == if rt == Some(true) && v == id then 1 else 0
    case Panicked(tr1) => cout.CPanicked? && cout.st.tr == tr1
    case _ => false
  }

  ghost predicate TakenAt(ps: seq<Param>, i: nat, x: Name) {
    x.L? && i <= x.n < |ps| && ps[x.n].ref && ps[x.n].written
  }

  lemma {:induction false} OwnedAre(ps: seq<Param>, i: nat)
    requires i <= |ps|
    ensures forall x :: x in OwnedParams(ps, i) <==> TakenAt(ps, i, x)
    ensures Distinct(OwnedParams(ps, i))
    decreases |ps| - i
  {
    if i < |ps| {
      OwnedAre(ps, i + 1);
      var rest := OwnedParams(ps, i + 1);
      if ps[i].ref && ps[i].written {
        assert OwnedParams(ps, i) == [L(i)] + rest;
        assert !TakenAt(ps, i + 1, L(i));
        forall x ensures x in [L(i)] + rest <==> TakenAt(ps, i, x) {
          assert x in [L(i)] + rest <==> x == L(i) || x in rest;
        }
        DistinctCons(L(i), rest);
      } else {
        assert OwnedParams(ps, i) == rest;
        forall x ensures TakenAt(ps, i, x) <==> TakenAt(ps, i + 1, x) {
        }
      }
    }
  }

  lemma {:induction false} RetainRun(w: World, fuel: nat, names: seq<Name>, st: CState, o: Watch)
    requires o.id != 0
    ensures var out := ExecCs(w, fuel, RetainCode(names), st);
      && out.CNorm? && out.st.vars == st.vars && out.st.tr == st.tr
      && Net(out.st, o) == Net(st, o) + Own(names, st.vars, o)
      && ((forall x :: x in names ==> Live(Rd(st.vars, x), st, o)) ==> Spared(st, out.st, o))
    decreases |names|
  {
    if names != [] {
      assert names[0] in names && forall x :: x in names[1..] ==> x in names;
      var st1 := Bump(st, Rd(st.vars, names[0]), 1);
      BumpNet(st, Rd(st.vars, names[0]), 1, o);
      StepC(w, fuel, CRetainVar(names[0]), RetainCode(names[1..]), st);
      RetainRun(w, fuel, names[1..], st1, o);
    }
  }

  lemma {:induction false} StartOk(ps: seq<Param>, env: Env, st: CState)
    requires forall i :: 0 <= i < |ps| ==> Rd(st.vars, L(i)) == Rd(env, i)
    requires ClearFrom(st.vars, 0)
    ensures var cx := Cx([PLAIN.(names := OwnedParams(ps, 0))], [], 0, 0);
      && Ready(cx, ParamView(ps), |ps|, false) && Flat(cx.scopes) == OwnedParams(ps, 0)
      && Agree(ParamView(ps), env, st.vars) && Clear(st.vars, [])
  {
    hide OwnedParams, Flat, TakenAt;
    var owned := OwnedParams(ps, 0);
    OwnedAre(ps, 0);
    var cx := Cx([PLAIN.(names := owned)], [], 0, 0);
    FlatOne(PLAIN.(names := owned));
    StartNames(ps, owned);
  }

  lemma {:induction false} StartNames(ps: seq<Param>, owned: seq<Name>)
    requires forall x :: x in owned <==> TakenAt(ps, 0, x)
    ensures forall x :: x in ParamView(ps) ==> x < |ps| && (L(x) in owned <==> ParamView(ps)[x].Owned?)
    ensures forall x :: x in owned ==> NameOk(x, |ps|, 0)
  {
  }

  lemma {:induction false} FlatOne(s: Scope)
    ensures Flat([s]) == s.names
  {
    assert [s][1..] == [];
    assert Flat([s]) == s.names + Flat([]);
  }

  /** Does the caller lend a reference to `id`? */
  ghost predicate Lends(ps: seq<Param>, env: Env, id: Val) {
    exists i: nat :: i < |ps| && ps[i].ref && Rd(env, i) == id
  }

  /** The count of `id` in `st`, moved by the stores that `tr` has made since. */
  ghost function CountAt(st: CState, id: Val, tr: Trace): int {
    Rd(st.rc, id) + HeapNet(tr, id) - HeapNet(st.tr, id)
  }

  /** The caller counts what it lends, and a slot shows the object only while somebody other than the
      function and that loan counts it. */
  ghost predicate Sheltered(w: World, ps: seq<Param>, env: Env, st: CState, id: Val) {
    var lent := if Lends(ps, env, id) then 1 else 0;
    && Rd(st.rc, id) >= lent
    && forall tr, obj, i :: w.field(tr, obj, i) == id || w.elem(tr, obj, i) == id ==> CountAt(st, id, tr) > lent
  }

  /** For every body the checker accepts, every world, every budget of loop iterations and
      every object: compiled and source runs end the same way with the same trace, and the
      object's count has moved only by what the heap gained and by the returned reference.  Where the
      object is sheltered, no run, however it ends or is cut short, retains it, releases it or follows
      a reference to it once it is dead. */
  lemma {:induction false} EmittedFunctionIsFaithful(w: World, fuel: nat, ps: seq<Param>, body: seq<Stmt>, rt: RetType,
                                  env: Env, st: CState, id: Val)
    requires !w.strict && GoodFn(ps, body, rt) && id != 0
    requires forall i :: 0 <= i < |ps| ==> Rd(st.vars, L(i)) == Rd(env, i)
    requires ClearFrom(st.vars, 0)
    ensures FnMatch(ExecAll(w, fuel, body, env, st.tr), ExecCs(w, fuel, EmitFn(ps, body, rt), st), rt, st, id)
    ensures Sheltered(w, ps, env, st, id) && id !in st.hurt ==>
      id !in ExecCs(w, fuel, EmitFn(ps, body, rt), st).st.hurt
  {
    hide ExecCs, EmitFn, GoodFn, HeapNet, FnMatch, ExecAll;
    var sound := Sheltered(w, ps, env, st, id) && id !in st.hurt;
    var o := Watch(id, Rd(st.rc, id) - HeapNet(st.tr, id), if Lends(ps, env, id) then 1 else 0, sound);
    FnSim(w, fuel, ps, body, rt, env, st, o);
  }

  /** What is ruled out: for `x = x` with one reference, releasing before taking meets a dead object. */
  lemma {:induction false} ReleaseFirstHurts(w: World, fuel: nat, x: nat, t: Name, st: CState)
    requires var v := Rd(st.vars, L(x)); v != 0 && Rd(st.rc, v) == 1
    ensures var code := [CReleaseKeep(L(x)), CSet(t, CRetain(CVar(L(x)))), CSet(L(x), CVar(t))];
            var out := ExecCs(w, fuel, code, st);
            out.CNorm? && Rd(st.vars, L(x)) in out.st.hurt
  {
    var c1, c2, c3 := CReleaseKeep(L(x)), CSet(t, CRetain(CVar(L(x)))), CSet(L(x), CVar(t));
    var st1 := ExecC(w, fuel, c1, st).st;
    var st2 := ExecC(w, fuel, c2, st1).st;
    var v := Rd(st.vars, L(x));
    assert st1 == Bump(st, v, -1) && Rd(st1.rc, v) == 0 && Rd(st1.vars, L(x)) == v;
    assert EvalC(w, CVar(L(x)), st1) == (v, st1);
    assert EvalC(w, CRetain(CVar(L(x))), st1) == (v, Bump(st1, v, 1));
    assert v in Bump(st1, v, 1).hurt && st2 == Put(Bump(st1, v, 1), t, v);
    RunOne(w, fuel, c3, st2);
    StepC(w, fuel, c2, [c3], st1);
    StepC(w, fuel, c1, [c2, c3], st);
    assert [c1] + [c2, c3] == [c1, c2, c3] && [c2] + [c3] == [c2, c3];
  }

  ghost predicate Trusted(ps: seq<Param>, env: Env, st: CState, o: Watch) {
    o.sound ==> o.id !in st.hurt && Rd(st.rc, o.id) >= o.lent && (Lends(ps, env, o.id) ==> o.lent > 0)
  }

  lemma {:induction false} FnSim(w: World, fuel: nat, ps: seq<Param>, body: seq<Stmt>, rt: RetType, env: Env,
          st: CState, o: Watch)
    requires !w.strict && GoodFn(ps, body, rt) && Watched(w, o) && Trusted(ps, env, st, o)
    requires o.base == Rd(st.rc, o.id) - HeapNet(st.tr, o.id)
    requires forall i :: 0 <= i < |ps| ==> Rd(st.vars, L(i)) == Rd(env, i)
    requires ClearFrom(st.vars, 0)
    ensures var cout := ExecCs(w, fuel, EmitFn(ps, body, rt), st);
            FnMatch(ExecAll(w, fuel, body, env, st.tr), cout, rt, st, o.id) && Unhurt(cout.st, o)
  {
    hide ExecCs, ExecAll, EmitAll, GoodAll, CxOk, RelCode, RetainCode, Backed;
    var owned := OwnedParams(ps, 0);
    var cx := Cx([PLAIN.(names := owned)], [], 0, 0);
    StartOk(ps, env, st);
    RetainRun(w, fuel, owned, st, o);
    var st1 := ExecCs(w, fuel, RetainCode(owned), st).st;
    StartSafe(ps, env, st, st1, o);
    SimAll(w, fuel, body, rt, cx, ParamView(ps), |ps|, false, env, st1, o);
    FnClose(w, fuel, ps, body, rt, cx, env, st, st1, o);
  }

  /** The parameters to be retained are alive, and the lent ones stay so. */
  lemma {:induction false} StartSafe(ps: seq<Param>, env: Env, st: CState, st1: CState, o: Watch)
    requires Trusted(ps, env, st, o) && o.base == Rd(st.rc, o.id) - HeapNet(st.tr, o.id)
    requires forall i :: 0 <= i < |ps| ==> Rd(st.vars, L(i)) == Rd(env, i)
    requires st1.tr == st.tr
    requires (forall x :: x in OwnedParams(ps, 0) ==> Live(Rd(st.vars, x), st, o)) ==> Spared(st, st1, o)
    ensures Safe(ParamView(ps), env, st1, o)
  {
    hide OwnedParams;
    OwnedAre(ps, 0);
    forall x | x in OwnedParams(ps, 0) ensures Live(Rd(st.vars, x), st, o) {
      assert TakenAt(ps, 0, x);
    }
    forall x | x in ParamView(ps) && ParamView(ps)[x].Lent? && Rd(env, x) == o.id
      ensures o.sound ==> o.lent > 0
    {
    }
  }

  lemma {:induction false} RunParts(w: World, fuel: nat, a: seq<CStmt>, b: seq<CStmt>, c: seq<CStmt>, d: seq<CStmt>,
          st: CState, st1: CState)
    requires ExecCs(w, fuel, a, st) == CNorm(st1)
    ensures ExecCs(w, fuel, a + b + c + d, st) == Then(w, fuel, Then(w, fuel, ExecCs(w, fuel, b, st1), c), d)
  {
    hide ExecC;
    ExecApp(w, fuel, a, b, st);
    ExecApp(w, fuel, a + b, c, st);
    ExecApp(w, fuel, a + b + c, d, st);
  }

  lemma {:induction false} FnClose(w: World, fuel: nat, ps: seq<Param>, body: seq<Stmt>, rt: RetType, cx: Cx, env: Env,
                st: CState, st1: CState, o: Watch)
    requires cx == Cx([PLAIN.(names := OwnedParams(ps, 0))], [], 0, 0) && Ready(cx, ParamView(ps), |ps|, false)
    requires GoodFn(ps, body, rt) && Watched(w, o) && o.base == Rd(st.rc, o.id) - HeapNet(st.tr, o.id)
    requires ExecCs(w, fuel, RetainCode(OwnedParams(ps, 0)), st) == CNorm(st1) && st1.tr == st.tr
    requires var (code, cx1) := EmitAll(body, rt, cx);
             Match(ExecAll(w, fuel, body, env, st1.tr), ExecCs(w, fuel, code, st1), cx, cx1, ParamView(ps),
                 ParamView(ps), |ps|, rt, st1, o)
    ensures var cout := ExecCs(w, fuel, EmitFn(ps, body, rt), st);
            FnMatch(ExecAll(w, fuel, body, env, st.tr), cout, rt, st, o.id) && Unhurt(cout.st, o)
  {
    hide Backed, ExecC, ExecCs, ExecAll, EmitAll, GoodAll, CxOk, RelCode, RetainCode, Frame, Jumped, Own, Flat,
      OwnedParams;
    var (code, cx1) := EmitAll(body, rt, cx);
    AllShape(body, rt, cx, ParamView(ps), |ps|, false);
    var n := NextNames(body, |ps|);
    CxOkEvolves(cx, cx1, |ps|, n);
    var last := if rt.Some? then [CReturn(None)] else [];
    RunParts(w, fuel, RetainCode(OwnedParams(ps, 0)), code, RelCode(cx1.scopes[0].names), last, st, st1);
    assert !HasLoop(cx.scopes);
    if ExecAll(w, fuel, body, env, st.tr).Norm? {
      assert cx1.scopes == [cx1.scopes[0]];
      FlatOne(cx1.scopes[0]);
      FnLast(w, fuel, cx1, n, rt, ExecCs(w, fuel, code, st1).st, o);
    }
  }

  /** Falling off the end releases the owned parameters; a value function then returns a
      dead zero. */
  lemma {:induction false} FnLast(w: World, fuel: nat, cx1: Cx, n: nat, rt: RetType, st: CState, o: Watch)
    requires CxOk(cx1, n) && cx1.temps == [] && Flat(cx1.scopes) == cx1.scopes[0].names && o.id != 0
    requires Net(st, o) == Own(Flat(cx1.scopes), st.vars, o) + Own(cx1.temps, st.vars, o)
    requires Unhurt(st, o) && (o.sound ==> Others(st.tr, o) >= 0)
    ensures var last := if rt.Some? then [CReturn(None)] else [];
            var out := ExecCs(w, fuel, RelCode(cx1.scopes[0].names), st);
      && out.CNorm? && out.st.tr == st.tr && Net(out.st, o) == 0 && Unhurt(out.st, o)
      && ExecCs(w, fuel, last, out.st) == if rt.Some? then CRet(0, out.st) else CNorm(out.st)
  {
    RelExec(w, fuel, cx1.scopes[0].names, st, o);
    var st1 := ExecCs(w, fuel, RelCode(cx1.scopes[0].names), st).st;
    RunOne(w, fuel, CReturn(None), st1);
  }

  /** When the checker also accepted the body's return paths, the dead return at the end of a
      value function is dead: whatever the compiled function returns, the source returned. */
  lemma {:induction false} CompiledResultIsSourceResult(w: World, fuel: nat, ps: seq<Param>, body: seq<Stmt>, ref: bool,
          env: Env, st: CState)
    requires w.strict && GoodFn(ps, body, Some(ref)) && ReturnPaths.StmtsReturn(body)
    requires !ExecAll(w, fuel, body, env, st.tr).Stray?
    requires forall i :: 0 <= i < |ps| ==> Rd(st.vars, L(i)) == Rd(env, i)
    requires ClearFrom(st.vars, 0)
    ensures var cout := ExecCs(ReturnPaths.Lax(w), fuel, EmitFn(ps, body, Some(ref)), st);
      && (cout.CRet? ==> ExecAll(w, fuel, body, env, st.tr) == Ret(cout.v, cout.st.tr))
      && (cout.CRet? || cout.CPanicked? || cout.CTimeout?)
  {
    hide ExecCs, ExecAll, EmitFn, GoodAll;
    ReturnPaths.AcceptedNeverFallsThrough(w, fuel, body, env, st.tr);
    ReturnPaths.ExecLax(w, fuel, body, env, st.tr);
    EmittedFunctionIsFaithful(ReturnPaths.Lax(w), fuel, ps, body, Some(ref), env, st, 1);
  }

  lemma {:induction false} RetainFlat(names: seq<Name>)
    ensures EmitLabels.Flat1(RetainCode(names))
  {
    if names != [] { RetainFlat(names[1..]); }
  }

  /** C accepts the function: no label is placed twice. */
  lemma {:induction false} EachLabelOnce(ps: seq<Param>, body: seq<Stmt>, rt: RetType)
    requires GoodFn(ps, body, rt)
    ensures var ls := EmitLabels.Labels(EmitFn(ps, body, rt));
            forall i, j :: 0 <= i < j < |ls| ==> ls[i] != ls[j]
  {
    hide EmitAll, GoodAll, RetainCode, RelCode, OwnedParams, EmitLabels.Labels;
    var owned := OwnedParams(ps, 0);
    var cx := Cx([PLAIN.(names := owned)], [], 0, 0);
    var (code, cx1) := EmitAll(body, rt, cx);
    EmitLabels.AllLabels(body, rt, cx, ParamView(ps), |ps|, false);
    var rel := RelCode(cx1.scopes[0].names);
    var last := if rt.Some? then [CReturn(None)] else [];
    RetainFlat(owned);
    EmitLabels.RelFlat(cx1.scopes[0].names);
    EmitLabels.OnlyMiddle(RetainCode(owned), code, rel + last);
    assert RetainCode(owned) + code + (rel + last) == RetainCode(owned) + code + rel + last;
  }
}
