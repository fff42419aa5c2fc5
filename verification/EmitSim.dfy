/** The emitted program does what the source does, step for step, and every exit pays back
    exactly the counts that were taken. */
module EmitSim {
  import opened Basics
  import opened VytoLang
  import opened CTarget
  import opened EmitSpec
  import opened EmitExpr
  import opened EmitShape
  import opened EmitRun
  import opened EmitSteps

  /** How the compiled statement ends when the source one ends with `out`.  A source break is
      a C break, or a goto to the loop's label when a switch is in the way. */
  ghost predicate Match(out: Out, cout: COut, cx: Cx, cx1: Cx, vis: View, vis1: View, n: nat, rt: RetType, st: CState,
          o: Watch) {
    match out
    case Timeout => cout.CTimeout? && Unhurt(cout.st, o)
    case Stray => false
    case Norm(env1, tr1) => Went(cout, cx, cx1, vis, vis1, n, env1, tr1, st, o)
    case Brk(env1, tr1) =>
      && HasLoop(cx.scopes) && BrkExit(cout, cx, cx1)
      && Jumped(cx, vis, n, env1, tr1, st, cout.st, o)
    case Cont(env1, tr1) =>
      && HasLoop(cx.scopes) && cout.CCont?
      && Jumped(cx, vis, n, env1, tr1, st, cout.st, o)
    case Ret(v, tr1) =>
      && cout.CRet? && cout.v == v && cout.st.tr == tr1 && Unhurt(cout.st, o)
      && Net(cout.st, o) == if rt == Some(true) && v == o.id then 1 else 0
    case Panicked(tr1) => cout.CPanicked? && cout.st.tr == tr1 && Unhurt(cout.st, o)
  }

  ghost predicate BrkExit(cout: COut, cx: Cx, cx1: Cx)
    requires HasLoop(cx.scopes)
  {
    || (cout.CBrk? && !Crossed(cx.scopes))
    || (cout.CGo? && cout.l == LoopOf(cx.scopes).loopId && HasLoop(cx1.scopes) && LoopOf(cx1.scopes).needsLabel)
  }

  // ---------------------------------------------------------------- quiet changes

  /** Where no scope gains a name, nothing the relation reads changes. */
  lemma {:induction false} QuietFacts(cx: Cx, cx1: Cx, n: nat)
    requires cx.scopes != [] && cx1.scopes != [] && Quiet(cx, cx1) && CxOk(cx, n)
    ensures CxOk(cx1, n) && Flat(cx1.scopes) == Flat(cx.scopes)
    ensures HasLoop(cx.scopes) == HasLoop(cx1.scopes) && Crossed(cx.scopes) == Crossed(cx1.scopes)
    ensures JumpNames(cx.scopes) == JumpNames(cx1.scopes)
    ensures Flat(Below(cx.scopes)) == Flat(Below(cx1.scopes))
    ensures HasLoop(cx.scopes) ==>
      (LoopOf(cx.scopes).loopId == LoopOf(cx1.scopes).loopId &&
       (LoopOf(cx.scopes).needsLabel ==> LoopOf(cx1.scopes).needsLabel))
  {
    KeptFacts(cx.scopes, cx1.scopes);
    LoopsKept(cx.scopes, cx1.scopes, cx.loopc, cx1.loopc);
  }

  /** A match seen from a quiet distance before and after. */
  lemma {:induction false} MatchQuiet(out: Out, cout: COut, cx: Cx, cxa: Cx, cxb: Cx, cx1: Cx, vis: View, n: nat,
          m: nat,
                   rt: RetType, st: CState, o: Watch)
    requires cx.scopes != [] && cxa.scopes != [] && cxb.scopes != [] && cx1.scopes != []
    requires Quiet(cx, cxa) && Quiet(cxa, cxb) && Quiet(cxb, cx1) && CxOk(cx, n) && n <= m
    requires Match(out, cout, cxa, cxb, vis, vis, m, rt, st, o)
    ensures Match(out, cout, cx, cx1, vis, vis, n, rt, st, o)
  {
    hide R, Own, Net;
    QuietFacts(cx, cxa, n);
    QuietFacts(cxa, cxb, n);
    QuietFacts(cxb, cx1, n);
    if out.Norm? { QuietR(cxb, cx1, vis, out.env, cout.st, o, 0); }
    if out.Brk? || out.Cont? { JumpedQuiet(cx, cxa, vis, n, m, out.env, out.tr, st, cout.st, o); }
  }

  lemma {:induction false} QuietR(cx: Cx, cx1: Cx, vis: View, env: Env, st: CState, o: Watch, k: int)
    requires Flat(cx.scopes) == Flat(cx1.scopes) && cx.temps == cx1.temps
    ensures R(cx, vis, env, st, o, k) == R(cx1, vis, env, st, o, k)
  {
  }

  lemma {:induction false} JumpedQuiet(cx: Cx, cxa: Cx, vis: View, n: nat, m: nat, env1: Env, tr1: Trace, st: CState,
          st1: CState, o: Watch)
    requires JumpNames(cx.scopes) == JumpNames(cxa.scopes) && Flat(Below(cx.scopes)) == Flat(Below(cxa.scopes))
    requires cx.temps == cxa.temps && cx.tempc <= cxa.tempc && n <= m
    requires Jumped(cxa, vis, m, env1, tr1, st, st1, o)
    ensures Jumped(cx, vis, n, env1, tr1, st, st1, o)
  {
  }

  // ---------------------------------------------------------------- sequences

  lemma {:induction false} FrameJoin(vis: View, n: nat, tempc: nat, vis1: View, n1: nat, tempc1: nat, names: seq<Name>,
          names1: seq<Name>,
                  a: map<Name, Val>, b: map<Name, Val>, c: map<Name, Val>)
    requires Frame(vis, n, tempc, [], a, b) && Frame(vis1, n1, tempc1, names1, b, c)
    requires n <= n1 && tempc <= tempc1 && (forall x :: x in vis1 ==> x in vis || n <= x)
    requires forall x :: x in names1 ==> x in names || BinderIn(x, n, n1)
    ensures Frame(vis, n, tempc, names, a, c)
  {
    forall x: Name | Hidden(x, vis, n, tempc) && x !in names ensures Rd(a, x) == Rd(c, x) {
      assert Hidden(x, vis1, n1, tempc1) && x !in names1;
    }
  }

  /** A jump out of a later statement is a jump out of the whole list. */
  lemma {:induction false} JumpedLater(cx: Cx, cx1: Cx, vis: View, vis1: View, n: nat, n1: nat, env2: Env, tr2: Trace,
                    st: CState, st1: CState, st2: CState, o: Watch)
    requires Evolves(cx, cx1, n, n1) && HasLoop(cx.scopes)
    requires forall x :: x in vis ==> x in vis1 && vis1[x] == vis[x] && x < n
    requires forall x :: x in vis1 ==> x in vis || n <= x
    requires Frame(vis, n, cx.tempc, [], st.vars, st1.vars)
    requires Jumped(cx1, vis1, n1, env2, tr2, st1, st2, o)
    ensures Jumped(cx, vis, n, env2, tr2, st, st2, o)
  {
    hide Own, Net;
    EvolvesFacts(cx, cx1, n, n1);
    FrameJoin(vis, n, cx.tempc, vis1, n1, cx1.tempc, JumpNames(cx.scopes), JumpNames(cx1.scopes), st.vars, st1.vars,
        st2.vars);
    forall x | x in vis && L(x) !in JumpNames(cx.scopes) ensures Rd(st2.vars, L(x)) == Rd(env2, x) {
      assert !BinderIn(L(x), n, n1);
    }
  }

  lemma {:induction false} LabelFree(cs: seq<CStmt>, lo: nat, hi: nat, l: nat)
    requires LabelsIn(cs, lo, hi) && l <= lo
    ensures LabelAt(cs, l) == |cs|
  {
  }

  lemma {:induction false} LabelFreeNone(cs: seq<CStmt>, l: nat)
    requires NoLabels(cs)
    ensures LabelAt(cs, l) == |cs|
  {
  }

  lemma {:induction false} LoopIdLow(cx: Cx, n: nat)
    requires CxOk(cx, n) && HasLoop(cx.scopes)
    ensures LoopOf(cx.scopes).loopId <= cx.loopc
  {
    LoopIdLowSeq(cx.scopes, cx.loopc);
  }

  lemma {:induction false} LoopIdLowSeq(scopes: seq<Scope>, loopc: nat)
    requires LoopsOk(scopes, loopc) && HasLoop(scopes)
    ensures LoopOf(scopes).loopId <= loopc
  {
    if !scopes[0].isLoop {
      assert forall i :: 0 <= i < |scopes[1..]| ==> scopes[1..][i] == scopes[i + 1];
      LoopIdLowSeq(scopes[1..], loopc);
    }
  }

  /** The first statement of a list leaves early: the rest is skipped. */
  lemma {:induction false} MatchSkip(w: World, fuel: nat, out: Out, cout: COut, b: seq<CStmt>, cx: Cx, cx1: Cx, cx2: Cx,
          vis: View, vis1: View,
                  n: nat, n1: nat, n2: nat, rt: RetType, st: CState, o: Watch)
    requires CxOk(cx, n) && Evolves(cx, cx1, n, n1) && Evolves(cx1, cx2, n1, n2) && LabelsIn(b, cx1.loopc, cx2.loopc)
    requires Match(out, cout, cx, cx1, vis, vis1, n, rt, st, o) && !out.Norm?
    ensures Match(out, Then(w, fuel, cout, b), cx, cx2, vis, vis, n, rt, st, o)
  {
    hide R, Own, Net, ExecCs;
    if out.Brk? {
      LoopIdLow(cx, n);
      LabelFree(b, cx1.loopc, cx2.loopc, LoopOf(cx.scopes).loopId);
      EvolvesFacts(cx, cx1, n, n1);
      EvolvesFacts(cx1, cx2, n1, n2);
    }
  }

  /** The first statement went on: what the rest does is what the list does. */
  lemma {:induction false} MatchNext(out: Out, cout: COut, cx: Cx, cx1: Cx, cx2: Cx, vis: View, vis1: View, n: nat,
          n1: nat,
                  rt: RetType, st: CState, st1: CState, o: Watch)
    requires CxOk(cx, n) && Evolves(cx, cx1, n, n1)
    requires forall x :: x in vis ==> x in vis1 && vis1[x] == vis[x] && x < n
    requires forall x :: x in vis1 ==> x in vis || n <= x
    requires Frame(vis, n, cx.tempc, [], st.vars, st1.vars)
    requires Match(out, cout, cx1, cx2, vis1, vis1, n1, rt, st1, o)
    ensures Match(out, cout, cx, cx2, vis, vis, n, rt, st, o)
  {
    hide Own, Net;
    EvolvesFacts(cx, cx1, n, n1);
    if out.Norm? {
      FrameJoin(vis, n, cx.tempc, vis1, n1, cx1.tempc, [], [], st.vars, st1.vars, cout.st.vars);
    } else if out.Brk? || out.Cont? {
      JumpedLater(cx, cx1, vis, vis1, n, n1, out.env, out.tr, st, st1, cout.st, o);
    }
  }

  lemma {:induction false} ReadyNext(cx: Cx, cx1: Cx, vis: View, n: nat, n1: nat, inLoop: bool)
    requires Ready(cx, vis, n, inLoop) && Evolves(cx, cx1, n, n1)
    ensures Ready(cx1, vis, n1, inLoop)
  {
    CxOkEvolves(cx, cx1, n, n1);
    EvolvesFacts(cx, cx1, n, n1);
    var x, y, r := cx.scopes[0].names, cx1.scopes[0].names, Flat(cx.scopes[1..]);
    assert y == x + y[|x|..];
    assert forall i :: 0 <= i < |y[|x|..]| ==> BinderIn(y[|x|..][i], n, n1);
    forall v | v in vis ensures L(v) in Flat(cx1.scopes) <==> L(v) in Flat(cx.scopes) {
      assert L(v) !in y[|x|..];
      assert Flat(cx1.scopes) == x + y[|x|..] + r && Flat(cx.scopes) == x + r;
    }
  }

  lemma {:induction false} ReadyLet(x: nat, ref: bool, init: Expr, cx: Cx, vis: View, inLoop: bool)
    requires Ready(cx, vis, x, inLoop)
    ensures var cx1 := EmitLet(x, ref, init, cx).1;
            Ready(cx1, vis[x := RefKind(ref)], x + 1, inLoop)
  {
    var cx1 := EmitLet(x, ref, init, cx).1;
    LetShape(x, ref, init, cx);
    ReadyNext(cx, cx1, vis, x, x + 1, inLoop);
    var a, r := cx.scopes[0].names, Flat(cx.scopes[1..]);
    assert Flat(cx.scopes) == a + r;
    assert L(x) !in a + r by { assert !NameOk(L(x), x, cx.tempc); }
    EvolvesFacts(cx, cx1, x, x + 1);
    assert cx1.scopes[0].names == if ref then a + [L(x)] else a by {
      ExForGrown(init, ref, cx);
    }
  }
}
