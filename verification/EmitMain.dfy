/** The simulation theorem, by induction on the loop budget and the source text.

    Fix a world `w` and an object `o`. The source state is an environment and a trace; the compiled
    state adds the temporaries and the ledger of counts. `R(cx, vis, env, st, o, 0)` says that the
    compiled state `st` stands for `env` where the emitter is in state `cx`: every variable in view
    has its source value, spill temporaries that are not pending are null, and the counts taken on
    `o` are what the stores in the trace put into the heap plus one for each owned name, and each
    pending temporary, that holds `o`. All claims quantify over `o`, so they hold for every object.

    Statements. `SimStmt`, `SimAll`, `SimScope` and `SimArm` are proved together. Each says that if
    `R` holds before, the code ends as the source does (`Match`): after a normal end `R` holds for
    the emitter state the code leaves; after a break or continue the names of every scope up to and
    including the innermost loop have been given back, and no others; after a return
    everything is given back but the one count of the result. The code may assign only what it owns:
    scratch temporaries below the counter and locals that are out of view keep their values (`Frame`),
    which is how the header of a loop and the subject of a switch outlive the code inside.

    Exits. What is released along each path comes from the scope stack as it was when that path's
    jump was emitted, while names may be registered after it. `Shaped` and `Quiet` (module EmitShape)
    say that the stack below the innermost scope is as it was, so that a jump emitted in the middle
    of a scope and the fall-through at its end agree on what the enclosing scopes own.

    Loops. The budget decreases with each iteration and both languages spend it alike. `PassMatch` is
    one pass through a body seen from its loop, `Back` the relation as it stands between passes, and
    `LoopMatch` the loop as a whole, where a break that left a switch may still be on its way to the
    label behind the loop; `LoopExit` lets it arrive. For the counted loops `Pinned` ties the header's
    temporaries to the source of the elements, and `HeaderNames` keeps them out of the body's reach.

    Switches. A C switch whose cases end in a break and an else-if chain over texts are both shown to
    run the body of the arm that `PickArm` chooses. The case's own break is swallowed by the switch; a
    source break inside an arm is therefore a goto, and `Crossed` (module EmitSpec) tells the two apart. */
module EmitMain {
  import opened Basics
  import opened VytoLang
  import opened CTarget
  import opened EmitSpec
  import opened EmitExpr
  import opened EmitShape
  import opened EmitRun
  import opened EmitSteps
  import opened EmitSim

  // ---------------------------------------------------------------- leaving a scope

  /** Names of a closing scope: no variable in view and none that enclosing code relies on. */
  ghost predicate Inner(names: seq<Name>, vis: View, n: nat, tempc: nat) {
    forall x :: x in names ==> !Hidden(x, vis, n, tempc) && !x.S? && (x.L? ==> x.n !in vis)
  }

  lemma {:induction false} PopRun(w: World, fuel: nat, cx: Cx, cx1: Cx, vis: View, n: nat, n1: nat, env: Env, tr: Trace,
               st: CState, out: COut, o: Watch)
    requires cx.scopes != [] && |cx1.scopes| == |cx.scopes| + 1 && CxOk(cx1, n1) && Watched(w, o)
    requires Flat(cx1.scopes[1..]) == Flat(cx.scopes) && cx1.temps == cx.temps && cx.tempc <= cx1.tempc
    requires Went(out, cx, cx1, vis, vis, n, env, tr, st, o)
    requires Inner(cx1.scopes[0].names, vis, n, cx.tempc)
    ensures Went(Then(w, fuel, out, RelCode(cx1.scopes[0].names)), cx, Pop(cx1), vis, vis, n, env, tr, st, o)
  {
    var names, rest, st1 := cx1.scopes[0].names, Flat(cx.scopes), out.st;
    assert Flat(cx1.scopes) == names + rest;
    DistinctParts(names, rest);
    RelExec(w, fuel, names, st1, o);
    var st2 := ExecCs(w, fuel, RelCode(names), st1).st;
    OwnAppend(names, rest, st1.vars, o);
    OwnSame(rest, st1.vars, st2.vars, o);
    OwnSame(cx.temps, st1.vars, st2.vars, o) by {
      forall x | x in cx.temps ensures x !in names { TempsNoFlat(cx1, n1, x); }
    }
    PopAgree(vis, env, cx, n, names, st.vars, st1.vars, st2.vars);
  }

  lemma {:induction false} PopAgree(vis: View, env: Env, cx: Cx, n: nat, names: seq<Name>, a: map<Name, Val>,
          b: map<Name, Val>, c: map<Name, Val>)
    requires Agree(vis, env, b) && Clear(b, cx.temps) && Frame(vis, n, cx.tempc, [], a, b)
    requires Nulled(b, c, names) && Inner(names, vis, n, cx.tempc)
    ensures Agree(vis, env, c) && Clear(c, cx.temps) && Frame(vis, n, cx.tempc, [], a, c)
  {
  }

  /** A jump out of an inner scope, seen from outside it. */
  lemma {:induction false} LiftJump(cx: Cx, cx0: Cx, vis: View, n: nat, env1: Env, tr1: Trace, st: CState, st1: CState,
          o: Watch)
    requires cx.scopes != [] && cx0.scopes != [] && cx0.scopes[1..] == cx.scopes && !cx0.scopes[0].isLoop
    requires cx0.temps == cx.temps && cx.tempc <= cx0.tempc
    requires Inner(cx0.scopes[0].names, vis, n, cx.tempc)
    requires Jumped(cx0, vis, n, env1, tr1, st, st1, o)
    ensures Jumped(cx, vis, n, env1, tr1, st, st1, o)
  {
    hide Own, Net;
    var names := cx0.scopes[0].names;
    assert JumpNames(cx0.scopes) == names + JumpNames(cx.scopes);
    assert Below(cx0.scopes) == Below(cx.scopes);
    forall x | x in vis && L(x) !in JumpNames(cx.scopes) ensures Rd(st1.vars, L(x)) == Rd(env1, x) {
      assert L(x) !in names;
    }
    forall x: Name | Hidden(x, vis, n, cx.tempc) && x !in JumpNames(cx.scopes)
        ensures Rd(st.vars, x) == Rd(st1.vars, x) {
      assert x !in names && Hidden(x, vis, n, cx0.tempc);
    }
  }

  /** Closing a scope after its body: fall-through releases its names, every other way out
      has done so already. */
  lemma {:induction false} ScopeClose(w: World, fuel: nat, out: Out, cout: COut, cx: Cx, cx0: Cx, cx1: Cx, vis: View,
          n: nat, n1: nat,
                   rt: RetType, st: CState, o: Watch)
    requires cx.scopes != [] && cx0.scopes != [] && cx0.scopes[1..] == cx.scopes && !cx0.scopes[0].isLoop
    requires cx0.temps == cx.temps && cx.tempc <= cx0.tempc && CxOk(cx1, n1) && Watched(w, o)
    requires Evolves(cx0, cx1, n, n1) && |cx1.scopes| == |cx0.scopes|
    requires Inner(cx1.scopes[0].names, vis, n, cx.tempc)
    requires Match(out, cout, cx0, cx1, vis, vis, n, rt, st, o)
    ensures Match(out, Then(w, fuel, cout, RelCode(cx1.scopes[0].names)), cx, Pop(cx1), vis, vis, n, rt, st, o)
  {
    hide Own, Net, ExecCs, R;
    var names := cx1.scopes[0].names;
    EvolvesFacts(cx0, cx1, n, n1);
    RelNoLabels(names);
    var a := [cx0.scopes[0].(names := names)] + cx0.scopes[1..];
    assert Kept(a, cx1.scopes) && a[1..] == cx.scopes;
    KeptFacts(cx.scopes, cx1.scopes[1..]);
    assert forall x :: x in cx0.scopes[0].names ==> x in names;
    if out.Norm? {
      FrameNarrow(vis, n, cx.tempc, cx0.tempc, st.vars, cout.st.vars);
      PopRun(w, fuel, cx, cx1, vis, n, n1, out.env, out.tr, st, cout, o);
    } else if out.Brk? || out.Cont? {
      LiftJump(cx, cx0, vis, n, out.env, out.tr, st, cout.st, o);
      if cout.CGo? { LabelFreeNone(RelCode(names), cout.l); }
      assert !cx1.scopes[0].isLoop;
    }
  }

  lemma {:induction false} FrameNarrow(vis: View, n: nat, tempc: nat, tempc0: nat, a: map<Name, Val>, b: map<Name, Val>)
    requires Frame(vis, n, tempc0, [], a, b) && tempc <= tempc0
    ensures Frame(vis, n, tempc, [], a, b)
  {
  }

  lemma {:induction false} SimScope(w: World, fuel: nat, ss: seq<Stmt>, rt: RetType, cx: Cx, vis: View, n: nat,
          inLoop: bool,
                                    env: Env, st: CState, o: Watch)
    requires !w.strict && GoodAll(ss, vis, n, inLoop, rt) && Ready(cx, vis, n, inLoop)
    requires R(cx, vis, env, st, o, 0) && Watched(w, o)
    ensures var (code, cx1) := EmitScope(ss, rt, cx);
            Match(ExecAll(w, fuel, ss, env, st.tr), ExecCs(w, fuel, code, st), cx, cx1, vis, vis, n, rt, st, o)
    decreases fuel, ss, 1
  {
    hide Own, Net, R, CxOk;
    var cx0 := Push(cx, PLAIN);
    var n1 := NextNames(ss, n);
    CxOkPush(cx, n, PLAIN);
    QuietR(cx, cx0, vis, env, st, o, 0);
    assert cx0.scopes[1..] == cx.scopes;
    SimAll(w, fuel, ss, rt, cx0, vis, n, inLoop, env, st, o);
    AllShape(ss, rt, cx0, vis, n, inLoop);
    var (code, cx1) := EmitAll(ss, rt, cx0);
    CxOkEvolves(cx0, cx1, n, n1);
    ExecApp(w, fuel, code, RelCode(cx1.scopes[0].names), st);
    ScopeInner(cx0, cx1, cx.tempc, vis, n, n1);
    ScopeClose(w, fuel, ExecAll(w, fuel, ss, env, st.tr), ExecCs(w, fuel, code, st), cx, cx0, cx1, vis, n, n1, rt, st,
        o);
  }

  /** A scope that opened empty only holds its own binders. */
  lemma {:induction false} ScopeInner(cx0: Cx, cx1: Cx, tempc: nat, vis: View, n: nat, n1: nat)
    requires Evolves(cx0, cx1, n, n1) && cx0.scopes[0].names == [] && (forall x :: x in vis ==> x < n)
    ensures Inner(cx1.scopes[0].names, vis, n, tempc)
  {
    var names := cx1.scopes[0].names;
    forall x | x in names ensures BinderIn(x, n, n1) {
      assert forall i :: 0 <= i < |names| ==> BinderIn(names[i], n, n1);
    }
  }

  lemma {:induction false} SimAll(w: World, fuel: nat, ss: seq<Stmt>, rt: RetType, cx: Cx, vis: View, n: nat,
          inLoop: bool,
                                  env: Env, st: CState, o: Watch)
    requires !w.strict && GoodAll(ss, vis, n, inLoop, rt) && Ready(cx, vis, n, inLoop)
    requires R(cx, vis, env, st, o, 0) && Watched(w, o)
    ensures var (code, cx1) := EmitAll(ss, rt, cx);
            Match(ExecAll(w, fuel, ss, env, st.tr), ExecCs(w, fuel, code, st), cx, cx1, vis, vis, n, rt, st, o)
    decreases fuel, ss, 0
  {
    hide Own, Net, R, CxOk, EmitS;
    if ss != [] {
      var s, rest := ss[0], ss[1..];
      var (a, cx1) := EmitS(s, rt, cx);
      var (b, cx2) := EmitAll(rest, rt, cx1);
      var n1, vis1 := NextName(s, n), ViewAfter(s, vis);
      SimStmt(w, fuel, s, rt, cx, vis, n, inLoop, env, st, o);
      StmtShape(s, rt, cx, vis, n, inLoop);
      AllShape(rest, rt, cx1, vis1, n1, inLoop);
      ExecApp(w, fuel, a, b, st);
      var out, cout := Exec(w, fuel, s, env, st.tr), ExecCs(w, fuel, a, st);
      if out.Norm? {
        ReadyAfter(s, rt, cx, vis, n, inLoop);
        SimAll(w, fuel, rest, rt, cx1, vis1, n1, inLoop, out.env, cout.st, o);
        MatchNext(ExecAll(w, fuel, rest, out.env, out.tr), ExecCs(w, fuel, b, cout.st), cx, cx1, cx2, vis, vis1, n, n1,
                  rt, st, cout.st, o);
      } else {
        MatchSkip(w, fuel, out, cout, b, cx, cx1, cx2, vis, vis1, n, n1, NextNames(rest, n1), rt, st, o);
      }
    }
  }

  lemma {:induction false} ReadyAfter(s: Stmt, rt: RetType, cx: Cx, vis: View, n: nat, inLoop: bool)
    requires Good(s, vis, n, inLoop, rt) && Ready(cx, vis, n, inLoop)
    ensures Ready(EmitS(s, rt, cx).1, ViewAfter(s, vis), NextName(s, n), inLoop)
  {
    hide CxOk, VisOk;
    if s.Let? {
      ReadyLet(s.x, s.ref, s.init, cx, vis, inLoop);
    } else {
      StmtShape(s, rt, cx, vis, n, inLoop);
      ReadyNext(cx, EmitS(s, rt, cx).1, vis, n, NextName(s, n), inLoop);
    }
  }

  lemma {:induction false} SimStmt(w: World, fuel: nat, s: Stmt, rt: RetType, cx: Cx, vis: View, n: nat, inLoop: bool,
                                   env: Env, st: CState, o: Watch)
    requires !w.strict && Good(s, vis, n, inLoop, rt) && Ready(cx, vis, n, inLoop)
    requires R(cx, vis, env, st, o, 0) && Watched(w, o)
    ensures var (code, cx1) := EmitS(s, rt, cx);
            Match(Exec(w, fuel, s, env, st.tr), ExecCs(w, fuel, code, st), cx, cx1, vis, ViewAfter(s, vis), n, rt, st,
                o)
    decreases fuel, s, 5
  {
    hide Match, R, CxOk, VisOk, EvalE, GoodExpr;
    if s.If? {
      SimIf(w, fuel, s, rt, cx, vis, n, inLoop, env, st, o);
    } else if s.While? {
      SimWhile(w, fuel, s, rt, cx, vis, n, inLoop, env, st, o);
    } else if s.For? {
      SimFor(w, fuel, s, rt, cx, vis, n, inLoop, env, st, o);
    } else if s.Switch? {
      SimSwitch(w, fuel, s, rt, cx, vis, n, inLoop, env, st, o);
    } else if s.Block? {
      SimScope(w, fuel, s.body, rt, cx, vis, n, inLoop, env, st, o);
      RunOne(w, fuel, CBlock(EmitScope(s.body, rt, cx).0), st);
    } else if s.Break? || s.Continue? {
      SimBreak(w, fuel, s, cx, vis, n, rt, env, st, o);
    } else {
      SimSimple(w, fuel, s, rt, cx, vis, n, inLoop, env, st, o);
    }
  }

  lemma {:induction false} SimSimple(w: World, fuel: nat, s: Stmt, rt: RetType, cx: Cx, vis: View, n: nat, inLoop: bool,
                  env: Env, st: CState, o: Watch)
    requires !w.strict && Good(s, vis, n, inLoop, rt) && Ready(cx, vis, n, inLoop)
    requires !s.If? && !s.While? && !s.For? && !s.Switch? && !s.Block? && !s.Break? && !s.Continue?
    requires R(cx, vis, env, st, o, 0) && Watched(w, o)
    ensures var (code, cx1) := EmitS(s, rt, cx);
            Match(Exec(w, fuel, s, env, st.tr), ExecCs(w, fuel, code, st), cx, cx1, vis, ViewAfter(s, vis), n, rt, st,
                o)
  {
    hide R, CxOk, VisOk, GoodExpr, EvalE, ExecCs, Went, EmitLet, EmitEval, EmitPanic, EmitAssign, EmitSetStrong,
        EmitSetPlain,
      EmitSetElem, EmitReturn, EmitIf, EmitWhile, EmitFor, EmitSwitch, EmitScope, Jumped, Net, HasLoop;
    match s
    case Let(x, ref, init) => SimLet(w, fuel, x, ref, init, cx, vis, env, st, o);
    case Eval(e) => SimEval(w, fuel, e, cx, vis, n, env, st, o);
    case Panic(e) => SimPanic(w, fuel, e, cx, vis, n, env, st, o);
    case Assign(x, ref, rhs) =>
      if ref { SimAssignRef(w, fuel, x, rhs, cx, vis, n, env, st, o); }
      else { SimAssignVal(w, fuel, x, rhs, cx, vis, n, env, st, o); }
    case SetField(obj, fld, kind, rhs) =>
      if kind.Strong? { SimSetStrong(w, fuel, obj, fld, rhs, cx, vis, n, env, st, o); }
      else { SimSetPlain(w, fuel, obj, fld, rhs, cx, vis, n, env, st, o); }
    case SetElem(arr, idx, ref, rhs) => SimSetElem(w, fuel, arr, idx, ref, rhs, cx, vis, n, env, st, o);
    case Return(ret) => SimReturn(w, fuel, ret, rt, cx, vis, n, env, st, o);
  }

  lemma {:induction false} RunThenLast(w: World, fuel: nat, code: seq<CStmt>, last: CStmt, st: CState)
    requires ExecCs(w, fuel, code, st).CNorm?
    ensures ExecCs(w, fuel, code + [last], st) == ExecC(w, fuel, last, ExecCs(w, fuel, code, st).st)
  {
    hide ExecC;
    ExecApp(w, fuel, code, [last], st);
    RunOne(w, fuel, last, ExecCs(w, fuel, code, st).st);
  }

  lemma {:induction false} SimBreak(w: World, fuel: nat, s: Stmt, cx: Cx, vis: View, n: nat, rt: RetType, env: Env,
          st: CState, o: Watch)
    requires CxOk(cx, n) && HasLoop(cx.scopes) && (s.Break? || s.Continue?)
    requires R(cx, vis, env, st, o, 0) && Watched(w, o)
    ensures var (code, cx1) := EmitS(s, rt, cx);
            Match(Exec(w, fuel, s, env, st.tr), ExecCs(w, fuel, code, st), cx, cx1, vis, vis, n, rt, st, o)
  {
    hide R, Own, Net, CxOk, ExecCs, JumpCode, Jumped, Kept, JumpNames, Flat, ExecC, Went, GoodExpr, EvalE;
    SimJump(w, fuel, cx, vis, n, env, st, o);
    MarkKept(cx.scopes);
    var st1 := ExecCs(w, fuel, JumpCode(cx.scopes), st).st;
    var last := if s.Continue? then CContinue
      else if Crossed(cx.scopes) then CGoto(LoopOf(cx.scopes).loopId) else CBreak;
    LastStmts(w, fuel, LoopOf(cx.scopes).loopId, st1);
    RunThenLast(w, fuel, JumpCode(cx.scopes), last, st);
  }

  lemma {:induction false} LastStmts(w: World, fuel: nat, l: nat, st: CState)
    ensures ExecC(w, fuel, CContinue, st) == CCont(st) && ExecC(w, fuel, CBreak, st) == CBrk(st)
    ensures ExecC(w, fuel, CGoto(l), st) == CGo(l, st)
  {
  }

  lemma {:induction false} SimIf(w: World, fuel: nat, s: Stmt, rt: RetType, cx: Cx, vis: View, n: nat, inLoop: bool,
                                 env: Env, st: CState, o: Watch)
    requires s.If? && !w.strict && Good(s, vis, n, inLoop, rt) && Ready(cx, vis, n, inLoop)
    requires R(cx, vis, env, st, o, 0) && Watched(w, o)
    ensures var (code, cx1) := EmitIf(s, rt, cx);
            Match(Exec(w, fuel, s, env, st.tr), ExecCs(w, fuel, code, st), cx, cx1, vis, vis, n, rt, st, o)
    decreases fuel, s, 4
  {
    hide R, Own, Net, CxOk, EvalE, GoodExpr, EmitScope, EmitCond, ExecAll, Flat, Match, Quiet;
    SimCond(w, fuel, s.cond, cx, vis, n, env, st, o);
    var (pre, cx2) := EmitCond(s.cond, cx);
    var st1 := ExecCs(w, fuel, pre, st).st;
    var (a, cx3) := EmitScope(s.thn, rt, cx2);
    var (b, cx4) := if s.hasElse then EmitScope(s.els, rt, cx3) else ([], cx3);
    IfQuiet(s, rt, cx, vis, n, inLoop);
    RunIf(w, fuel, pre, T(cx.tempc), a, b, st, st1);
    if Rd(st1.vars, T(cx.tempc)) != 0 {
      SimScope(w, fuel, s.thn, rt, cx2, vis, n, inLoop, env, st1, o);
      IfJoin(ExecAll(w, fuel, s.thn, env, st1.tr), ExecCs(w, fuel, a, st1), cx, cx2, cx2, cx3, cx4, vis, n, n, rt, st,
          st1, o);
    } else {
      var m := NextNames(s.thn, n);
      ReadyMore(cx3, vis, n, m, inLoop);
      QuietFlat(cx2, cx3);
      QuietR(cx2, cx3, vis, env, st1, o, 0);
      if s.hasElse {
        SimScope(w, fuel, s.els, rt, cx3, vis, m, inLoop, env, st1, o);
        IfJoin(ExecAll(w, fuel, s.els, env, st1.tr), ExecCs(w, fuel, b, st1), cx, cx2, cx3, cx4, cx4, vis, n, m, rt, st,
            st1, o);
      } else {
        NothingPicked(cx3, cx3, vis, m, rt, env, st1, o);
        IfJoin(Norm(env, st1.tr), CNorm(st1), cx, cx2, cx3, cx3, cx3, vis, n, m, rt, st, st1, o);
      }
    }
  }

  lemma {:induction false} RunIf(w: World, fuel: nat, pre: seq<CStmt>, t: Name, a: seq<CStmt>, b: seq<CStmt>,
          st: CState, st1: CState)
    requires ExecCs(w, fuel, pre, st) == CNorm(st1)
    ensures ExecCs(w, fuel, pre + [CIf(t, a, b)], st) == if Rd(st1.vars, t) != 0 then ExecCs(w, fuel, a, st1)
        else ExecCs(w, fuel, b, st1)
  {
    ExecApp(w, fuel, pre, [CIf(t, a, b)], st);
    RunOne(w, fuel, CIf(t, a, b), st1);
  }

  /** The states an if statement is emitted in. */
  lemma {:induction false} IfQuiet(s: Stmt, rt: RetType, cx: Cx, vis: View, n: nat, inLoop: bool)
    requires s.If? && Good(s, vis, n, inLoop, rt) && Ready(cx, vis, n, inLoop)
    ensures var cx2 := EmitCond(s.cond, cx).1;
            var cx3 := EmitScope(s.thn, rt, cx2).1;
            var cx4 := if s.hasElse then EmitScope(s.els, rt, cx3).1 else cx3;
      && cx2.scopes != [] && cx3.scopes != [] && cx4.scopes != []
      && Quiet(cx, cx2) && Quiet(cx2, cx2) && Quiet(cx2, cx3) && Quiet(cx3, cx3) && Quiet(cx3, cx4) && Quiet(cx4, cx4)
      && Ready(cx2, vis, n, inLoop) && Ready(cx3, vis, n, inLoop) && cx2.temps == cx3.temps
  {
    hide CxOk, EmitCond, EmitScope;
    CondShape(s.cond, cx);
    var cx2 := EmitCond(s.cond, cx).1;
    ReadyQuiet(cx, cx2, vis, n, inLoop);
    var cx3 := EmitScope(s.thn, rt, cx2).1;
    ScopeShape(s.thn, rt, cx2, vis, n, inLoop);
    ReadyQuiet(cx2, cx3, vis, n, inLoop);
    if s.hasElse { ScopeShape(s.els, rt, cx3, vis, NextNames(s.thn, n), inLoop); }
  }

  lemma {:induction false} QuietFlat(cx: Cx, cx1: Cx)
    requires cx.scopes != [] && cx1.scopes != [] && Quiet(cx, cx1)
    ensures Flat(cx.scopes) == Flat(cx1.scopes)
  {
    KeptFacts(cx.scopes, cx1.scopes);
  }

  lemma {:induction false} ReadyQuiet(cx: Cx, cx1: Cx, vis: View, n: nat, inLoop: bool)
    requires Ready(cx, vis, n, inLoop) && cx1.scopes != [] && Quiet(cx, cx1)
    ensures Ready(cx1, vis, n, inLoop)
  {
    QuietFacts(cx, cx1, n);
  }

  lemma {:induction false} ReadyMore(cx: Cx, vis: View, n: nat, m: nat, inLoop: bool)
    requires Ready(cx, vis, n, inLoop) && n <= m
    ensures Ready(cx, vis, m, inLoop)
  {
  }

  /** Straight code from `cx` to `cx2`, then a construct entered at `cxa` and left at `cxb`. */
  lemma {:induction false} IfJoin(out: Out, cout: COut, cx: Cx, cx2: Cx, cxa: Cx, cxb: Cx, cx1: Cx, vis: View, n: nat,
          m: nat, rt: RetType,
               st: CState, st1: CState, o: Watch)
    requires cx.scopes != [] && cx2.scopes != [] && cxa.scopes != [] && cxb.scopes != [] && cx1.scopes != []
    requires CxOk(cx, n) && Quiet(cx, cx2) && Quiet(cx2, cxa) && Quiet(cxa, cxb) && Quiet(cxb, cx1) && n <= m
    requires forall x :: x in vis ==> x < n
    requires Frame(vis, n, cx.tempc, [], st.vars, st1.vars)
    requires Match(out, cout, cxa, cxb, vis, vis, m, rt, st1, o)
    ensures Match(out, cout, cx, cx1, vis, vis, n, rt, st, o)
  {
    hide R, Own, Net, Match;
    QuietFacts(cx, cx2, n);
    MatchQuiet(out, cout, cx2, cxa, cxb, cx1, vis, n, m, rt, st1, o);
    QuietEvolves(cx, cx2, n, n);
    MatchNext(out, cout, cx, cx2, cx1, vis, vis, n, n, rt, st, st1, o);
  }

  // ---------------------------------------------------------------- loops

  /** A loop as a whole: a break may still be on its way to the label behind it. */
  ghost predicate LoopMatch(out: Out, cout: COut, ls: Scope, cx: Cx, vis: View, n: nat, tempc: nat, rt: RetType,
          st: CState, o: Watch) {
    match out
    case Timeout => cout.CTimeout? && Unhurt(cout.st, o)
    case Norm(env1, tr1) =>
      && (cout.CNorm? || (cout.CGo? && cout.l == ls.loopId && ls.needsLabel))
      && Back(cx, vis, n, tempc, env1, tr1, st, cout.st, o)
    case Ret(v, tr1) =>
      && cout.CRet? && cout.v == v && cout.st.tr == tr1 && Unhurt(cout.st, o)
      && Net(cout.st, o) == if rt == Some(true) && v == o.id then 1 else 0
    case Panicked(tr1) => cout.CPanicked? && cout.st.tr == tr1 && Unhurt(cout.st, o)
    case _ => false
  }

  /** The relation as it stands between iterations. */
  ghost predicate Back(cx: Cx, vis: View, n: nat, tempc: nat, env1: Env, tr1: Trace, st: CState, st1: CState,
          o: Watch) {
    st1.tr == tr1 && R(cx, vis, env1, st1, o, 0) && Frame(vis, n, tempc, [], st.vars, st1.vars)
  }

  lemma {:induction false} LoopExit(w: World, fuel: nat, out: Out, cout: COut, ls: Scope, cx: Cx, vis: View, n: nat,
          tempc: nat, rt: RetType, st: CState, o: Watch)
    requires LoopMatch(out, cout, ls, cx, vis, n, tempc, rt, st, o)
    ensures var r := Then(w, fuel, cout, LoopEnd(ls));
      && (out.Norm? ==> r.CNorm? && Back(cx, vis, n, tempc, out.env, out.tr, st, r.st, o))
      && (!out.Norm? ==> r == cout && LoopMatch(out, r, ls, cx, vis, n, tempc, rt, st, o))
  {
    hide Back;
    if out.Norm? && ls.needsLabel {
      RunOne(w, fuel, CLabel(ls.loopId), cout.st);
      assert [CLabel(ls.loopId)][1..] == [];
    }
  }

  /** A break or continue that has reached its loop: the loop's own scope is already empty. */
  lemma {:induction false} JumpBack(cxb: Cx, cx: Cx, visb: View, vis: View, nb: nat, n: nat, env1: Env, tr1: Trace,
          st: CState, st1: CState, o: Watch)
    requires cxb.scopes != [] && cxb.scopes[0].isLoop && Flat(cxb.scopes[1..]) == Flat(cx.scopes)
    requires cxb.temps == cx.temps && cx.tempc <= cxb.tempc && n <= nb
    requires forall x :: x in vis ==> x in visb && visb[x] == vis[x]
    requires forall x :: x in visb ==> x in vis || n <= x
    requires Inner(cxb.scopes[0].names, vis, n, cx.tempc)
    requires Jumped(cxb, visb, nb, env1, tr1, st, st1, o)
    ensures Back(cx, vis, n, cx.tempc, env1, tr1, st, st1, o)
  {
    hide Own, Net;
    assert JumpNames(cxb.scopes) == cxb.scopes[0].names;
    forall x | x in vis ensures Rd(st1.vars, L(x)) == Rd(env1, x) {
      assert L(x) !in cxb.scopes[0].names;
    }
    forall x: Name | Hidden(x, vis, n, cx.tempc) ensures Rd(st.vars, x) == Rd(st1.vars, x) {
      assert x !in cxb.scopes[0].names && Hidden(x, visb, nb, cxb.tempc);
    }
  }

  lemma {:induction false} BackJoin(cx: Cx, vis: View, n: nat, tempc: nat, env2: Env, tr2: Trace, st: CState,
          st1: CState, st2: CState, o: Watch)
    requires Frame(vis, n, tempc, [], st.vars, st1.vars) && Back(cx, vis, n, tempc, env2, tr2, st1, st2, o)
    ensures Back(cx, vis, n, tempc, env2, tr2, st, st2, o)
  {
    hide R;
  }

  lemma {:induction false} LoopMatchJoin(out: Out, cout: COut, ls: Scope, cx: Cx, vis: View, n: nat, tempc: nat,
          rt: RetType,
                      st: CState, st1: CState, o: Watch)
    requires Frame(vis, n, tempc, [], st.vars, st1.vars) && LoopMatch(out, cout, ls, cx, vis, n, tempc, rt, st1, o)
    ensures LoopMatch(out, cout, ls, cx, vis, n, tempc, rt, st, o)
  {
    hide Back;
    if out.Norm? { BackJoin(cx, vis, n, tempc, out.env, out.tr, st, st1, cout.st, o); }
  }

  function WhileBody(s: Stmt, rt: RetType, cx: Cx): (r: (seq<CStmt>, Cx))
    requires s.While? && cx.scopes != []
    ensures r.1.scopes != []
  {
    var cx0 := LoopBegin(cx);
    var (pre, cx2) := EmitCond(s.cond, cx0);
    var (b, cx3) := EmitScope(s.body, rt, cx2);
    (pre + ([CIf(T(cx0.tempc), [], [CBreak])] + (b + RelCode(cx3.scopes[0].names))), cx3)
  }

  /** Facts about the states the emitter goes through for a while loop. */
  lemma {:induction false} WhileCx(s: Stmt, rt: RetType, cx: Cx, vis: View, n: nat, inLoop: bool)
    requires s.While? && Good(s, vis, n, inLoop, rt) && Ready(cx, vis, n, inLoop)
    ensures var cx0 := LoopBegin(cx);
            var cx2 := EmitCond(s.cond, cx0).1;
            var cx3 := EmitScope(s.body, rt, cx2).1;
      && Ready(cx0, vis, n, true) && Ready(cx2, vis, n, true)
      && cx2.scopes == cx0.scopes && cx2.temps == cx.temps && cx.tempc <= cx2.tempc
      && cx3.scopes != [] && Quiet(cx2, cx3) && cx3.scopes[0].names == []
      && Flat(cx2.scopes) == Flat(cx.scopes) && Flat(cx3.scopes) == Flat(cx.scopes) && cx3.temps == cx.temps
      && cx3.scopes[0].loopId == LoopScope(cx).loopId
  {
    var cx0 := LoopBegin(cx);
    CxOkPush(cx.(loopc := cx.loopc + 1), n, LoopScope(cx));
    assert Flat(cx0.scopes) == Flat(cx.scopes) by { assert cx0.scopes[1..] == cx.scopes; }
    CondShape(s.cond, cx0);
    var cx2 := EmitCond(s.cond, cx0).1;
    ReadyQuiet(cx0, cx2, vis, n, true);
    ScopeShape(s.body, rt, cx2, vis, n, true);
    var cx3 := EmitScope(s.body, rt, cx2).1;
    QuietFlat(cx2, cx3);
  }

  /** One pass through a while body whose test held. */
  lemma {:induction false} WhilePass(w: World, fuel: nat, s: Stmt, rt: RetType, cx: Cx, vis: View, n: nat, inLoop: bool,
                                     env: Env, st: CState, o: Watch)
    requires s.While? && !w.strict && Good(s, vis, n, inLoop, rt) && Ready(cx, vis, n, inLoop)
    requires R(cx, vis, env, st, o, 0) && Watched(w, o)
    ensures var (body, cx3) := WhileBody(s, rt, cx);
            var (v, tr1) := EvalE(w, s.cond, env, st.tr);
            var cout := ExecCs(w, fuel, body, st);
      && (v == 0 ==> cout.CBrk? && Back(cx, vis, n, cx.tempc, env, tr1, st, cout.st, o))
      && (v != 0 ==> PassMatch(ExecAll(w, fuel, s.body, env, tr1), cout, cx3.scopes[0], cx, vis, n, rt, st, o))
    decreases fuel, s, 2
  {
    hide R, Own, Net, CxOk, EvalE, GoodExpr, VisOk, Flat, Quiet, EmitScope, EmitCond, ExecAll, Match, PassMatch;
    WhileCx(s, rt, cx, vis, n, inLoop);
    var cx0 := LoopBegin(cx);
    var (pre, cx2) := EmitCond(s.cond, cx0);
    var (b, cx3) := EmitScope(s.body, rt, cx2);
    QuietR(cx, cx0, vis, env, st, o, 0);
    SimCond(w, fuel, s.cond, cx0, vis, n, env, st, o);
    var st1 := ExecCs(w, fuel, pre, st).st;
    var test := CIf(T(cx0.tempc), [], [CBreak]);
    ExecApp(w, fuel, pre, [test] + (b + []), st);
    assert cx3.scopes[0].names == [] && RelCode([]) == [];
    QuietR(cx2, cx, vis, env, st1, o, 0);
    assert b + [] == b;
    if Rd(st1.vars, T(cx0.tempc)) == 0 {
      RunOne(w, fuel, CBreak, st1);
      assert ExecC(w, fuel, test, st1) == CBrk(st1);
      var code := [test] + b;
      assert code[0] == test && ExecCs(w, fuel, code, st1) == Then(w, fuel, CBrk(st1), code[1..]);
    } else {
      assert ExecC(w, fuel, test, st1) == CNorm(st1);
      StepC(w, fuel, test, b, st1);
      SimScope(w, fuel, s.body, rt, cx2, vis, n, true, env, st1, o);
      PassBack(ExecAll(w, fuel, s.body, env, st1.tr), ExecCs(w, fuel, b, st1), cx, cx2, cx3, vis, n, rt, st, st1, o);
    }
  }

  /** What one pass through a loop body comes to, seen from the loop. */
  ghost predicate PassMatch(out: Out, cout: COut, ls: Scope, cx: Cx, vis: View, n: nat, rt: RetType, st: CState,
          o: Watch) {
    match out
    case Timeout => cout.CTimeout? && Unhurt(cout.st, o)
    case Stray => false
    case Norm(env1, tr1) => cout.CNorm? && Back(cx, vis, n, cx.tempc, env1, tr1, st, cout.st, o)
    case Cont(env1, tr1) => cout.CCont? && Back(cx, vis, n, cx.tempc, env1, tr1, st, cout.st, o)
    case Brk(env1, tr1) =>
      && (cout.CBrk? || (cout.CGo? && cout.l == ls.loopId && ls.needsLabel))
      && Back(cx, vis, n, cx.tempc, env1, tr1, st, cout.st, o)
    case Ret(v, tr1) =>
      && cout.CRet? && cout.v == v && cout.st.tr == tr1 && Unhurt(cout.st, o)
      && Net(cout.st, o) == if rt == Some(true) && v == o.id then 1 else 0
    case Panicked(tr1) => cout.CPanicked? && cout.st.tr == tr1 && Unhurt(cout.st, o)
  }

  lemma {:induction false} PassBack(out: Out, cout: COut, cx: Cx, cx2: Cx, cx3: Cx, vis: View, n: nat, rt: RetType,
          st: CState, st1: CState, o: Watch)
    requires cx2.scopes != [] && cx2.scopes[0].isLoop && cx2.scopes[0].names == []
        && Flat(cx2.scopes[1..]) == Flat(cx.scopes)
    requires cx2.temps == cx.temps && cx.tempc <= cx2.tempc
    requires cx3.scopes != [] && Quiet(cx2, cx3) && cx3.temps == cx.temps && Flat(cx3.scopes) == Flat(cx.scopes)
    requires Frame(vis, n, cx.tempc, [], st.vars, st1.vars)
    requires Match(out, cout, cx2, cx3, vis, vis, n, rt, st1, o)
    ensures PassMatch(out, cout, cx3.scopes[0], cx, vis, n, rt, st, o)
  {
    hide R, Own, Net, Flat, JumpNames;
    if out.Norm? {
      QuietR(cx3, cx, vis, out.env, cout.st, o, 0);
      FrameNarrow(vis, n, cx.tempc, cx2.tempc, st1.vars, cout.st.vars);
      BackJoin(cx, vis, n, cx.tempc, out.env, out.tr, st, st1, cout.st, o);
    } else if out.Brk? || out.Cont? {
      JumpBack(cx2, cx, vis, vis, n, n, out.env, out.tr, st1, cout.st, o);
      BackJoin(cx, vis, n, cx.tempc, out.env, out.tr, st, st1, cout.st, o);
    }
  }

  lemma {:induction false} WhileIter(w: World, fuel: nat, s: Stmt, rt: RetType, cx: Cx, vis: View, n: nat, inLoop: bool,
                                     env: Env, st: CState, o: Watch)
    requires s.While? && !w.strict && Good(s, vis, n, inLoop, rt) && Ready(cx, vis, n, inLoop)
    requires R(cx, vis, env, st, o, 0) && Watched(w, o)
    ensures var (body, cx3) := WhileBody(s, rt, cx);
            LoopMatch(ExecWhile(w, fuel, s.cond, s.body, env, st.tr), ExecForever(w, fuel, body, st),
                      cx3.scopes[0], cx, vis, n, cx.tempc, rt, st, o)
    decreases fuel, s, 3
  {
    hide R, Own, Net, CxOk, VisOk, WhileBody, EvalE, GoodExpr, Frame;
    RUnhurt(cx, vis, env, st, o, 0);
    if fuel > 0 {
      WhilePass(w, fuel - 1, s, rt, cx, vis, n, inLoop, env, st, o);
      var (body, cx3) := WhileBody(s, rt, cx);
      var (v, tr1) := EvalE(w, s.cond, env, st.tr);
      if v != 0 {
        var out := ExecAll(w, fuel - 1, s.body, env, tr1);
        var cout := ExecCs(w, fuel - 1, body, st);
        if out.Norm? || out.Cont? {
          WhileIter(w, fuel - 1, s, rt, cx, vis, n, inLoop, out.env, cout.st, o);
          LoopMatchJoin(ExecWhile(w, fuel - 1, s.cond, s.body, out.env, out.tr),
              ExecForever(w, fuel - 1, body, cout.st),
                        cx3.scopes[0], cx, vis, n, cx.tempc, rt, st, cout.st, o);
        }
      }
    }
  }

  lemma {:induction false} SimWhile(w: World, fuel: nat, s: Stmt, rt: RetType, cx: Cx, vis: View, n: nat, inLoop: bool,
                                    env: Env, st: CState, o: Watch)
    requires s.While? && !w.strict && Good(s, vis, n, inLoop, rt) && Ready(cx, vis, n, inLoop)
    requires R(cx, vis, env, st, o, 0) && Watched(w, o)
    ensures var (code, cx1) := EmitWhile(s, rt, cx);
            Match(Exec(w, fuel, s, env, st.tr), ExecCs(w, fuel, code, st), cx, cx1, vis, vis, n, rt, st, o)
    decreases fuel, s, 4
  {
    hide R, Own, Net, CxOk, VisOk, EvalE, GoodExpr, Frame, ExecForever, ExecWhile, EmitScope, EmitCond, Flat, Good,
        Kept;
    WhileIter(w, fuel, s, rt, cx, vis, n, inLoop, env, st, o);
    var (body, cx3) := WhileBody(s, rt, cx);
    var ls := cx3.scopes[0];
    var out, cout := ExecWhile(w, fuel, s.cond, s.body, env, st.tr), ExecForever(w, fuel, body, st);
    LoopExit(w, fuel, out, cout, ls, cx, vis, n, cx.tempc, rt, st, o);
    assert ([CForever(body)] + LoopEnd(ls))[1..] == LoopEnd(ls);
    WhileShape(s, rt, cx, vis, n, inLoop);
    if out.Norm? {
      QuietFlat(cx, Pop(cx3));
      QuietR(cx, Pop(cx3), vis, out.env, Then(w, fuel, cout, LoopEnd(ls)).st, o, 0);
    }
  }

  // ---------------------------------------------------------------- counted loops

  /** The header's variables hold the loop source; the counter is none of them. */
  ghost predicate Pinned(k: LoopSrc, iter: Iter, h: Header, vars: map<Name, Val>) {
    match iter
    case Range(_, _) => k.LRange? && h.bound == CVar(h.ta) && k.hi == Rd(vars, h.ta)
    case Each(_, _) => k.LArr? && h.bound == CLen(h.ta) && k.arr == Rd(vars, h.ta)
    case EnumVals(vals) => k == LEnum(vals) && h.bound == CLit(|vals|)
    case Iterate(_, lenF, atF, held, index, _) =>
      && k.LObj? && k.lenF == lenF && k.atF == atF && k.obj == Rd(vars, L(held))
      && h.bound == CCall(lenF, [CVar(L(held))], false) && h.iv == L(index)
  }

  /** Where the header keeps its variables: names no statement of the body may touch. */
  ghost predicate HeaderNames(x: nat, iter: Iter, h: Header, tempc: nat, n: nat) {
    && n <= x && h.init == (if iter.Range? then CVar(T(tempc)) else CLit(0))
    && (iter.Range? ==> h.iv == L(x))
    && (iter.Each? || iter.EnumVals? ==> h.iv.T? && tempc <= h.iv.n < h.cx.tempc)
    && (iter.Range? || iter.Each? ==> h.ta.T? && tempc <= h.ta.n < h.cx.tempc)
    && (iter.Iterate? ==> h.ta == L(iter.held) && h.iv == L(iter.index))
    && (iter.Iterate? ==> iter.held == n && iter.index == n + 1 && x == n + 2)
    && (iter.EnumVals? || h.ta != h.iv)
  }

  lemma {:induction false} HeaderNamed(x: nat, iter: Iter, cx: Cx, vis: View, n: nat)
    requires GoodIter(x, iter, vis, n) && cx.scopes != []
    ensures HeaderNames(x, iter, EmitHeader(x, iter, cx), cx.tempc, n)
  {
    HeaderShape(x, iter, cx, vis, n);
    match iter
    case Range(lo, hi) => PairBGrown(lo, hi, NextT(NextT(cx)));
    case Each(arr, _) => ExBGrown(arr, NextT(cx));
    case EnumVals(_) =>
    case Iterate(_, _, _, _, _, _) =>
  }

  ghost predicate HeaderDone(w: World, x: nat, iter: Iter, h: Header, cx: Cx, vis: View, n: nat, env: Env, st: CState,
          out: COut, o: Watch) {
    && out.CNorm?
    && var (k, i, tr1) := LoopStart(w, iter, env, st.tr);
    && out.st.tr == tr1 && EvalC(w, h.init, out.st) == (i, out.st)
    && R(h.cx, vis, env, out.st, o, 0) && Frame(vis, n, cx.tempc, [], st.vars, out.st.vars)
    && Pinned(k, iter, h, out.st.vars)
  }

  lemma {:induction false} SimRange(w: World, fuel: nat, x: nat, lo: Expr, hi: Expr, cx: Cx, vis: View, n: nat,
          env: Env, st: CState, o: Watch)
    requires CxOk(cx, n) && VisOk(vis, n, cx.scopes) && GoodIter(x, Range(lo, hi), vis, n)
    requires R(cx, vis, env, st, o, 0) && Watched(w, o)
    ensures var h := EmitHeader(x, Range(lo, hi), cx);
            HeaderDone(w, x, Range(lo, hi), h, cx, vis, n, env, st, ExecCs(w, fuel, h.code, st), o) && CxOk(h.cx, n)
  {
    hide R, ExB, Ex, EvalE, GoodExpr, CxOk, Flat, RelCode, VisOk, Backed, Own, Net, ExecCs, Live, IsRef;
    var m := cx.tempc;
    var cx0 := NextT(NextT(cx));
    RNextT(cx, vis, n, env, st, o, 0);
    RNextT(NextT(cx), vis, n, env, st, o, 0);
    var st1, st2 := IntoTwo(w, fuel, lo, hi, m, cx0, vis, n, env, st, o);
    var (a, cxa) := ExB(lo, cx0);
    var (b, cxb) := ExB(hi, cxa);
    GrownT(NextT(cx), cxb);
    GrownT(cx, cxb);
    CxNotS(cxb, n);
    FlushR(w, fuel, cx, cxb, vis, n, env, st2, o, 0);
    CxOkCut(cx, cxb, n);
    Run2(w, fuel, CSet(T(m), a), CSet(T(m + 1), b), RelCode(Fresh(cx, cxb)), st, st1, st2);
  }

  lemma {:induction false} SimEach(w: World, fuel: nat, x: nat, arr: Expr, ref: bool, cx: Cx, vis: View, n: nat,
          env: Env, st: CState, o: Watch)
    requires CxOk(cx, n) && VisOk(vis, n, cx.scopes) && GoodIter(x, Each(arr, ref), vis, n)
    requires R(cx, vis, env, st, o, 0) && Watched(w, o)
    ensures var h := EmitHeader(x, Each(arr, ref), cx);
            HeaderDone(w, x, Each(arr, ref), h, cx, vis, n, env, st, ExecCs(w, fuel, h.code, st), o) && CxOk(h.cx, n)
  {
    hide R, ExB, Ex, EvalE, GoodExpr, CxOk, Flat;
    RNextT(cx, vis, n, env, st, o, 0);
    IntoT(w, fuel, arr, false, cx.tempc, NextT(cx), vis, n, env, st, o, 0);
    var (a, cxa) := ExB(arr, NextT(cx));
    var st1 := ExecC(w, fuel, CSet(T(cx.tempc), a), st).st;
    RunOne(w, fuel, CSet(T(cx.tempc), a), st);
    RNextT(cxa, vis, n, env, st1, o, 0);
  }

  lemma {:induction false} SimIterate(w: World, fuel: nat, x: nat, iter: Iter, cx: Cx, vis: View, n: nat, env: Env,
          st: CState, o: Watch)
    requires iter.Iterate? && CxOk(cx, n) && VisOk(vis, n, cx.scopes) && GoodIter(x, iter, vis, n)
    requires R(cx, vis, env, st, o, 0) && Watched(w, o)
    ensures var h := EmitHeader(x, iter, cx);
            HeaderDone(w, x, iter, h, cx, vis, n, env, st, ExecCs(w, fuel, h.code, st), o)
  {
    hide ExO, Ex, EvalE, GoodExpr, CxOk, Flat, RelCode, Own, Net;
    SimLet(w, fuel, iter.held, true, iter.obj, cx, vis, env, st, o);
    var h := EmitHeader(x, iter, cx);
    assert (h.code, h.cx) == EmitLet(iter.held, true, iter.obj, cx);
    var st1 := ExecCs(w, fuel, h.code, st).st;
    var v := EvalE(w, iter.obj, env, st.tr).0;
    var vis1, env1 := vis[iter.held := Owned], env[iter.held := v];
    assert R(h.cx, vis1, env1, st1, o, 0);
    assert iter.held in vis1 && Rd(st1.vars, L(iter.held)) == v;
    forall y | y in vis ensures Rd(st1.vars, L(y)) == Rd(env, y) {
      assert y in vis1 && y != iter.held;
    }
  }

  lemma {:induction false} SimHeader(w: World, fuel: nat, x: nat, iter: Iter, cx: Cx, vis: View, n: nat, env: Env,
          st: CState, o: Watch)
    requires CxOk(cx, n) && VisOk(vis, n, cx.scopes) && GoodIter(x, iter, vis, n)
    requires R(cx, vis, env, st, o, 0) && Watched(w, o)
    ensures var h := EmitHeader(x, iter, cx);
            HeaderDone(w, x, iter, h, cx, vis, n, env, st, ExecCs(w, fuel, h.code, st), o)
  {
    hide R, CxOk, VisOk, GoodExpr, EvalE, HeaderDone, EmitHeader, GoodIter;
    match iter
    case Range(lo, hi) => SimRange(w, fuel, x, lo, hi, cx, vis, n, env, st, o);
    case Each(arr, ref) => SimEach(w, fuel, x, arr, ref, cx, vis, n, env, st, o);
    case EnumVals(vals) => SimEnum(w, fuel, x, vals, cx, vis, n, env, st, o);
    case Iterate(_, _, _, _, _, _) => SimIterate(w, fuel, x, iter, cx, vis, n, env, st, o);
  }

  lemma {:induction false} SimEnum(w: World, fuel: nat, x: nat, vals: seq<int>, cx: Cx, vis: View, n: nat, env: Env,
          st: CState, o: Watch)
    requires CxOk(cx, n) && R(cx, vis, env, st, o, 0)
    ensures var h := EmitHeader(x, EnumVals(vals), cx);
            HeaderDone(w, x, EnumVals(vals), h, cx, vis, n, env, st, ExecCs(w, fuel, h.code, st), o)
  {
    RNextT(cx, vis, n, env, st, o, 0);
  }

  /** The state after the header, as the loop body finds it. */
  lemma {:induction false} HeaderReady(x: nat, iter: Iter, cx: Cx, vis: View, n: nat, inLoop: bool)
    requires GoodIter(x, iter, vis, n) && Ready(cx, vis, n, inLoop)
    ensures var h := EmitHeader(x, iter, cx);
      && h.cx.scopes != [] && CxOk(h.cx, x) && VisOk(vis, x, h.cx.scopes) && Grown(cx, h.cx)
      && h.iv !in Flat(h.cx.scopes)
  {
    hide VisOk;
    HeaderShape(x, iter, cx, vis, n);
    var h := EmitHeader(x, iter, cx);
    var hx := h.cx.(temps := cx.temps);
    ReadyNext(cx, hx, vis, n, x, inLoop);
    CxOkTemps(cx, h.cx, x);
    HeaderNamed(x, iter, cx, vis, n);
    FreshName(h.cx, x);
    FreshName(cx, n);
    EvolvesFacts(cx, hx, n, x);
    if iter.Iterate? {
      var cx1 := ExO(iter.obj, cx).1;
      assert Reg(cx1, L(iter.held)).scopes[1..] == cx.scopes[1..];
      assert Flat(h.cx.scopes) == cx.scopes[0].names + [L(n)] + Flat(cx.scopes[1..]);
      assert Flat(cx.scopes) == cx.scopes[0].names + Flat(cx.scopes[1..]);
    }
  }

  lemma {:induction false} CxOkTemps(cx: Cx, hx: Cx, x: nat)
    requires CxOk(hx.(temps := cx.temps), x) && Grown(cx, hx) && TempsOk(cx.temps, cx.tempc)
    ensures CxOk(hx, x)
  {
    forall i | 0 <= i < |hx.temps| ensures SpillIn(hx.temps[i], 0, hx.tempc) {
      if i < |cx.temps| { assert hx.temps[i] == cx.temps[i] && SpillIn(cx.temps[i], 0, cx.tempc); }
    }
    forall i, j | 0 <= i < j < |hx.temps| ensures hx.temps[i].n < hx.temps[j].n {
      if i < |cx.temps| { assert hx.temps[i] == cx.temps[i] && SpillIn(cx.temps[i], 0, cx.tempc); }
      if j < |cx.temps| { assert hx.temps[j] == cx.temps[j]; }
    }
  }

  // One iteration: read the limit, load the variable, run the body, step the counter.

  lemma {:induction false} IterBound(w: World, x: nat, iter: Iter, h: Header, vis: View, k: LoopSrc, env: Env,
          st: CState, o: Watch)
    requires Pinned(k, iter, h, st.vars) && R(h.cx, vis, env, st, o, 0) && Watched(w, o)
    ensures var (b, st1) := EvalC(w, h.bound, st);
      && Bound(w, k, st.tr) == (b, st1.tr) && st1.vars == st.vars && R(h.cx, vis, env, st1, o, 0)
  {
    hide R;
    if iter.Iterate? {
      var c := Rd(st.vars, L(iter.held));
      CallOne(w, iter.lenF, L(iter.held), st);
      StoreR(h.cx, vis, env, st, ECall(iter.lenF, [c]), o, 0);
    }
  }

  lemma {:induction false} CallOne(w: World, f: int, x: Name, st: CState)
    ensures var tr1 := st.tr + [ECall(f, [Rd(st.vars, x)])];
            EvalC(w, CCall(f, [CVar(x)], false), st) == (w.call(tr1), st.(tr := tr1))
  {
    assert [CVar(x)][1..] == [];
    assert EvalCs(w, [], st) == ([], st);
    var u := Rd(st.vars, x);
    assert [u] + [] == [u];
    assert EvalCs(w, [CVar(x)], st) == ([u] + [], st);
  }

  lemma {:induction false} CallTwo(w: World, f: int, x: Name, y: Name, ref: bool, st: CState)
    ensures var tr1 := st.tr + [ECall(f, [Rd(st.vars, x), Rd(st.vars, y)])];
            EvalC(w, CCall(f, [CVar(x), CVar(y)], ref), st) ==
            (w.call(tr1), if ref then Give(st.(tr := tr1), w.call(tr1)) else st.(tr := tr1))
  {
    var u, v := Rd(st.vars, x), Rd(st.vars, y);
    assert [CVar(x), CVar(y)][1..] == [CVar(y)] && [CVar(y)][1..] == [];
    assert EvalCs(w, [], st) == ([], st);
    assert [v] + [] == [v];
    assert EvalCs(w, [CVar(y)], st) == ([v] + [], st);
    assert EvalCs(w, [CVar(x), CVar(y)], st) == ([u] + [v], st);
    assert [u] + [v] == [u, v];
  }

  /** The loop variable holds the item, and owns it when it is a reference. */
  ghost predicate Loaded(w: World, x: nat, iter: Iter, hx: Cx, vis: View, k: LoopSrc, i: int, env: Env, st: CState,
          out: COut, o: Watch)
    requires hx.scopes != []
  {
    var (v, tr1) := Item(w, k, i, st.tr);
    && out.CNorm? && out.st.tr == tr1 && Rd(out.st.vars, L(x)) == v
    && (forall y :: y != L(x) ==> Rd(out.st.vars, y) == Rd(st.vars, y))
    && R(RegIf(LoopBegin(hx), L(x), ItemIsRef(iter)), vis[x := LoopVarKind(iter)], env[x := v], out.st, o, 0)
  }

  /** Entering the body scope with the loop variable set and `d` counts for it in hand. */
  lemma {:induction false} EnterR(x: nat, iter: Iter, hx: Cx, vis: View, env: Env, st: CState, v: Val, o: Watch)
    requires hx.scopes != [] && CxOk(hx, x)
    requires R(hx, vis, env, st, o, if ItemIsRef(iter) && v == o.id then 1 else 0)
    ensures R(RegIf(LoopBegin(hx), L(x), ItemIsRef(iter)), vis[x := LoopVarKind(iter)], env[x := v], Put(st, L(x), v),
        o, 0)
  {
    hide R, CxOk, Own, Net;
    var visIn, env1, d := vis[x := LoopVarKind(iter)], env[x := v], if ItemIsRef(iter) && v == o.id then 1 else 0;
    var cx0 := LoopBegin(hx);
    assert cx0.scopes[1..] == hx.scopes;
    FreshName(hx, x);
    PutVarR(hx, vis, x, env, st, x, v, LoopVarKind(iter), o, d);
    QuietR(hx, cx0, visIn, env1, Put(st, L(x), v), o, d);
    if ItemIsRef(iter) { RegR(cx0, visIn, x, env1, Put(st, L(x), v), L(x), o, d); }
  }

  lemma {:induction false} LoadEach(w: World, fuel: nat, x: nat, iter: Iter, h: Header, vis: View, k: LoopSrc, i: int,
          env: Env, st: CState, o: Watch)
    requires iter.Each? && h.cx.scopes != [] && CxOk(h.cx, x) && Pinned(k, iter, h, st.vars)
    requires R(h.cx, vis, env, st, o, 0) && Rd(st.vars, h.iv) == i && Watched(w, o)
    ensures Loaded(w, x, iter, h.cx, vis, k, i, env, st, ExecCs(w, fuel, LoadItem(x, iter, h.iv, h.ta), st), o)
  {
    hide R, CxOk, Own, Net, Flat, ExecCs, Reg, LoopBegin, Backed, Live, Bump;
    var v := w.elem(st.tr, k.arr, i);
    EachRun(w, fuel, x, iter, h.iv, h.ta, st);
    if iter.ref {
      ShownLive(w, h.cx, vis, env, st, k.arr, i, o, 0);
      BumpR(h.cx, vis, env, st, v, 1, o, 0);
      EnterR(x, iter, h.cx, vis, env, Bump(st, v, 1), v, o);
    } else {
      EnterR(x, iter, h.cx, vis, env, st, v, o);
    }
  }

  /** The element goes into the loop variable, which takes its own count on a reference. */
  lemma {:induction false} EachRun(w: World, fuel: nat, x: nat, iter: Iter, iv: Name, ta: Name, st: CState)
    requires iter.Each?
    ensures var v := w.elem(st.tr, Rd(st.vars, ta), Rd(st.vars, iv));
            var st1 := if iter.ref then Bump(st, v, 1) else st;
      && ExecCs(w, fuel, LoadItem(x, iter, iv, ta), st) == CNorm(Put(st1, L(x), v))
      && st1.vars == st.vars && st1.tr == st.tr
  {
    var c := CSet(L(x), CElem(ta, iv));
    if iter.ref {
      assert LoadItem(x, iter, iv, ta) == [c] + [CRetainVar(L(x))];
      StepC(w, fuel, c, [CRetainVar(L(x))], st);
      RunOne(w, fuel, CRetainVar(L(x)), ExecC(w, fuel, c, st).st);
    } else {
      assert LoadItem(x, iter, iv, ta) == [c];
      RunOne(w, fuel, c, st);
    }
  }

  lemma {:induction false} LoadIterate(w: World, fuel: nat, x: nat, iter: Iter, h: Header, vis: View, k: LoopSrc,
          i: int, env: Env, st: CState, o: Watch)
    requires iter.Iterate? && h.cx.scopes != [] && CxOk(h.cx, x) && Pinned(k, iter, h, st.vars)
    requires R(h.cx, vis, env, st, o, 0) && Rd(st.vars, h.iv) == i && Watched(w, o)
    ensures Loaded(w, x, iter, h.cx, vis, k, i, env, st, ExecCs(w, fuel, LoadItem(x, iter, h.iv, h.ta), st), o)
  {
    hide R, CxOk, Own, Net, EvalC, Flat, ExecCs, Reg;
    var ev := ECall(iter.atF, [k.obj, i]);
    CallTwo(w, iter.atF, L(iter.held), L(iter.index), iter.ref, st);
    StoreR(h.cx, vis, env, st, ev, o, 0);
    var st1 := st.(tr := st.tr + [ev]);
    var v := w.call(st1.tr);
    GiveR(h.cx, vis, env, st1, v, o, 0);
    EnterR(x, iter, h.cx, vis, env, if iter.ref then Give(st1, v) else st1, v, o);
    RunOne(w, fuel, CSet(L(x), CCall(iter.atF, [CVar(L(iter.held)), CVar(L(iter.index))], iter.ref)), st);
  }

  lemma {:induction false} LoadPlain(w: World, fuel: nat, x: nat, iter: Iter, h: Header, vis: View, k: LoopSrc, i: int,
          env: Env, st: CState, o: Watch)
    requires (iter.Range? || iter.EnumVals?) && h.cx.scopes != [] && CxOk(h.cx, x) && Pinned(k, iter, h, st.vars)
    requires iter.Range? ==> h.iv == L(x)
    requires R(h.cx, vis, env, st, o, 0) && Rd(st.vars, h.iv) == i && Watched(w, o)
    ensures Loaded(w, x, iter, h.cx, vis, k, i, env, st, ExecCs(w, fuel, LoadItem(x, iter, h.iv, h.ta), st), o)
  {
    hide R, CxOk, Own, Net;
    var v := Item(w, k, i, st.tr).0;
    EnterR(x, iter, h.cx, vis, env, st, v, o);
    if iter.Range? {
      RSame(LoopBegin(h.cx), vis[x := LoopVarKind(iter)], env[x := v], Put(st, L(x), v), st, o, 0);
    } else {
      RunOne(w, fuel, CSet(L(x), CTable(iter.vals, h.iv)), st);
    }
  }

  lemma {:induction false} IterLoad(w: World, fuel: nat, x: nat, iter: Iter, h: Header, vis: View, k: LoopSrc, i: int,
          env: Env, st: CState, o: Watch)
    requires h.cx.scopes != [] && CxOk(h.cx, x) && Pinned(k, iter, h, st.vars)
    requires iter.Range? ==> h.iv == L(x)
    requires R(h.cx, vis, env, st, o, 0) && Rd(st.vars, h.iv) == i && Watched(w, o)
    ensures Loaded(w, x, iter, h.cx, vis, k, i, env, st, ExecCs(w, fuel, LoadItem(x, iter, h.iv, h.ta), st), o)
  {
    hide R, CxOk, Loaded, Pinned, ExecCs, LoadItem;
    if iter.Each? { LoadEach(w, fuel, x, iter, h, vis, k, i, env, st, o); }
    else if iter.Iterate? { LoadIterate(w, fuel, x, iter, h, vis, k, i, env, st, o); }
    else { LoadPlain(w, fuel, x, iter, h, vis, k, i, env, st, o); }
  }

  lemma {:induction false} FreshName(cx: Cx, n: nat)
    requires CxOk(cx, n)
    ensures forall m: nat :: n <= m ==> L(m) !in Flat(cx.scopes)
    ensures forall m: nat :: cx.tempc <= m ==> T(m) !in Flat(cx.scopes)
  {
    assert forall x :: x in Flat(cx.scopes) ==> NameOk(x, n, cx.tempc);
  }

  /** The relation reads variables only through `Rd`. */
  lemma {:induction false} RSame(cx: Cx, vis: View, env: Env, st: CState, st1: CState, o: Watch, k: int)
    requires R(cx, vis, env, st, o, k) && st.rc == st1.rc && st.tr == st1.tr && st.hurt == st1.hurt
    requires forall x :: Rd(st.vars, x) == Rd(st1.vars, x)
    ensures R(cx, vis, env, st1, o, k)
  {
    OwnSame(Flat(cx.scopes), st.vars, st1.vars, o);
    OwnSame(cx.temps, st.vars, st1.vars, o);
  }

  /** Variables that survive an iteration: all but a reference loop variable. */
  function LastView(x: nat, iter: Iter, vis: View): View {
    if ItemIsRef(iter) then vis else vis[x := LoopVarKind(iter)]
  }

  function LastName(x: nat, iter: Iter): nat {
    if ItemIsRef(iter) then x else x + 1
  }

  lemma {:induction false} BodyReady(x: nat, iter: Iter, hx: Cx, vis: View, n: nat)
    requires hx.scopes != [] && CxOk(hx, x) && VisOk(vis, x, hx.scopes) && n <= x && (forall y :: y in vis ==> y < n)
    ensures var cxr := RegIf(LoopBegin(hx), L(x), ItemIsRef(iter));
      && Ready(cxr, vis[x := LoopVarKind(iter)], x + 1, true)
      && cxr.scopes[0].names == (if ItemIsRef(iter) then [L(x)] else []) && cxr.scopes[0].isLoop
      && cxr.scopes[0].loopId == hx.loopc + 1 && cxr.scopes[1..] == hx.scopes
      && cxr.temps == hx.temps && cxr.tempc == hx.tempc
  {
    var cx0 := LoopBegin(hx);
    FreshName(hx, x);
    CxOkPush(hx.(loopc := hx.loopc + 1), x, LoopScope(hx));
    assert cx0.scopes[1..] == hx.scopes;
    if ItemIsRef(iter) {
      CxOkReg(cx0, x, L(x), x + 1, cx0.tempc);
      assert [] + [L(x)] == [L(x)];
    }
  }

  lemma {:induction false} ForPassBack(w: World, fuel: nat, x: nat, iter: Iter, hx: Cx, cx2: Cx, vis: View, n: nat,
          n1: nat, out: Out, cout: COut,
                    rt: RetType, st: CState, o: Watch)
    requires hx.scopes != [] && CxOk(hx, x) && VisOk(vis, x, hx.scopes) && n <= x && (forall y :: y in vis ==> y < n)
        && Watched(w, o)
    requires var cxr := RegIf(LoopBegin(hx), L(x), ItemIsRef(iter));
      && Evolves(cxr, cx2, x + 1, n1) && CxOk(cx2, n1)
      && Match(out, cout, cxr, cx2, vis[x := LoopVarKind(iter)], vis[x := LoopVarKind(iter)], x + 1, rt, st, o)
    ensures PassMatch(out, Then(w, fuel, cout, RelCode(cx2.scopes[0].names)), cx2.scopes[0], hx,
                      LastView(x, iter, vis), LastName(x, iter), rt, st, o)
  {
    hide R, Own, Net, CxOk, VisOk, ExecCs;
    var cxr := RegIf(LoopBegin(hx), L(x), ItemIsRef(iter));
    var visIn, visP, nP := vis[x := LoopVarKind(iter)], LastView(x, iter, vis), LastName(x, iter);
    BodyReady(x, iter, hx, vis, n);
    BodyInner(x, iter, cxr, cx2, hx.tempc, vis, n, n1);
    EvolvesFacts(cxr, cx2, x + 1, n1);
    RelNoLabels(cx2.scopes[0].names);
    TailFlat(cxr, cx2, hx, x + 1, n1);
    if out.Norm? {
      ForFrame(x, iter, vis, n, hx.tempc, cxr.tempc, st.vars, cout.st.vars);
      RLess(cx2, visIn, visP, out.env, cout.st, o);
      PopRun(w, fuel, hx, cx2, visP, nP, n1, out.env, out.tr, st, cout, o);
      var r := Then(w, fuel, cout, RelCode(cx2.scopes[0].names));
      QuietR(Pop(cx2), hx, visP, out.env, r.st, o, 0);
    } else if out.Brk? || out.Cont? {
      JumpBack(cxr, hx, visIn, visP, x + 1, nP, out.env, out.tr, st, cout.st, o);
      if cout.CGo? { LabelFreeNone(RelCode(cx2.scopes[0].names), cout.l); }
    }
  }

  lemma {:induction false} RLess(cx: Cx, vis: View, vis1: View, env: Env, st: CState, o: Watch)
    requires R(cx, vis, env, st, o, 0) && forall x :: x in vis1 ==> x in vis && vis[x] == vis1[x]
    ensures R(cx, vis1, env, st, o, 0)
  {
  }

  lemma {:induction false} TailFlat(cxr: Cx, cx2: Cx, hx: Cx, n: nat, n1: nat)
    requires Evolves(cxr, cx2, n, n1) && cxr.scopes[1..] == hx.scopes
    ensures |cx2.scopes| == |hx.scopes| + 1 && Flat(cx2.scopes[1..]) == Flat(hx.scopes)
    ensures cx2.scopes[0].isLoop == cxr.scopes[0].isLoop && cx2.scopes[0].loopId == cxr.scopes[0].loopId
  {
    var a := [cxr.scopes[0].(names := cx2.scopes[0].names)] + cxr.scopes[1..];
    assert a[1..] == hx.scopes;
    assert Kept(a[1..], cx2.scopes[1..]);
    KeptFacts(a[1..], cx2.scopes[1..]);
  }

  lemma {:induction false} BodyInner(x: nat, iter: Iter, cxr: Cx, cx2: Cx, tempc: nat, vis: View, n: nat, n1: nat)
    requires Evolves(cxr, cx2, x + 1, n1) && n <= x && (forall y :: y in vis ==> y < n)
    requires cxr.scopes[0].names == if ItemIsRef(iter) then [L(x)] else []
    ensures Inner(cx2.scopes[0].names, LastView(x, iter, vis), LastName(x, iter), tempc)
    ensures Inner(cxr.scopes[0].names, LastView(x, iter, vis), LastName(x, iter), tempc)
  {
    var a, b := cxr.scopes[0].names, cx2.scopes[0].names;
    forall y | y in b ensures y in a || BinderIn(y, x + 1, n1) {
      assert forall i :: 0 <= i < |b| ==> i < |a| || BinderIn(b[i], x + 1, n1);
      assert forall i :: 0 <= i < |a| ==> a[i] == b[i];
    }
  }

  lemma {:induction false} ForFrame(x: nat, iter: Iter, vis: View, n: nat, tempc: nat, tempc1: nat, a: map<Name, Val>,
          b: map<Name, Val>)
    requires Frame(vis[x := LoopVarKind(iter)], x + 1, tempc1, [], a, b) && tempc <= tempc1
    ensures Frame(LastView(x, iter, vis), LastName(x, iter), tempc, [], a, b)
  {
  }

  /** Stepping the counter for the next iteration. */
  lemma {:induction false} IterNext(x: nat, iter: Iter, h: Header, tempc: nat, vis: View, n: nat, k: LoopSrc, i: int,
                 env: Env, tr: Trace, st: CState, st1: CState, o: Watch)
    requires h.cx.scopes != [] && CxOk(h.cx, x) && HeaderNames(x, iter, h, tempc, n) && tempc <= h.cx.tempc
    requires h.iv !in Flat(h.cx.scopes) && forall y :: y in vis ==> y < n
    requires Pinned(k, iter, h, st.vars) && (!iter.Range? ==> Rd(st.vars, h.iv) == i)
    requires Back(h.cx, LastView(x, iter, vis), LastName(x, iter), h.cx.tempc, env, tr, st, st1, o)
    ensures var st2 := Put(st1, h.iv, Rd(st1.vars, h.iv) + 1);
      && R(h.cx, vis, env, st2, o, 0) && Rd(st2.vars, h.iv) == NextIndex(k, x, i, env) && st2.tr == tr
      && Pinned(k, iter, h, st2.vars) && Frame(vis, n, tempc, [], st.vars, st2.vars)
  {
    hide Own, Net, CxOk, VisOk, Flat, Clear, Safe;
    var visP, nP := LastView(x, iter, vis), LastName(x, iter);
    assert !iter.Range? ==> Hidden(h.iv, visP, nP, h.cx.tempc);
    assert iter.Range? || iter.Each? ==> Hidden(h.ta, visP, nP, h.cx.tempc);
    assert iter.Iterate? ==> Hidden(L(iter.held), visP, nP, h.cx.tempc);
    assert iter.Range? ==> x in visP;
    RLess(h.cx, visP, vis, env, st1, o);
    IvFree(x, iter, h, tempc, n);
    PutR(h.cx, vis, env, st1, h.iv, Rd(st1.vars, h.iv) + 1, o, 0);
    forall y: Name | Hidden(y, vis, n, tempc) ensures Rd(st.vars, y) == Rd(st1.vars, y) && y != h.iv {
      assert Hidden(y, visP, nP, h.cx.tempc);
    }
  }

  lemma {:induction false} IvFree(x: nat, iter: Iter, h: Header, tempc: nat, n: nat)
    requires h.cx.scopes != [] && CxOk(h.cx, x) && HeaderNames(x, iter, h, tempc, n)
    ensures !h.iv.S? && h.iv !in h.cx.temps && (h.iv.L? ==> h.iv.n >= n)
  {
    TempsNoLT(h.cx, x, h.iv);
  }

  function ForBody(s: Stmt, rt: RetType, h: Header): (r: (seq<CStmt>, Cx))
    requires s.For? && h.cx.scopes != []
    ensures r.1.scopes != []
  {
    var (b, cx2) := EmitAll(s.body, rt, RegIf(LoopBegin(h.cx), L(s.x), ItemIsRef(s.iter)));
    (LoadItem(s.x, s.iter, h.iv, h.ta) + (b + RelCode(cx2.scopes[0].names)), cx2)
  }

  /** A loop state the iteration lemmas can work with. */
  ghost predicate AtHead(s: Stmt, h: Header, cx: Cx, vis: View, n: nat, k: LoopSrc, i: int, env: Env, st: CState,
          o: Watch)
    requires s.For?
  {
    && cx.scopes != [] && h == EmitHeader(s.x, s.iter, cx) && h.cx.scopes != []
    && R(h.cx, vis, env, st, o, 0) && Rd(st.vars, h.iv) == i && Pinned(k, s.iter, h, st.vars)
  }

  lemma {:induction false} ForPass(w: World, fuel: nat, s: Stmt, rt: RetType, h: Header, cx: Cx, vis: View, n: nat,
          inLoop: bool,
                                   k: LoopSrc, i: int, env: Env, st: CState, o: Watch) returns (st1: CState)
    requires s.For? && !w.strict && Good(s, vis, n, inLoop, rt) && Ready(cx, vis, n, inLoop) && cx.scopes != []
    requires AtHead(s, h, cx, vis, n, k, i, env, st, o) && Watched(w, o)
    ensures var (v, tr1) := Item(w, k, i, st.tr);
            var (body, cx2) := ForBody(s, rt, h);
        && (forall y :: y != L(s.x) ==> Rd(st1.vars, y) == Rd(st.vars, y))
        && PassMatch(ExecAll(w, fuel, s.body, env[s.x := v], tr1), ExecCs(w, fuel, body, st), cx2.scopes[0], h.cx,
                     LastView(s.x, s.iter, vis), LastName(s.x, s.iter), rt, st1, o)
    decreases fuel, s, 2
  {
    hide R, CxOk, Pinned, GoodExpr, Flat, Own, Net, PassMatch, Match, EmitHeader, Good, EmitAll, ExecAll, ExecCs,
        LoadItem, RelCode, Item;
    var x, iter := s.x, s.iter;
    GoodForParts(s, vis, n, inLoop, rt);
    HeaderReady(x, iter, cx, vis, n, inLoop);
    HeaderNamed(x, iter, cx, vis, n);
    IterLoad(w, fuel, x, iter, h, vis, k, i, env, st, o);
    BodyReady(x, iter, h.cx, vis, n);
    var cxr := RegIf(LoopBegin(h.cx), L(x), ItemIsRef(iter));
    var (b, cx2) := EmitAll(s.body, rt, cxr);
    var rel := RelCode(cx2.scopes[0].names);
    var load := LoadItem(x, iter, h.iv, h.ta);
    st1 := ExecCs(w, fuel, load, st).st;
    var (v, tr1) := Item(w, k, i, st.tr);
    var visIn := vis[x := LoopVarKind(iter)];
    SimAll(w, fuel, s.body, rt, cxr, visIn, x + 1, true, env[x := v], st1, o);
    AllShape(s.body, rt, cxr, visIn, x + 1, true);
    var n1 := NextNames(s.body, x + 1);
    CxOkEvolves(cxr, cx2, x + 1, n1);
    ForPassBack(w, fuel, x, iter, h.cx, cx2, vis, n, n1, ExecAll(w, fuel, s.body, env[x := v], tr1),
        ExecCs(w, fuel, b, st1), rt, st1, o);
    ExecApp(w, fuel, load, b + rel, st);
    ExecApp(w, fuel, b, rel, st1);
  }

  lemma {:induction false} ForIter(w: World, fuel: nat, s: Stmt, rt: RetType, h: Header, cx: Cx, vis: View, n: nat,
          inLoop: bool,
                                   k: LoopSrc, i: int, env: Env, st: CState, o: Watch)
    requires s.For? && !w.strict && Good(s, vis, n, inLoop, rt) && Ready(cx, vis, n, inLoop)
    requires AtHead(s, h, cx, vis, n, k, i, env, st, o) && Watched(w, o)
    ensures var (body, cx2) := ForBody(s, rt, h);
            LoopMatch(ExecFor(w, fuel, k, s.x, i, s.body, env, st.tr), ExecCFor(w, fuel, h.iv, h.bound, body, st),
                      cx2.scopes[0], h.cx, vis, n, cx.tempc, rt, st, o)
    decreases fuel, s, 3
  {
    hide R, Net, EvalC, Frame, ForBody, EmitHeader, ExecAll, ExecCs, Item, Bound, Good, GoodIter, Pinned, Ready, Back,
        NextIndex, PassMatch;
    RUnhurt(h.cx, vis, env, st, o, 0);
    if fuel > 0 {
      var x := s.x;
      var (body, cx2) := ForBody(s, rt, h);
      IterBound(w, x, s.iter, h, vis, k, env, st, o);
      var (b, st1) := EvalC(w, h.bound, st);
      FrameEq(vis, n, cx.tempc, st.vars, st1.vars);
      BackNow(h.cx, vis, n, cx.tempc, env, st, st1, o);
      if i < b {
        var st2 := ForPass(w, fuel - 1, s, rt, h, cx, vis, n, inLoop, k, i, env, st1, o);
        var (v, tr2) := Item(w, k, i, st1.tr);
        var out, cout := ExecAll(w, fuel - 1, s.body, env[x := v], tr2), ExecCs(w, fuel - 1, body, st1);
        ForTurn(s, rt, h, cx, cx2.scopes[0], vis, n, inLoop, k, i, env, st, st1, st2, out, cout, o);
        if out.Norm? || out.Cont? {
          var st4 := Put(cout.st, h.iv, Rd(cout.st.vars, h.iv) + 1);
          var i1 := NextIndex(k, x, i, out.env);
          ForIter(w, fuel - 1, s, rt, h, cx, vis, n, inLoop, k, i1, out.env, st4, o);
          LoopMatchJoin(ExecFor(w, fuel - 1, k, x, i1, s.body, out.env, out.tr),
                        ExecCFor(w, fuel - 1, h.iv, h.bound, body, st4), cx2.scopes[0], h.cx, vis, n, cx.tempc, rt, st,
                            st4, o);
        }
      }
    }
  }

  /** After one pass: either the loop is over, or the next head is ready. */
  lemma {:induction false} ForTurn(s: Stmt, rt: RetType, h: Header, cx: Cx, ls: Scope, vis: View, n: nat, inLoop: bool,
          k: LoopSrc, i: int,
                env: Env, st: CState, st1: CState, st2: CState, out: Out, cout: COut, o: Watch)
    requires s.For? && Good(s, vis, n, inLoop, rt) && Ready(cx, vis, n, inLoop) && o.id != 0
    requires AtHead(s, h, cx, vis, n, k, i, env, st1, o) && st1.vars == st.vars
    requires forall y :: y != L(s.x) ==> Rd(st2.vars, y) == Rd(st1.vars, y)
    requires PassMatch(out, cout, ls, h.cx, LastView(s.x, s.iter, vis), LastName(s.x, s.iter), rt, st2, o)
    ensures match out
      case Timeout => cout.CTimeout? && Unhurt(cout.st, o)
      case Stray => false
      case Brk(env3, tr3) => (cout.CBrk? || (cout.CGo? && cout.l == ls.loopId && ls.needsLabel))
        && Back(h.cx, vis, n, cx.tempc, env3, tr3, st, cout.st, o)
      case Ret(v, tr1) => cout.CRet? && cout.v == v && cout.st.tr == tr1 && Unhurt(cout.st, o)
        && Net(cout.st, o) == if rt == Some(true) && v == o.id then 1 else 0
      case Panicked(tr1) => cout.CPanicked? && cout.st.tr == tr1 && Unhurt(cout.st, o)
      case _ =>
        && (if out.Norm? then cout.CNorm? else cout.CCont?)
        && var st4 := Put(cout.st, h.iv, Rd(cout.st.vars, h.iv) + 1);
        && AtHead(s, h, cx, vis, n, k, NextIndex(k, s.x, i, out.env), out.env, st4, o) && st4.tr == out.tr
        && Frame(vis, n, cx.tempc, [], st.vars, st4.vars)
  {
    hide R, Net, EmitHeader, Good, GoodIter, Pinned, Ready, Back, NextIndex, LastView, LastName;
    GoodForParts(s, vis, n, inLoop, rt);
    if out.Norm? || out.Cont? {
      ForStep(s, h, cx, vis, n, inLoop, k, i, out.env, out.tr, st1, st2, cout.st, o);
    } else if out.Brk? {
      ForLeave(s, h, cx, vis, n, inLoop, out.env, out.tr, st, st1, st2, cout.st, o);
    }
  }

  lemma {:induction false} BackNow(cx: Cx, vis: View, n: nat, tempc: nat, env: Env, st: CState, st1: CState, o: Watch)
    requires R(cx, vis, env, st1, o, 0) && Frame(vis, n, tempc, [], st.vars, st1.vars)
    ensures Back(cx, vis, n, tempc, env, st1.tr, st, st1, o)
  {
  }

  lemma {:induction false} FrameEq(vis: View, n: nat, tempc: nat, a: map<Name, Val>, b: map<Name, Val>)
    requires a == b
    ensures Frame(vis, n, tempc, [], a, b)
  {
  }

  /** From the end of a body to the next loop head. */
  lemma {:induction false} ForStep(s: Stmt, h: Header, cx: Cx, vis: View, n: nat, inLoop: bool, k: LoopSrc, i: int,
                env3: Env, tr3: Trace, st1: CState, st2: CState, st3: CState, o: Watch)
    requires s.For? && GoodIter(s.x, s.iter, vis, n) && Ready(cx, vis, n, inLoop) && h == EmitHeader(s.x, s.iter, cx)
    requires Pinned(k, s.iter, h, st1.vars) && Rd(st1.vars, h.iv) == i
    requires forall y :: y != L(s.x) ==> Rd(st2.vars, y) == Rd(st1.vars, y)
    requires h.cx.scopes != []
        && Back(h.cx, LastView(s.x, s.iter, vis), LastName(s.x, s.iter), h.cx.tempc, env3, tr3, st2, st3, o)
    ensures var st4 := Put(st3, h.iv, Rd(st3.vars, h.iv) + 1);
      && R(h.cx, vis, env3, st4, o, 0) && Rd(st4.vars, h.iv) == NextIndex(k, s.x, i, env3) && st4.tr == tr3
      && Pinned(k, s.iter, h, st4.vars) && Frame(vis, n, cx.tempc, [], st1.vars, st4.vars)
  {
    hide R, CxOk, EmitHeader;
    var x, iter := s.x, s.iter;
    HeaderReady(x, iter, cx, vis, n, inLoop);
    HeaderNamed(x, iter, cx, vis, n);
    assert Pinned(k, iter, h, st2.vars) && (!iter.Range? ==> Rd(st2.vars, h.iv) == i);
    IterNext(x, iter, h, cx.tempc, vis, n, k, i, env3, tr3, st2, st3, o);
  }

  lemma {:induction false} ForLeave(s: Stmt, h: Header, cx: Cx, vis: View, n: nat, inLoop: bool,
                 env3: Env, tr3: Trace, st: CState, st1: CState, st2: CState, st3: CState, o: Watch)
    requires s.For? && GoodIter(s.x, s.iter, vis, n) && Ready(cx, vis, n, inLoop) && h == EmitHeader(s.x, s.iter, cx)
    requires st1.vars == st.vars && forall y :: y != L(s.x) ==> Rd(st2.vars, y) == Rd(st1.vars, y)
    requires h.cx.scopes != []
        && Back(h.cx, LastView(s.x, s.iter, vis), LastName(s.x, s.iter), h.cx.tempc, env3, tr3, st2, st3, o)
    ensures Back(h.cx, vis, n, cx.tempc, env3, tr3, st, st3, o)
  {
    hide CxOk, EmitHeader, Own, Net;
    HeaderReady(s.x, s.iter, cx, vis, n, inLoop);
    RLess(h.cx, LastView(s.x, s.iter, vis), vis, env3, st3, o);
    forall y: Name | Hidden(y, vis, n, cx.tempc) ensures Rd(st.vars, y) == Rd(st3.vars, y) {
      assert Hidden(y, LastView(s.x, s.iter, vis), LastName(s.x, s.iter), h.cx.tempc);
    }
  }

  lemma {:induction false} SimFor(w: World, fuel: nat, s: Stmt, rt: RetType, cx: Cx, vis: View, n: nat, inLoop: bool,
                                  env: Env, st: CState, o: Watch)
    requires s.For? && !w.strict && Good(s, vis, n, inLoop, rt) && Ready(cx, vis, n, inLoop)
    requires R(cx, vis, env, st, o, 0) && Watched(w, o)
    ensures var (code, cx1) := EmitFor(s, rt, cx);
            Match(Exec(w, fuel, s, env, st.tr), ExecCs(w, fuel, code, st), cx, cx1, vis, vis, n, rt, st, o)
    decreases fuel, s, 4
  {
    hide R, Own, Net, CxOk, GoodExpr, Frame, ExecCFor, ExecFor, EmitHeader, Flat, Pinned, Good, EvalE;
    var x, iter := s.x, s.iter;
    GoodForParts(s, vis, n, inLoop, rt);
    SimHeader(w, fuel, x, iter, cx, vis, n, env, st, o);
    HeaderReady(x, iter, cx, vis, n, inLoop);
    var h := EmitHeader(x, iter, cx);
    var st1 := ExecCs(w, fuel, h.code, st).st;
    var (k, i, tr1) := LoopStart(w, iter, env, st.tr);
    var st2 := Put(st1, h.iv, i);
    ForInit(s, h, cx, vis, n, inLoop, k, i, env, st, st1, o);
    ForIter(w, fuel, s, rt, h, cx, vis, n, inLoop, k, i, env, st2, o);
    var (body, cx2) := ForBody(s, rt, h);
    var out, cout := ExecFor(w, fuel, k, x, i, s.body, env, tr1), ExecCFor(w, fuel, h.iv, h.bound, body, st2);
    LoopMatchJoin(out, cout, cx2.scopes[0], h.cx, vis, n, cx.tempc, rt, st, st2, o);
    ForTail(w, fuel, s, rt, cx, vis, n, inLoop, out, cout, st, st1, o);
  }

  /** Setting the counter opens the loop. */
  lemma {:induction false} ForInit(s: Stmt, h: Header, cx: Cx, vis: View, n: nat, inLoop: bool, k: LoopSrc, i: int,
          env: Env,
                st: CState, st1: CState, o: Watch)
    requires s.For? && GoodIter(s.x, s.iter, vis, n) && Ready(cx, vis, n, inLoop) && h == EmitHeader(s.x, s.iter, cx)
    requires h.cx.scopes != [] && R(h.cx, vis, env, st1, o, 0) && Pinned(k, s.iter, h, st1.vars)
    requires Frame(vis, n, cx.tempc, [], st.vars, st1.vars)
    ensures AtHead(s, h, cx, vis, n, k, i, env, Put(st1, h.iv, i), o)
    ensures Frame(vis, n, cx.tempc, [], st.vars, Put(st1, h.iv, i).vars)
  {
    hide R, CxOk, EmitHeader;
    HeaderReady(s.x, s.iter, cx, vis, n, inLoop);
    HeaderNamed(s.x, s.iter, cx, vis, n);
    IvFree(s.x, s.iter, h, cx.tempc, n);
    PutR(h.cx, vis, env, st1, h.iv, i, o, 0);
  }

  /** After the loop: the label, then the temporaries that lived through it. */
  lemma {:induction false} ForTail(w: World, fuel: nat, s: Stmt, rt: RetType, cx: Cx, vis: View, n: nat, inLoop: bool,
          out: Out, cout: COut,
                st: CState, st1: CState, o: Watch)
    requires s.For? && Good(s, vis, n, inLoop, rt) && Ready(cx, vis, n, inLoop) && Watched(w, o)
    requires var h := EmitHeader(s.x, s.iter, cx);
      && h.cx.scopes != [] && ExecCs(w, fuel, h.code, st) == CNorm(st1)
      && var (body, cx2) := ForBody(s, rt, h);
      && cout == ExecC(w, fuel, CFor(h.iv, h.init, h.bound, body), st1)
      && LoopMatch(out, cout, cx2.scopes[0], h.cx, vis, n, cx.tempc, rt, st, o)
    ensures var (code, cx1) := EmitFor(s, rt, cx);
            Match(out, ExecCs(w, fuel, code, st), cx, cx1, vis, vis, n, rt, st, o)
  {
    hide R, Own, Net, CxOk, Frame, ExecC, EmitHeader, Flat, Good, GoodAll, GoodIter, EmitAll, RelCode, LoadItem;
    var x, iter := s.x, s.iter;
    GoodForParts(s, vis, n, inLoop, rt);
    HeaderReady(x, iter, cx, vis, n, inLoop);
    HeaderShape(x, iter, cx, vis, n);
    var h := EmitHeader(x, iter, cx);
    ForBodyShape(s, rt, h.cx, vis, n);
    var (body, cx2) := ForBody(s, rt, h);
    ForClose(x, cx, h.cx, cx2, n, NextName(s, n));
    var ls := cx2.scopes[0];
    var loop := CFor(h.iv, h.init, h.bound, body);
    var mid := [loop] + LoopEnd(ls);
    var fl := RelCode(Fresh(cx, h.cx));
    ExecApp(w, fuel, h.code, mid, st);
    ExecApp(w, fuel, h.code + mid, fl, st);
    LoopExit(w, fuel, out, cout, ls, h.cx, vis, n, cx.tempc, rt, st, o);
    assert mid[1..] == LoopEnd(ls);
    var r := Then(w, fuel, cout, LoopEnd(ls));
    assert ExecCs(w, fuel, mid, st1) == r;
    if out.Norm? {
      ForFlush(w, fuel, x, cx, h.cx, cx2, vis, n, NextName(s, n), out.env, st, r.st, o);
    }
  }

  lemma {:induction false} ForFlush(w: World, fuel: nat, x: nat, cx: Cx, hx: Cx, cx2: Cx, vis: View, n: nat, n1: nat,
          env: Env, st: CState, st1: CState, o: Watch)
    requires cx.scopes != [] && hx.scopes != [] && CxOk(hx, x) && Grown(cx, hx) && Watched(w, o) && x <= n1
    requires Evolves(LoopBegin(hx), cx2, x, n1)
    requires R(hx, vis, env, st1, o, 0) && Frame(vis, n, cx.tempc, [], st.vars, st1.vars)
    ensures |cx2.scopes| == |hx.scopes| + 1
    ensures Went(ExecCs(w, fuel, RelCode(Fresh(cx, hx)), st1), cx, Pop(cx2).(temps := cx.temps), vis, vis, n, env,
        st1.tr, st, o)
  {
    hide R, Own, Net;
    CxNotS(hx, x);
    FlushR(w, fuel, cx, hx, vis, x, env, st1, o, 0);
    var st2 := ExecCs(w, fuel, RelCode(Fresh(cx, hx)), st1).st;
    assert LoopBegin(hx).scopes[1..] == hx.scopes;
    TailFlat(LoopBegin(hx), cx2, hx, x, n1);
    QuietR(hx.(temps := cx.temps), Pop(cx2).(temps := cx.temps), vis, env, st2, o, 0);
  }

  // ---------------------------------------------------------------- switch

  /** The emitter's state when it reaches arm `i`. */
  function ArmCx(arms: seq<Arm>, i: nat, isStr: bool, rt: RetType, cx: Cx): (r: Cx)
    requires i <= |arms| && cx.scopes != []
    ensures r.scopes != []
    decreases i
  {
    if i == 0 then cx
    else ArmCx(arms[1..], i - 1, isStr, rt,
               if isStr && arms[0].isDefault then cx else EmitScope(arms[0].body, rt, cx).1)
  }

  lemma {:induction false} QuietTrans(a: Cx, b: Cx, c: Cx)
    requires a.scopes != [] && b.scopes != [] && c.scopes != [] && Quiet(a, b) && Quiet(b, c)
    ensures Quiet(a, c)
  {
  }

  lemma {:induction false} QuietSelf(a: Cx)
    requires a.scopes != []
    ensures Quiet(a, a)
  {
  }

  /** Around each emitted arm the state only moves quietly. */
  lemma {:induction false} ArmAt(arms: seq<Arm>, i: nat, isStr: bool, rt: RetType, cx: Cx, vis: View, n: nat,
          inLoop: bool)
    requires GoodArms(arms, vis, n, inLoop, rt) && i < |arms| && cx.scopes != [] && !(isStr && arms[i].isDefault)
    ensures var cxi := ArmCx(arms, i, isStr, rt, cx);
            var cxe := EmitScope(arms[i].body, rt, cxi).1;
            var cx3 := EmitArms(arms, isStr, rt, cx).1;
      && cxe.scopes != [] && cx3.scopes != [] && Quiet(cx, cxi) && Quiet(cxi, cxe) && Quiet(cxe, cx3)
    decreases i
  {
    hide Quiet;
    var cxa := if isStr && arms[0].isDefault then cx else EmitScope(arms[0].body, rt, cx).1;
    var n1 := NextNames(arms[0].body, n);
    if isStr && arms[0].isDefault { QuietSelf(cx); } else { ScopeShape(arms[0].body, rt, cx, vis, n, inLoop); }
    ArmsShape(arms[1..], isStr, rt, cxa, vis, n1, inLoop);
    if i == 0 {
      QuietSelf(cx);
    } else {
      ArmAt(arms[1..], i - 1, isStr, rt, cxa, vis, n1, inLoop);
      QuietTrans(cx, cxa, ArmCx(arms[1..], i - 1, isStr, rt, cxa));
    }
  }

  /** The C cases stand for the arms one by one. */
  lemma {:induction false} CasesAre(arms: seq<Arm>, rt: RetType, cx: Cx, key: int)
    requires cx.scopes != []
    ensures var cases := EmitArms(arms, false, rt, cx).0;
      && |cases| == |arms| && FindCase(cases, key) == FindArm(arms, key)
      && FindDefaultCase(cases) == FindDefault(arms)
      && forall i :: 0 <= i < |arms| ==>
          cases[i].body == EmitScope(arms[i].body, rt, ArmCx(arms, i, false, rt, cx)).0 + [CBreak]
    decreases |arms|
  {
    hide EmitScope;
    if arms != [] {
      var cases := EmitArms(arms, false, rt, cx).0;
      var cxa := EmitScope(arms[0].body, rt, cx).1;
      CasesAre(arms[1..], rt, cxa, key);
      assert cases[1..] == EmitArms(arms[1..], false, rt, cxa).0;
      forall i | 0 <= i < |arms|
        ensures cases[i].body == EmitScope(arms[i].body, rt, ArmCx(arms, i, false, rt, cx)).0 + [CBreak]
      {
        if i > 0 { assert cases[i] == cases[1..][i - 1] && arms[i] == arms[1..][i - 1]; }
      }
    }
  }

  /** The text tests stand for the arms that are not the default one. */
  lemma {:induction false} TestsAre(arms: seq<Arm>, rt: RetType, cx: Cx, key: int)
    requires cx.scopes != []
    ensures var cases := EmitArms(arms, true, rt, cx).0;
            var k, a := FindCase(cases, key), FindArm(arms, key);
      && (k < |cases| <==> a < |arms|)
      && (a < |arms| ==> cases[k].body == EmitScope(arms[a].body, rt, ArmCx(arms, a, true, rt, cx)).0)
    decreases |arms|
  {
    hide EmitScope, FindCase, IsRef;
    if arms != [] {
      if arms[0].isDefault {
        TestsAre(arms[1..], rt, cx, key);
      } else {
        var (b, cxa) := EmitScope(arms[0].body, rt, cx);
        var rest := EmitArms(arms[1..], true, rt, cxa).0;
        TestsAre(arms[1..], rt, cxa, key);
        FindCaseFirst(CCase(arms[0].values, false, b), rest, key);
      }
    }
  }

  lemma {:induction false} FindCaseFirst(c: CCase, rest: seq<CCase>, key: int)
    requires !c.isDefault
    ensures FindCase([c] + rest, key) == if key in c.labels then 0 else 1 + FindCase(rest, key)
  {
    assert ([c] + rest)[1..] == rest;
  }

  /** A case body leaves the C switch by its own break, never into the next case. */
  lemma {:induction false} RunCase(w: World, fuel: nat, cases: seq<CCase>, code: seq<CStmt>, st: CState)
    requires cases != [] && cases[0].body == code + [CBreak]
    ensures var out := ExecCs(w, fuel, code, st);
            RunCases(w, fuel, cases, st) == if out.CNorm? then CBrk(out.st) else out
  {
    hide ExecC;
    var out := ExecCs(w, fuel, code, st);
    ExecApp(w, fuel, code, [CBreak], st);
    if out.CNorm? { RunBreak(w, fuel, out.st); }
  }

  lemma {:induction false} RunBreak(w: World, fuel: nat, st: CState)
    ensures ExecCs(w, fuel, [CBreak], st) == CBrk(st)
  {
    RunOne(w, fuel, CBreak, st);
  }

  lemma {:induction false} SimHead(w: World, fuel: nat, subject: Expr, isStr: bool, cx: Cx, vis: View, n: nat,
          inLoop: bool,
                env: Env, st: CState, o: Watch)
    requires Ready(cx, vis, n, inLoop) && GoodExpr(subject, vis) && FitsRef(subject, isStr)
    requires R(cx, vis, env, st, o, 0) && Watched(w, o)
    ensures var (pre, cx2) := SwitchHead(subject, isStr, cx);
            var out := ExecCs(w, fuel, pre, st);
      && out.CNorm? && EvalE(w, subject, env, st.tr) == (Rd(out.st.vars, T(cx.tempc)), out.st.tr)
      && R(cx2, vis, env, out.st, o, 0) && Frame(vis, n, cx.tempc, [], st.vars, out.st.vars)
  {
    hide R, ExB, Ex, EvalC, EvalE, GoodExpr, CxOk, RelCode, VisOk, Flat;
    var m := cx.tempc;
    var cx0 := Push(cx, PLAIN.(isSwitch := true));
    CxOkPush(cx, n, PLAIN.(isSwitch := true));
    QuietR(cx, cx0, vis, env, st, o, 0);
    VisPush(vis, n, cx, PLAIN.(isSwitch := true));
    RNextT(cx0, vis, n, env, st, o, 0);
    IntoT(w, fuel, subject, isStr, m, NextT(cx0), vis, n, env, st, o, 0);
    var (c, cxe) := ExO(subject, NextT(cx0));
    assert (c, cxe) == ExFor(subject, isStr, NextT(cx0));
    GrownT(cx0, cxe);
    var st1 := ExecC(w, fuel, CSet(T(m), c), st).st;
    var v := Rd(st1.vars, T(m));
    var cxr := RegIf(cxe, T(m), isStr);
    if isStr { RegR(cxe, vis, n, env, st1, T(m), o, if v == o.id then 1 else 0); }
    HeadNotS(cxe, T(m), isStr, n);
    FlushR(w, fuel, cx0, cxr, vis, n, env, st1, o, 0);
    StepC(w, fuel, CSet(T(m), c), RelCode(Fresh(cx0, cxr)), st);
  }

  lemma {:induction false} VisPush(vis: View, n: nat, cx: Cx, s: Scope)
    requires VisOk(vis, n, cx.scopes) && s.names == []
    ensures VisOk(vis, n, Push(cx, s).scopes)
  {
    assert Push(cx, s).scopes[1..] == cx.scopes;
  }

  lemma {:induction false} HeadNotS(cxe: Cx, t: Name, isStr: bool, n: nat)
    requires CxOk(cxe, n) && !t.S?
    ensures TempsOk(cxe.temps, cxe.tempc)
    ensures forall x :: x in Flat(RegIf(cxe, t, isStr).scopes) ==> !x.S?
  {
    CxNotS(cxe, n);
    var cxr := RegIf(cxe, t, isStr);
    assert cxr.scopes[1..] == cxe.scopes[1..];
    assert Flat(cxe.scopes) == cxe.scopes[0].names + Flat(cxe.scopes[1..]);
  }

  lemma {:induction false} HeadReady(subject: Expr, isStr: bool, cx: Cx, vis: View, n: nat, inLoop: bool)
    requires Ready(cx, vis, n, inLoop)
    ensures var cx2 := SwitchHead(subject, isStr, cx).1;
            Ready(cx2, vis, n, inLoop) && Crossed(cx2.scopes)
  {
    hide CxOk;
    HeadShape(subject, isStr, cx);
    var cx2 := SwitchHead(subject, isStr, cx).1;
    var c0 := Push(cx, PLAIN.(isSwitch := true));
    CxOkPush(cx, n, PLAIN.(isSwitch := true));
    assert c0.scopes[1..] == cx.scopes && cx2.scopes[1..] == cx.scopes;
    assert Flat(c0.scopes) == Flat(cx.scopes);
    FreshName(cx, n);
    if isStr {
      CxOkReg(c0, n, T(cx.tempc), n, cx2.tempc);
      assert [] + [T(cx.tempc)] == [T(cx.tempc)];
      assert cx2 == Reg(c0, T(cx.tempc)).(tempc := cx2.tempc);
    } else {
      assert cx2 == c0.(tempc := cx2.tempc);
      CxOkLater(c0, cx2.tempc, n);
    }
  }

  lemma {:induction false} CxOkLater(cx: Cx, tempc: nat, n: nat)
    requires CxOk(cx, n) && cx.tempc <= tempc
    ensures CxOk(cx.(tempc := tempc), n)
  {
  }

  /** One arm, emitted at `cxi` and left at `cxe`, seen from the whole switch. */
  lemma {:induction false} SimArm(w: World, fuel: nat, s: Stmt, k: nat, rt: RetType, cx2: Cx, cxi: Cx, cx4: Cx,
          vis: View, n: nat,
                                  inLoop: bool, env: Env, st: CState, o: Watch)
    requires s.Switch? && k < |s.arms| && !w.strict && GoodArms(s.arms, vis, n, inLoop, rt)
        && Ready(cx2, vis, n, inLoop)
    requires R(cx2, vis, env, st, o, 0) && Watched(w, o)
    requires cx2.scopes != [] && cxi.scopes != [] && cx4.scopes != []
    requires Quiet(cx2, cxi) && Quiet(EmitScope(s.arms[k].body, rt, cxi).1, cx4)
    requires EmitScope(s.arms[k].body, rt, cxi).1.scopes != []
    ensures Match(ExecAll(w, fuel, s.arms[k].body, env, st.tr),
        ExecCs(w, fuel, EmitScope(s.arms[k].body, rt, cxi).0, st),
                  cx2, cx4, vis, vis, n, rt, st, o)
    decreases fuel, s, 2
  {
    hide R, CxOk, VisOk, Match, Flat, EmitScope, ExecAll, ExecCs;
    var body := s.arms[k].body;
    var m := ArmStart(s.arms, k, n);
    GoodArmAt(s.arms, k, vis, n, inLoop, rt);
    ReadyQuiet(cx2, cxi, vis, n, inLoop);
    ReadyMore(cxi, vis, n, m, inLoop);
    QuietFlat(cx2, cxi);
    QuietR(cx2, cxi, vis, env, st, o, 0);
    SimScope(w, fuel, body, rt, cxi, vis, m, inLoop, env, st, o);
    ScopeShape(body, rt, cxi, vis, m, inLoop);
    var (code, cxe) := EmitScope(body, rt, cxi);
    MatchQuiet(ExecAll(w, fuel, body, env, st.tr), ExecCs(w, fuel, code, st), cx2, cxi, cxe, cx4, vis, n, m, rt, st, o);
  }

  function SwitchBody(s: Stmt, rt: RetType, sv: Name, cx2: Cx): (r: (CStmt, Cx))
    requires s.Switch? && cx2.scopes != []
    ensures r.1.scopes != []
  {
    var (cases, cx3) := EmitArms(s.arms, s.isStr, rt, cx2);
    var d := FindDefault(s.arms);
    var (els, cx4) := if s.isStr && d < |s.arms| then EmitScope(s.arms[d].body, rt, cx3) else ([], cx3);
    (if s.isStr then CTextChain(sv, cases, els) else CSwitch(sv, cases), cx4)
  }

  /** What the source switch does once its subject is `v`. */
  function PickOut(w: World, fuel: nat, s: Stmt, v: Val, env: Env, tr: Trace): Out
    requires s.Switch?
  {
    var k := PickArm(s.arms, SwitchKey(w, s.isStr, v));
    if k < |s.arms| then ExecAll(w, fuel, s.arms[k].body, env, tr) else Norm(env, tr)
  }

  lemma {:induction false} NothingPicked(cx2: Cx, cx4: Cx, vis: View, n: nat, rt: RetType, env: Env, st: CState,
          o: Watch)
    requires cx2.scopes != [] && cx4.scopes != [] && Quiet(cx2, cx4) && R(cx2, vis, env, st, o, 0)
    ensures Match(Norm(env, st.tr), CNorm(st), cx2, cx4, vis, vis, n, rt, st, o)
  {
    hide R;
    QuietFlat(cx2, cx4);
    QuietR(cx2, cx4, vis, env, st, o, 0);
  }

  /** A C switch over the emitted cases runs the picked arm and nothing after it. */
  lemma {:induction false} IntsRun(w: World, fuel: nat, arms: seq<Arm>, rt: RetType, sv: Name, cx2: Cx, st: CState)
    requires cx2.scopes != []
    ensures var out := ExecC(w, fuel, CSwitch(sv, EmitArms(arms, false, rt, cx2).0), st);
            var k := PickArm(arms, Rd(st.vars, sv));
      && (k == |arms| ==> out == CNorm(st))
      && (k < |arms| ==>
            var r := ExecCs(w, fuel, EmitScope(arms[k].body, rt, ArmCx(arms, k, false, rt, cx2)).0, st);
            out == if r.CBrk? then CNorm(r.st) else r)
  {
    hide EmitScope, ExecCs, EmitArms, ArmCx, FindCase, FindDefaultCase;
    var v := Rd(st.vars, sv);
    var cases := EmitArms(arms, false, rt, cx2).0;
    CasesAre(arms, rt, cx2, v);
    var k := PickArm(arms, v);
    if k < |arms| {
      assert cases[k..][0] == cases[k];
      RunCase(w, fuel, cases[k..], EmitScope(arms[k].body, rt, ArmCx(arms, k, false, rt, cx2)).0, st);
    } else {
      assert cases[k..] == [];
    }
  }

  lemma {:induction false} SimInts(w: World, fuel: nat, s: Stmt, rt: RetType, sv: Name, cx2: Cx, vis: View, n: nat,
                                   inLoop: bool, env: Env, st: CState, o: Watch)
    requires s.Switch? && !s.isStr && !w.strict && GoodArms(s.arms, vis, n, inLoop, rt)
    requires Ready(cx2, vis, n, inLoop) && Crossed(cx2.scopes)
    requires R(cx2, vis, env, st, o, 0) && Watched(w, o)
    ensures var (body, cx4) := SwitchBody(s, rt, sv, cx2);
            Match(PickOut(w, fuel, s, Rd(st.vars, sv), env, st.tr), ExecC(w, fuel, body, st), cx2, cx4, vis, vis, n, rt,
                st, o)
    decreases fuel, s, 3
  {
    hide R, CxOk, VisOk, Flat, EmitScope, ExecAll, ExecCs, ExecC, EmitArms, Quiet, GoodArms, Jumped;
    var cx4 := EmitArms(s.arms, false, rt, cx2).1;
    ArmsShape(s.arms, false, rt, cx2, vis, n, inLoop);
    IntsRun(w, fuel, s.arms, rt, sv, cx2, st);
    var k := PickArm(s.arms, Rd(st.vars, sv));
    if k < |s.arms| {
      ArmAt(s.arms, k, false, rt, cx2, vis, n, inLoop);
      SimArm(w, fuel, s, k, rt, cx2, ArmCx(s.arms, k, false, rt, cx2), cx4, vis, n, inLoop, env, st, o);
    } else {
      NothingPicked(cx2, cx4, vis, n, rt, env, st, o);
    }
  }

  lemma {:induction false} SimTexts(w: World, fuel: nat, s: Stmt, rt: RetType, sv: Name, cx2: Cx, vis: View, n: nat,
                                    inLoop: bool, env: Env, st: CState, o: Watch)
    requires s.Switch? && s.isStr && !w.strict && GoodArms(s.arms, vis, n, inLoop, rt)
    requires Ready(cx2, vis, n, inLoop)
    requires R(cx2, vis, env, st, o, 0) && Watched(w, o)
    ensures var (body, cx4) := SwitchBody(s, rt, sv, cx2);
            Match(PickOut(w, fuel, s, Rd(st.vars, sv), env, st.tr), ExecC(w, fuel, body, st), cx2, cx4, vis, vis, n, rt,
                st, o)
    decreases fuel, s, 3
  {
    hide R, CxOk, VisOk, Flat, EmitScope, ExecAll, Quiet, GoodArms, Match;
    var key := w.text(Rd(st.vars, sv));
    var (cases, cx3) := EmitArms(s.arms, true, rt, cx2);
    var cx4 := SwitchBody(s, rt, sv, cx2).1;
    TestsAre(s.arms, rt, cx2, key);
    ArmsShape(s.arms, true, rt, cx2, vis, n, inLoop);
    var d, k := FindDefault(s.arms), FindArm(s.arms, key);
    QuietSelf(cx3);
    if d < |s.arms| {
      GoodArmAt(s.arms, d, vis, n, inLoop, rt);
      ScopeShape(s.arms[d].body, rt, cx3, vis, ArmStart(s.arms, d, n), inLoop);
      QuietSelf(cx4);
    }
    QuietTrans(cx2, cx3, cx4);
    if k < |s.arms| {
      var cxi := ArmCx(s.arms, k, true, rt, cx2);
      ArmAt(s.arms, k, true, rt, cx2, vis, n, inLoop);
      QuietTrans(EmitScope(s.arms[k].body, rt, cxi).1, cx3, cx4);
      SimArm(w, fuel, s, k, rt, cx2, cxi, cx4, vis, n, inLoop, env, st, o);
    } else if d < |s.arms| {
      SimArm(w, fuel, s, d, rt, cx2, cx3, cx4, vis, n, inLoop, env, st, o);
    } else {
      NothingPicked(cx2, cx4, vis, n, rt, env, st, o);
    }
  }

  lemma {:induction false} SimSwitch(w: World, fuel: nat, s: Stmt, rt: RetType, cx: Cx, vis: View, n: nat, inLoop: bool,
                                     env: Env, st: CState, o: Watch)
    requires s.Switch? && !w.strict && Good(s, vis, n, inLoop, rt) && Ready(cx, vis, n, inLoop)
    requires R(cx, vis, env, st, o, 0) && Watched(w, o)
    ensures var (code, cx1) := EmitSwitch(s, rt, cx);
            Match(Exec(w, fuel, s, env, st.tr), ExecCs(w, fuel, code, st), cx, cx1, vis, vis, n, rt, st, o)
    decreases fuel, s, 4
  {
    hide R, CxOk, Flat, EvalE, GoodExpr, Match, GoodArms, EmitArms, SwitchHead, Frame, SwitchBody, Quiet;
    SimHead(w, fuel, s.subject, s.isStr, cx, vis, n, inLoop, env, st, o);
    HeadReady(s.subject, s.isStr, cx, vis, n, inLoop);
    HeadShape(s.subject, s.isStr, cx);
    var (pre, cx2) := SwitchHead(s.subject, s.isStr, cx);
    var st1 := ExecCs(w, fuel, pre, st).st;
    var sv := T(cx.tempc);
    var (body, cx4) := SwitchBody(s, rt, sv, cx2);
    if s.isStr { SimTexts(w, fuel, s, rt, sv, cx2, vis, n, inLoop, env, st1, o); }
    else { SimInts(w, fuel, s, rt, sv, cx2, vis, n, inLoop, env, st1, o); }
    SwitchShut(w, fuel, s, rt, cx, cx2, vis, n, inLoop, PickOut(w, fuel, s, Rd(st1.vars, sv), env, st1.tr), st, st1, o);
  }

  lemma {:induction false} SwitchShut(w: World, fuel: nat, s: Stmt, rt: RetType, cx: Cx, cx2: Cx, vis: View, n: nat,
          inLoop: bool, out: Out,
                   st: CState, st1: CState, o: Watch)
    requires s.Switch? && GoodArms(s.arms, vis, n, inLoop, rt) && Ready(cx, vis, n, inLoop) && Watched(w, o)
    requires cx2 == SwitchHead(s.subject, s.isStr, cx).1 && cx2.scopes != [] && Ready(cx2, vis, n, inLoop)
    requires ExecCs(w, fuel, SwitchHead(s.subject, s.isStr, cx).0, st) == CNorm(st1)
    requires Frame(vis, n, cx.tempc, [], st.vars, st1.vars)
    requires var (body, cx4) := SwitchBody(s, rt, T(cx.tempc), cx2);
             Match(out, ExecC(w, fuel, body, st1), cx2, cx4, vis, vis, n, rt, st1, o)
    ensures var (code, cx1) := EmitSwitch(s, rt, cx);
            Match(out, ExecCs(w, fuel, code, st), cx, cx1, vis, vis, n, rt, st, o)
  {
    hide R, CxOk, Flat, Match, GoodArms, EmitArms, SwitchHead, Frame, EmitScope, ExecCs, RelCode;
    HeadShape(s.subject, s.isStr, cx);
    SwitchQuiet(s, rt, cx2, vis, n, inLoop);
    var (body, cx4) := SwitchBody(s, rt, T(cx.tempc), cx2);
    var pre := SwitchHead(s.subject, s.isStr, cx).0;
    QuietFacts(cx2, cx4, n);
    QuietEvolves(cx2, cx4, n, n);
    var names := cx4.scopes[0].names;
    assert Inner(names, vis, n, cx.tempc);
    var cout := ExecC(w, fuel, body, st1);
    ScopeClose(w, fuel, out, cout, cx, cx2, cx4, vis, n, n, rt, st1, o);
    EvolvesSame(cx, cx, n, n);
    MatchNext(out, Then(w, fuel, cout, RelCode(names)), cx, cx, Pop(cx4), vis, vis, n, n, rt, st, st1, o);
    BlockRun(w, fuel, pre, body, RelCode(names), st, st1);
  }

  lemma {:induction false} BlockRun(w: World, fuel: nat, pre: seq<CStmt>, body: CStmt, rel: seq<CStmt>, st: CState,
          st1: CState)
    requires ExecCs(w, fuel, pre, st) == CNorm(st1)
    ensures ExecCs(w, fuel, [CBlock(pre + ([body] + rel))], st) == Then(w, fuel, ExecC(w, fuel, body, st1), rel)
  {
    ExecApp(w, fuel, pre, [body] + rel, st);
    assert ([body] + rel)[1..] == rel;
    RunOne(w, fuel, CBlock(pre + ([body] + rel)), st);
  }

  lemma {:induction false} SwitchQuiet(s: Stmt, rt: RetType, cx2: Cx, vis: View, n: nat, inLoop: bool)
    requires s.Switch? && GoodArms(s.arms, vis, n, inLoop, rt) && cx2.scopes != []
    ensures Quiet(cx2, SwitchBody(s, rt, T(0), cx2).1)
    ensures forall sv :: SwitchBody(s, rt, sv, cx2).1 == SwitchBody(s, rt, T(0), cx2).1
  {
    ArmsShape(s.arms, s.isStr, rt, cx2, vis, n, inLoop);
    var cx3 := EmitArms(s.arms, s.isStr, rt, cx2).1;
    var d := FindDefault(s.arms);
    if s.isStr && d < |s.arms| {
      GoodArmAt(s.arms, d, vis, n, inLoop, rt);
      ScopeShape(s.arms[d].body, rt, cx3, vis, ArmStart(s.arms, d, n), inLoop);
    }
  }
}
