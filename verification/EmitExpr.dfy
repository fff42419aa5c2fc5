/** Expressions: the emitted fragment computes the source value, and every count it adds
    is accounted for by a pending temporary or by the value itself. */
module EmitExpr {
  import opened VytoLang
  import opened CTarget
  import opened EmitSpec

  /** The object a proof follows, the counts on it that others hold, and how many of those are
      lent by the caller.  `sound` says that the others are assumed to stand by theirs. */
  datatype Watch = Watch(id: Val, base: int, lent: nat, sound: bool)

  /** Counts on `o` that others hold: the callers, and the heap after the stores in `tr`. */
  ghost function Others(tr: Trace, o: Watch): int {
    o.base + HeapNet(tr, o.id)
  }

  /** A slot shows `o` only while the heap counts it, besides what the caller lends. */
  ghost predicate Backed(w: World, o: Watch) {
    forall tr, obj, i :: w.field(tr, obj, i) == o.id || w.elem(tr, obj, i) == o.id ==> Others(tr, o) > o.lent
  }

  ghost predicate Watched(w: World, o: Watch) {
    o.id != 0 && (o.sound ==> Backed(w, o))
  }

  /** `v` may be dereferenced, as far as `o` is concerned. */
  ghost predicate Live(v: Val, st: CState, o: Watch) {
    o.sound && v == o.id ==> Rd(st.rc, o.id) > 0
  }

  /** How many of the named variables hold `o`. */
  ghost function Own(names: seq<Name>, vars: map<Name, Val>, o: Watch): nat {
    if names == [] then 0 else (if Rd(vars, names[0]) == o.id then 1 else 0) + Own(names[1..], vars, o)
  }

  lemma {:induction false} OwnAppend(a: seq<Name>, b: seq<Name>, vars: map<Name, Val>, o: Watch)
    ensures Own(a + b, vars, o) == Own(a, vars, o) + Own(b, vars, o)
  {
    if a == [] {
      assert a + b == b;
    } else {
      assert (a + b)[1..] == a[1..] + b;
      OwnAppend(a[1..], b, vars, o);
    }
  }

  lemma {:induction false} OwnSame(names: seq<Name>, a: map<Name, Val>, b: map<Name, Val>, o: Watch)
    requires forall x :: x in names ==> Rd(a, x) == Rd(b, x)
    ensures Own(names, a, o) == Own(names, b, o)
  {
    if names != [] {
      assert names[0] in names;
      assert forall x :: x in names[1..] ==> x in names;
      OwnSame(names[1..], a, b, o);
    }
  }

  lemma {:induction false} OwnNone(names: seq<Name>, vars: map<Name, Val>, o: Watch)
    requires forall x :: x in names ==> Rd(vars, x) != o.id
    ensures Own(names, vars, o) == 0
  {
    if names != [] {
      assert names[0] in names;
      assert forall x :: x in names[1..] ==> x in names;
      OwnNone(names[1..], vars, o);
    }
  }

  /** References the stores in `tr` put into the heap, minus those they took out. */
  ghost function HeapNet(tr: Trace, id: Val): int {
    if tr == [] then 0 else HeapNet(tr[..|tr| - 1], id) + EventNet(tr[|tr| - 1], id)
  }

  ghost function EventNet(e: Event, id: Val): int {
    if e.EStore? && e.counted
    then (if e.now == id then 1 else 0) - (if e.was == id then 1 else 0)
    else 0
  }

  lemma {:induction false} HeapSnoc(tr: Trace, e: Event, id: Val)
    ensures HeapNet(tr + [e], id) == HeapNet(tr, id) + EventNet(e, id)
  {
    assert (tr + [e])[..|tr|] == tr;
  }

  /** Counts on `o` that neither a heap slot nor an outside holder explains. */
  ghost function Net(st: CState, o: Watch): int {
    Rd(st.rc, o.id) - HeapNet(st.tr, o.id) - o.base
  }

  ghost predicate Agree(vis: View, env: Env, vars: map<Name, Val>) {
    forall x :: x in vis ==> Rd(vars, L(x)) == Rd(env, x)
  }

  /** Temporaries not yet handed out are null. */
  ghost predicate ClearFrom(vars: map<Name, Val>, k: nat) {
    forall m: nat :: k <= m ==> Rd(vars, S(m)) == 0
  }

  ghost predicate SpillIn(x: Name, lo: nat, hi: nat) {
    x.S? && lo <= x.n < hi
  }

  /** What evaluation relies on to touch living objects only: whoever lends `o` still has it, and
      every reference in view is counted. */
  ghost predicate Armed(w: World, vis: View, env: Env, st: CState, o: Watch) {
    && Watched(w, o)
    && (o.sound ==>
          && Others(st.tr, o) >= o.lent && Net(st, o) >= 0
          && (forall x :: x in vis && !vis[x].Value? ==> Live(Rd(env, x), st, o)))
  }

  /** Only the named variables differ. */
  ghost predicate OnlyIn(a: map<Name, Val>, b: map<Name, Val>, names: seq<Name>) {
    forall x :: x !in names ==> Rd(a, x) == Rd(b, x)
  }

  /** From `cx` to `cx1` only fresh spill temporaries became pending. */
  ghost predicate Grown(cx: Cx, cx1: Cx) {
    && cx.tempc <= cx1.tempc
    && cx.temps <= cx1.temps
    && (forall i :: |cx.temps| <= i < |cx1.temps| ==> SpillIn(cx1.temps[i], cx.tempc, cx1.tempc))
    && (forall i, j :: |cx.temps| <= i < j < |cx1.temps| ==> cx1.temps[i].n < cx1.temps[j].n)
  }

  ghost function Fresh(cx: Cx, cx1: Cx): seq<Name>
    requires |cx.temps| <= |cx1.temps|
  {
    cx1.temps[|cx.temps|..]
  }

  lemma {:induction false} FreshJoin(cx: Cx, cx1: Cx, cx2: Cx)
    requires Grown(cx, cx1) && Grown(cx1, cx2)
    ensures Grown(cx, cx2)
    ensures Fresh(cx, cx2) == Fresh(cx, cx1) + Fresh(cx1, cx2)
  {
    forall i | |cx.temps| <= i < |cx2.temps|
      ensures SpillIn(cx2.temps[i], cx.tempc, cx2.tempc)
      ensures i < |cx1.temps| ==> cx2.temps[i].n < cx1.tempc
      ensures i >= |cx1.temps| ==> cx2.temps[i].n >= cx1.tempc
    {
      if i < |cx1.temps| { assert cx2.temps[i] == cx1.temps[i]; }
    }
    forall i, j | |cx.temps| <= i < j < |cx2.temps| ensures cx2.temps[i].n < cx2.temps[j].n {
      if j < |cx1.temps| { assert cx2.temps[i] == cx1.temps[i] && cx2.temps[j] == cx1.temps[j]; }
    }
  }

  lemma {:induction false} GrownSpill(cx: Cx)
    ensures Grown(cx, Spill(cx)) && Fresh(cx, Spill(cx)) == [S(cx.tempc)]
  {
  }

  lemma {:induction false} ExGrown(e: Expr, cx: Cx)
    ensures Grown(cx, Ex(e, cx).2)
    decreases e, 1
  {
    match e
    case Lit(_) =>
    case Bool(_) =>
    case Null =>
    case Var(_, _) =>
    case Call(_, args, _) => ArgsGrown(args, cx);
    case Field(obj, _, _) => ExBGrown(obj, cx);
    case And(l, r) => PairGrown(e, l, r, cx);
    case Or(l, r) => PairGrown(e, l, r, cx);
    case Arith(_, l, r) => PairGrown(e, l, r, cx);
  }

  lemma {:induction false} PairGrown(e: Expr, l: Expr, r: Expr, cx: Cx)
    requires l < e && r < e
    ensures Grown(cx, ExB(r, ExB(l, cx).1).1)
    decreases e, 0
  {
    ExBGrown(l, cx);
    ExBGrown(r, ExB(l, cx).1);
    FreshJoin(cx, ExB(l, cx).1, ExB(r, ExB(l, cx).1).1);
  }

  lemma {:induction false} ExBGrown(e: Expr, cx: Cx)
    ensures Grown(cx, ExB(e, cx).1)
    decreases e, 2
  {
    ExGrown(e, cx);
    var cx1 := Ex(e, cx).2;
    GrownSpill(cx1);
    FreshJoin(cx, cx1, Spill(cx1));
  }

  lemma {:induction false} ArgsGrown(es: seq<Expr>, cx: Cx)
    ensures Grown(cx, ExArgs(es, cx).1)
    decreases es
  {
    if es != [] {
      var cx1 := ExB(es[0], cx).1;
      ExBGrown(es[0], cx);
      ArgsGrown(es[1..], cx1);
      FreshJoin(cx, cx1, ExArgs(es[1..], cx1).1);
    }
  }

  // ---------------------------------------------------------------- simulation

  /** What evaluating an emitted fragment from `st` to `st1` did to `o`: the fresh temporaries
      hold their counts, and `extra` more belong to the value. */
  ghost predicate Spent(cx: Cx, cx1: Cx, st: CState, st1: CState, extra: int, o: Watch)
    requires |cx.temps| <= |cx1.temps|
  {
    && OnlyIn(st.vars, st1.vars, Fresh(cx, cx1))
    && Net(st1, o) == Net(st, o) + Own(Fresh(cx, cx1), st1.vars, o) + extra
    && Spared(st, st1, o)
  }

  /** The heap is as it was, and nothing dead was touched. */
  ghost predicate Spared(st: CState, st1: CState, o: Watch) {
    && HeapNet(st1.tr, o.id) == HeapNet(st.tr, o.id)
    && (o.sound && o.id in st1.hurt ==> o.id in st.hurt)
  }

  lemma {:induction false} SpentJoin(cx: Cx, cx1: Cx, cx2: Cx, st: CState, st1: CState, st2: CState, o: Watch, x: int)
    requires Grown(cx, cx1) && Grown(cx1, cx2)
    requires Spent(cx, cx1, st, st1, 0, o) && Spent(cx1, cx2, st1, st2, x, o)
    ensures Grown(cx, cx2) && Spent(cx, cx2, st, st2, x, o)
  {
    FreshJoin(cx, cx1, cx2);
    OwnAppend(Fresh(cx, cx1), Fresh(cx1, cx2), st2.vars, o);
    forall x | x in Fresh(cx, cx1) ensures Rd(st1.vars, x) == Rd(st2.vars, x) {
      assert SpillIn(x, cx.tempc, cx1.tempc);
      assert forall y :: y in Fresh(cx1, cx2) ==> SpillIn(y, cx1.tempc, cx2.tempc);
    }
    OwnSame(Fresh(cx, cx1), st1.vars, st2.vars, o);
  }

  /** Skipping code that would have spilled leaves its temporaries null. */
  lemma {:induction false} SpentSkip(cx: Cx, cx1: Cx, st: CState, o: Watch)
    requires Grown(cx, cx1) && o.id != 0 && ClearFrom(st.vars, cx.tempc)
    ensures Spent(cx, cx1, st, st, 0, o)
  {
    forall x | x in Fresh(cx, cx1) ensures Rd(st.vars, x) != o.id {
      assert SpillIn(x, cx.tempc, cx1.tempc);
    }
    OwnNone(Fresh(cx, cx1), st.vars, o);
  }

  /** The fragment `c` emitted from `cx` computes what `e` does and accounts for `o`. */
  ghost predicate Tracks(w: World, e: Expr, cx: Cx, c: CExpr, cx1: Cx, env: Env, st: CState, extra: bool, o: Watch) {
    var (u, st1) := EvalC(w, c, st);
    && Grown(cx, cx1)
    && EvalE(w, e, env, st.tr) == (u, st1.tr)
    && Spent(cx, cx1, st, st1, if extra && u == o.id then 1 else 0, o)
    && (IsRef(e) ==> Live(u, st1, o))
  }

  lemma {:induction false} SpentKeeps(w: World, cx: Cx, cx1: Cx, vis: View, env: Env, st: CState, st1: CState, x: nat,
          o: Watch)
    requires Grown(cx, cx1) && Agree(vis, env, st.vars) && ClearFrom(st.vars, cx.tempc)
    requires Spent(cx, cx1, st, st1, x, o) && Armed(w, vis, env, st, o)
    ensures Agree(vis, env, st1.vars) && ClearFrom(st1.vars, cx1.tempc) && Armed(w, vis, env, st1, o)
    ensures Rd(st1.rc, o.id) >= Rd(st.rc, o.id)
  {
    hide Backed;
    assert forall y :: y in Fresh(cx, cx1) ==> SpillIn(y, cx.tempc, cx1.tempc);
  }

  lemma {:induction false} AtomSim(w: World, e: Expr, cx: Cx, vis: View, env: Env, st: CState, o: Watch)
    requires e.Lit? || e.Bool? || e.Null? || e.Var?
    requires GoodExpr(e, vis) && Agree(vis, env, st.vars) && Armed(w, vis, env, st, o)
    ensures var (c, owned, cx1) := Ex(e, cx);
            Tracks(w, e, cx, c, cx1, env, st, owned, o)
  {
  }

  lemma {:induction false} ExSim(w: World, e: Expr, cx: Cx, vis: View, env: Env, st: CState, o: Watch)
    requires GoodExpr(e, vis) && Agree(vis, env, st.vars) && ClearFrom(st.vars, cx.tempc) && Armed(w, vis, env, st, o)
    ensures var (c, owned, cx1) := Ex(e, cx);
            Tracks(w, e, cx, c, cx1, env, st, owned, o)
    decreases e, 1
  {
    hide Spent, Agree, ClearFrom, Grown;
    match e
    case Call(f, args, ref) => CallSim(w, f, args, ref, cx, vis, env, st, o);
    case Field(obj, fld, ref) => FieldSim(w, obj, fld, ref, cx, vis, env, st, o);
    case And(l, r) => PairSim(w, e, l, r, cx, vis, env, st, o);
    case Or(l, r) => PairSim(w, e, l, r, cx, vis, env, st, o);
    case Arith(_, l, r) => PairSim(w, e, l, r, cx, vis, env, st, o);
    case _ => AtomSim(w, e, cx, vis, env, st, o);
  }

  /** A call event touches no slot, and only a reference result brings a count. */
  lemma {:induction false} CallNet(w: World, f: int, us: seq<Val>, ref: bool, st: CState, o: Watch)
    requires o.id != 0 && (o.sound ==> Net(st, o) >= 0 && Others(st.tr, o) >= 0)
    ensures var tr := st.tr + [ECall(f, us)];
            var v := w.call(tr);
            var st1 := if ref then Give(st.(tr := tr), v) else st.(tr := tr);
      && Net(st1, o) == Net(st, o) + (if ref && v == o.id then 1 else 0)
      && Spared(st, st1, o) && (ref ==> Live(v, st1, o))
  {
    HeapSnoc(st.tr, ECall(f, us), o.id);
  }

  lemma {:induction false} CallSim(w: World, f: int, args: seq<Expr>, ref: bool, cx: Cx, vis: View,
                                   env: Env, st: CState, o: Watch)
    requires GoodExpr(Call(f, args, ref), vis)
    requires Agree(vis, env, st.vars) && ClearFrom(st.vars, cx.tempc) && Armed(w, vis, env, st, o)
    ensures var (c, owned, cx1) := Ex(Call(f, args, ref), cx);
            Tracks(w, Call(f, args, ref), cx, c, cx1, env, st, owned, o)
    decreases args, 1
  {
    hide Backed, Agree, ClearFrom, Grown, Own, HeapNet, OnlyIn;
    ArgsSim(w, args, cx, vis, env, st, o);
    var (cs, cx1) := ExArgs(args, cx);
    var (us, st1) := EvalCs(w, cs, st);
    CallNet(w, f, us, ref, st1, o);
  }

  lemma {:induction false} FieldSim(w: World, obj: Expr, fld: int, ref: bool, cx: Cx, vis: View,
                                    env: Env, st: CState, o: Watch)
    requires GoodExpr(Field(obj, fld, ref), vis)
    requires Agree(vis, env, st.vars) && ClearFrom(st.vars, cx.tempc) && Armed(w, vis, env, st, o)
    ensures var (c, owned, cx1) := Ex(Field(obj, fld, ref), cx);
            Tracks(w, Field(obj, fld, ref), cx, c, cx1, env, st, owned, o)
    decreases obj, 3
  {
    ExBSim(w, obj, cx, vis, env, st, o);
  }

  /** Two operands in order, and the case where the second is skipped. */
  lemma {:induction false} PairSim(w: World, e: Expr, l: Expr, r: Expr, cx: Cx, vis: View, env: Env, st: CState,
          o: Watch)
    requires l < e && r < e && GoodExpr(l, vis) && GoodExpr(r, vis)
    requires Agree(vis, env, st.vars) && ClearFrom(st.vars, cx.tempc) && Armed(w, vis, env, st, o)
    ensures var (a, cx1) := ExB(l, cx);
            var (b, cx2) := ExB(r, cx1);
            var (u, st1) := EvalC(w, a, st);
            var (v, st2) := EvalC(w, b, st1);
            && Grown(cx, cx2)
            && EvalE(w, l, env, st.tr) == (u, st1.tr)
            && EvalE(w, r, env, st1.tr) == (v, st2.tr)
            && Spent(cx, cx2, st, st1, 0, o)
            && Spent(cx, cx2, st, st2, 0, o)
    decreases e, 0
  {
    var (a, cx1) := ExB(l, cx);
    var (b, cx2) := ExB(r, cx1);
    var (u, st1) := EvalC(w, a, st);
    var (v, st2) := EvalC(w, b, st1);
    ExBSim(w, l, cx, vis, env, st, o);
    SpentKeeps(w, cx, cx1, vis, env, st, st1, 0, o);
    ExBSim(w, r, cx1, vis, env, st1, o);
    SpentSkip(cx1, cx2, st1, o);
    SpentJoin(cx, cx1, cx2, st, st1, st1, o, 0);
    SpentJoin(cx, cx1, cx2, st, st1, st2, o, 0);
  }

  lemma {:induction false} ExBSim(w: World, e: Expr, cx: Cx, vis: View, env: Env, st: CState, o: Watch)
    requires GoodExpr(e, vis) && Agree(vis, env, st.vars) && ClearFrom(st.vars, cx.tempc) && Armed(w, vis, env, st, o)
    ensures var (c, cx1) := ExB(e, cx);
            Tracks(w, e, cx, c, cx1, env, st, false, o)
    decreases e, 2
  {
    ExSim(w, e, cx, vis, env, st, o);
    var (c, owned, cx1) := Ex(e, cx);
    if owned {
      var (u, st1) := EvalC(w, c, st);
      SpillSim(cx, cx1, st, st1, u, o);
    }
  }

  /** Spilling hands the value's count to a fresh pending temporary. */
  lemma {:induction false} SpillSim(cx: Cx, cx1: Cx, st: CState, st1: CState, u: Val, o: Watch)
    requires Grown(cx, cx1) && Spent(cx, cx1, st, st1, if u == o.id then 1 else 0, o)
    ensures Grown(cx, Spill(cx1)) && Spent(cx, Spill(cx1), st, Put(st1, S(cx1.tempc), u), 0, o)
  {
    var t := S(cx1.tempc);
    var st2 := Put(st1, t, u);
    GrownSpill(cx1);
    FreshJoin(cx, cx1, Spill(cx1));
    OwnAppend(Fresh(cx, cx1), [t], st2.vars, o);
    forall x | x in Fresh(cx, cx1) ensures Rd(st1.vars, x) == Rd(st2.vars, x) {
      assert SpillIn(x, cx.tempc, cx1.tempc);
    }
    OwnSame(Fresh(cx, cx1), st1.vars, st2.vars, o);
  }

  lemma {:induction false} ArgsSim(w: World, es: seq<Expr>, cx: Cx, vis: View, env: Env, st: CState, o: Watch)
    requires forall i :: 0 <= i < |es| ==> GoodExpr(es[i], vis)
    requires Agree(vis, env, st.vars) && ClearFrom(st.vars, cx.tempc) && Armed(w, vis, env, st, o)
    ensures var (cs, cx1) := ExArgs(es, cx);
            var (us, st1) := EvalCs(w, cs, st);
            && Grown(cx, cx1)
            && EvalArgs(w, es, env, st.tr) == (us, st1.tr)
            && Spent(cx, cx1, st, st1, 0, o)
    decreases es, 0
  {
    if es != [] {
      var (c, cx1) := ExB(es[0], cx);
      var (cs, cx2) := ExArgs(es[1..], cx1);
      var (u, st1) := EvalC(w, c, st);
      ExBSim(w, es[0], cx, vis, env, st, o);
      SpentKeeps(w, cx, cx1, vis, env, st, st1, 0, o);
      ArgsSim(w, es[1..], cx1, vis, env, st1, o);
      SpentJoin(cx, cx1, cx2, st, st1, EvalCs(w, cs, st1).1, o, 0);
      assert ([c] + cs)[0] == c && ([c] + cs)[1..] == cs;
    }
  }

  /** A value for a variable of type `ref`: one count on the value exactly when `ref`. */
  lemma {:induction false} ExForSim(w: World, e: Expr, ref: bool, cx: Cx, vis: View, env: Env, st: CState, o: Watch)
    requires GoodExpr(e, vis) && FitsRef(e, ref)
    requires Agree(vis, env, st.vars) && ClearFrom(st.vars, cx.tempc) && Armed(w, vis, env, st, o)
    ensures var (c, cx1) := ExFor(e, ref, cx);
            Tracks(w, e, cx, c, cx1, env, st, ref, o)
  {
    hide Backed, Agree, ClearFrom, Grown, Own, HeapNet, OnlyIn;
    if ref {
      ExSim(w, e, cx, vis, env, st, o);
    } else {
      ExBSim(w, e, cx, vis, env, st, o);
    }
  }
}
