/** What the emitter computes, as functions on its state: the scope stack with its owned
    names, the pending statement temporaries, and the two counters. */
module EmitSpec {
  import opened Basics
  import opened VytoLang
  import opened CTarget

  datatype Scope = Scope(names: seq<Name>, isLoop: bool, isSwitch: bool, loopId: nat, needsLabel: bool)

  /** `scopes[0]` is the innermost scope. */
  datatype Cx = Cx(scopes: seq<Scope>, temps: seq<Name>, tempc: nat, loopc: nat)

  const PLAIN := Scope([], false, false, 0, false)

  function Push(cx: Cx, s: Scope): Cx {
    cx.(scopes := [s] + cx.scopes)
  }

  function Pop(cx: Cx): Cx
    requires cx.scopes != []
  {
    cx.(scopes := cx.scopes[1..])
  }

  /** Give the innermost scope one more name to release. */
  function Reg(cx: Cx, x: Name): Cx
    requires cx.scopes != []
  {
    var s := cx.scopes[0];
    cx.(scopes := [s.(names := s.names + [x])] + cx.scopes[1..])
  }

  function RegIf(cx: Cx, x: Name, ref: bool): Cx
    requires cx.scopes != []
  {
    if ref then Reg(cx, x) else cx
  }

  /** Scratch temporary: the counter moves, nothing becomes pending. */
  function NextT(cx: Cx): Cx {
    cx.(tempc := cx.tempc + 1)
  }

  function Spill(cx: Cx): Cx {
    cx.(temps := cx.temps + [S(cx.tempc)], tempc := cx.tempc + 1)
  }

  /** VT_RELEASE of each name, last one first. */
  function RelCode(names: seq<Name>): (code: seq<CStmt>)
    ensures |code| == |names|
  {
    if names == [] then [] else RelCode(names[1..]) + [CReleaseNull(names[0])]
  }

  function Flush(cx: Cx, wm: nat): (seq<CStmt>, Cx)
    requires wm <= |cx.temps|
  {
    (RelCode(cx.temps[wm..]), cx.(temps := cx.temps[..wm]))
  }

  // ---------------------------------------------------------------- expressions

  /** Code, whether the value comes with its own count, and the state after. */
  function Ex(e: Expr, cx: Cx): (r: (CExpr, bool, Cx))
    ensures r.2.scopes == cx.scopes && r.2.loopc == cx.loopc && cx.temps <= r.2.temps
    ensures r.1 ==> IsRef(e)
    decreases e, 0
  {
    match e
    case Lit(n) => (CLit(n), false, cx)
    case Bool(b) => (CLit(Truth(b)), false, cx)
    case Null => (CLit(0), false, cx)
    case Var(x, _) => (CVar(L(x)), false, cx)
    case Call(f, args, ref) =>
      var (cs, cx1) := ExArgs(args, cx);
      (CCall(f, cs, ref), ref, cx1)
    case Field(obj, fld, _) =>
      var (c, cx1) := ExB(obj, cx);
      (CField(c, fld), false, cx1)
    case And(l, r) =>
      var (a, cx1) := ExB(l, cx);
      var (b, cx2) := ExB(r, cx1);
      (CAnd(a, b), false, cx2)
    case Or(l, r) =>
      var (a, cx1) := ExB(l, cx);
      var (b, cx2) := ExB(r, cx1);
      (COr(a, b), false, cx2)
    case Arith(op, l, r) =>
      var (a, cx1) := ExB(l, cx);
      var (b, cx2) := ExB(r, cx1);
      (CArith(op, a, b), false, cx2)
  }

  /** A borrowed value: one with its own count is spilled and released with the statement. */
  function ExB(e: Expr, cx: Cx): (r: (CExpr, Cx))
    ensures r.1.scopes == cx.scopes && r.1.loopc == cx.loopc && cx.temps <= r.1.temps
    decreases e, 1
  {
    var (c, owned, cx1) := Ex(e, cx);
    if owned then (CSpill(S(cx1.tempc), c), Spill(cx1)) else (c, cx1)
  }

  function ExArgs(es: seq<Expr>, cx: Cx): (r: (seq<CExpr>, Cx))
    ensures r.1.scopes == cx.scopes && r.1.loopc == cx.loopc && cx.temps <= r.1.temps
    decreases es
  {
    if es == [] then ([], cx) else
    var (c, cx1) := ExB(es[0], cx);
    var (cs, cx2) := ExArgs(es[1..], cx1);
    ([c] + cs, cx2)
  }

  /** A value the consumer owns: a borrowed reference is retained. */
  function ExO(e: Expr, cx: Cx): (r: (CExpr, Cx))
    ensures r.1.scopes == cx.scopes && r.1.loopc == cx.loopc && cx.temps <= r.1.temps
  {
    if !IsRef(e) then ExB(e, cx) else
    var (c, owned, cx1) := Ex(e, cx);
    (if owned then c else CRetain(c), cx1)
  }

  /** A value kept in a variable of reference type is owned, any other is borrowed. */
  function ExFor(e: Expr, ref: bool, cx: Cx): (r: (CExpr, Cx))
    ensures r.1.scopes == cx.scopes && r.1.loopc == cx.loopc && cx.temps <= r.1.temps
  {
    if ref then ExO(e, cx) else ExB(e, cx)
  }

  // ---------------------------------------------------------------- jumps

  predicate HasLoop(scopes: seq<Scope>) {
    scopes != [] && (scopes[0].isLoop || HasLoop(scopes[1..]))
  }

  /** Names of every scope up to and including the innermost loop's. */
  function JumpNames(scopes: seq<Scope>): seq<Name> {
    if scopes == [] then []
    else if scopes[0].isLoop then scopes[0].names
    else scopes[0].names + JumpNames(scopes[1..])
  }

  function Flat(scopes: seq<Scope>): seq<Name> {
    if scopes == [] then [] else scopes[0].names + Flat(scopes[1..])
  }

  /** release_for_jump with through_loop: scope by scope, each last name first. */
  function JumpCode(scopes: seq<Scope>): seq<CStmt> {
    if scopes == [] then []
    else if scopes[0].isLoop then RelCode(scopes[0].names)
    else RelCode(scopes[0].names) + JumpCode(scopes[1..])
  }

  function ReturnCode(scopes: seq<Scope>): seq<CStmt> {
    if scopes == [] then [] else RelCode(scopes[0].names) + ReturnCode(scopes[1..])
  }

  /** Does a switch lie between here and the innermost loop? */
  predicate Crossed(scopes: seq<Scope>) {
    scopes != [] && !scopes[0].isLoop && (scopes[0].isSwitch || Crossed(scopes[1..]))
  }

  function LoopOf(scopes: seq<Scope>): Scope
    requires HasLoop(scopes)
  {
    if scopes[0].isLoop then scopes[0] else LoopOf(scopes[1..])
  }

  /** Ask the innermost loop for a label. */
  function Mark(scopes: seq<Scope>): (r: seq<Scope>)
    ensures |r| == |scopes|
  {
    if scopes == [] then []
    else if scopes[0].isLoop then [scopes[0].(needsLabel := true)] + scopes[1..]
    else [scopes[0]] + Mark(scopes[1..])
  }

  // ---------------------------------------------------------------- statements

  /** The body of a C block: a fresh scope around the statements, released at its end. */
  function EmitScope(ss: seq<Stmt>, rt: RetType, cx: Cx): (r: (seq<CStmt>, Cx))
    requires cx.scopes != []
    ensures |r.1.scopes| == |cx.scopes| && |cx.temps| <= |r.1.temps|
    decreases ss, 1
  {
    var (code, cx1) := EmitAll(ss, rt, Push(cx, PLAIN));
    (code + RelCode(cx1.scopes[0].names), Pop(cx1))
  }

  function LoopScope(cx: Cx): Scope {
    Scope([], true, false, cx.loopc + 1, false)
  }

  function LoopBegin(cx: Cx): Cx {
    Push(cx, LoopScope(cx)).(loopc := cx.loopc + 1)
  }

  function LoopEnd(s: Scope): seq<CStmt> {
    if s.needsLabel then [CLabel(s.loopId)] else []
  }

  /** The statements at the head of a counted loop's body that load the loop variable. */
  function LoadItem(x: nat, iter: Iter, iv: Name, ta: Name): seq<CStmt> {
    match iter
    case Range(_, _) => []
    case Each(_, ref) =>
      [CSet(L(x), CElem(ta, iv))] + if ref then [CRetainVar(L(x))] else []
    case EnumVals(vals) => [CSet(L(x), CTable(vals, iv))]
    case Iterate(_, _, atF, held, index, ref) =>
      [CSet(L(x), CCall(atF, [CVar(L(held)), CVar(L(index))], ref))]
  }

  /** Header code, counter, its start, its limit, the array temporary, and the state. */
  datatype Header = Header(code: seq<CStmt>, iv: Name, init: CExpr, bound: CExpr, ta: Name, cx: Cx)

  function EmitHeader(x: nat, iter: Iter, cx: Cx): (h: Header)
    requires cx.scopes != []
    ensures |h.cx.scopes| == |cx.scopes| && h.cx.loopc == cx.loopc && |cx.temps| <= |h.cx.temps|
  {
    var wm := |cx.temps|;
    match iter
    case Range(lo, hi) =>
      var tlo, thi := T(cx.tempc), T(cx.tempc + 1);
      var (a, cx1) := ExB(lo, NextT(NextT(cx)));
      var (b, cx2) := ExB(hi, cx1);
      var (fl, cx3) := Flush(cx2, wm);
      Header([CSet(tlo, a), CSet(thi, b)] + fl, L(x), CVar(tlo), CVar(thi), thi, cx3)
    case Each(arr, _) =>
      var ta := T(cx.tempc);
      var (a, cx1) := ExB(arr, NextT(cx));
      Header([CSet(ta, a)], T(cx1.tempc), CLit(0), CLen(ta), ta, NextT(cx1))
    case EnumVals(vals) =>
      Header([], T(cx.tempc), CLit(0), CLit(|vals|), T(cx.tempc), NextT(cx))
    case Iterate(obj, lenF, _, held, index, _) =>
      var (a, cx1) := ExO(obj, cx);
      var (fl, cx2) := Flush(Reg(cx1, L(held)), wm);
      Header([CSet(L(held), a)] + fl, L(index), CLit(0), CCall(lenF, [CVar(L(held))], false), L(held), cx2)
  }

  function ItemIsRef(iter: Iter): bool {
    match iter
    case Each(_, ref) => ref
    case Iterate(_, _, _, _, _, ref) => ref
    case _ => false
  }

  function EmitLet(x: nat, ref: bool, init: Expr, cx: Cx): (r: (seq<CStmt>, Cx))
    requires cx.scopes != []
    ensures |r.1.scopes| == |cx.scopes| && |cx.temps| <= |r.1.temps|
  {
    var (c, cx1) := ExFor(init, ref, cx);
    var (fl, cx2) := Flush(RegIf(cx1, L(x), ref), |cx.temps|);
    ([CSet(L(x), c)] + fl, cx2)
  }

  function EmitEval(e: Expr, cx: Cx): (r: (seq<CStmt>, Cx))
    ensures r.1.scopes == cx.scopes && |cx.temps| <= |r.1.temps|
  {
    var (c, cx1) := ExB(e, cx);
    var (fl, cx2) := Flush(cx1, |cx.temps|);
    ([CEval(c)] + fl, cx2)
  }

  function EmitPanic(e: Expr, cx: Cx): (r: (seq<CStmt>, Cx))
    ensures r.1.scopes == cx.scopes && |cx.temps| <= |r.1.temps|
  {
    var (c, cx1) := ExB(e, cx);
    var (fl, cx2) := Flush(cx1, |cx.temps|);
    ([CPanic(c)] + fl, cx2)
  }

  /** The new reference is taken before the old one is let go, so `x = x` is safe. */
  function EmitAssign(x: nat, ref: bool, rhs: Expr, cx: Cx): (r: (seq<CStmt>, Cx))
    ensures r.1.scopes == cx.scopes && |cx.temps| <= |r.1.temps|
  {
    if ref then
      var t := T(cx.tempc);
      var (c, cx1) := ExO(rhs, NextT(cx));
      var (fl, cx2) := Flush(cx1, |cx.temps|);
      ([CSet(t, c), CReleaseKeep(L(x)), CSet(L(x), CVar(t))] + fl, cx2)
    else
      var (c, cx1) := ExB(rhs, cx);
      var (fl, cx2) := Flush(cx1, |cx.temps|);
      ([CSet(L(x), c)] + fl, cx2)
  }

  function EmitSetStrong(obj: Expr, fld: int, rhs: Expr, cx: Cx): (r: (seq<CStmt>, Cx))
    ensures r.1.scopes == cx.scopes && |cx.temps| <= |r.1.temps|
  {
    var to := T(cx.tempc);
    var (o, cx1) := ExB(obj, NextT(cx));
    var tv := T(cx1.tempc);
    var (c, cx2) := ExO(rhs, NextT(cx1));
    var (fl, cx3) := Flush(cx2, |cx.temps|);
    ([CSet(to, o), CSet(tv, c), CReleaseSlot(to, fld), CPutSlot(to, fld, CVar(tv), true)] + fl, cx3)
  }

  /** Weak slots and plain values: nothing is counted. */
  function EmitSetPlain(obj: Expr, fld: int, rhs: Expr, cx: Cx): (r: (seq<CStmt>, Cx))
    ensures r.1.scopes == cx.scopes && |cx.temps| <= |r.1.temps|
  {
    var to := T(cx.tempc);
    var (o, cx1) := ExB(obj, NextT(cx));
    var (c, cx2) := ExB(rhs, cx1);
    var (fl, cx3) := Flush(cx2, |cx.temps|);
    ([CSet(to, o), CPutSlot(to, fld, c, false)] + fl, cx3)
  }

  function EmitSetElem(arr: Expr, idx: Expr, ref: bool, rhs: Expr, cx: Cx): (r: (seq<CStmt>, Cx))
    ensures r.1.scopes == cx.scopes && |cx.temps| <= |r.1.temps|
  {
    var ta, ti, tv := T(cx.tempc), T(cx.tempc + 1), T(cx.tempc + 2);
    var (a, cx1) := ExB(arr, NextT(NextT(NextT(cx))));
    var (i, cx2) := ExB(idx, cx1);
    var (v, cx3) := ExB(rhs, cx2);
    var (fl, cx4) := Flush(cx3, |cx.temps|);
    ([CSet(ta, a), CSet(ti, i), CSet(tv, v), CArrSet(ta, ti, tv, ref)] + fl, cx4)
  }

  /** Everything pending and everything owned is released on this path only. */
  function EmitReturn(ret: Option<Expr>, rt: RetType, cx: Cx): (r: (seq<CStmt>, Cx))
    ensures r.1.scopes == cx.scopes && |cx.temps| <= |r.1.temps|
  {
    if ret.Some? && rt.Some? then
      var tr := T(cx.tempc);
      var (c, cx1) := ExFor(ret.value, rt.value, NextT(cx));
      var (fl, cx2) := Flush(cx1, |cx.temps|);
      ([CSet(tr, c)] + fl + (RelCode(cx.temps) + ReturnCode(cx.scopes) + [CReturn(Some(tr))]), cx2)
    else (RelCode(cx.temps) + ReturnCode(cx.scopes) + [CReturn(None)], cx)
  }

  /** A break that has to leave a switch becomes a goto past the loop. */
  function EmitBreak(cx: Cx): (r: (seq<CStmt>, Cx))
    ensures |r.1.scopes| == |cx.scopes| && |cx.temps| <= |r.1.temps|
  {
    if HasLoop(cx.scopes) && Crossed(cx.scopes) then
      (JumpCode(cx.scopes) + [CGoto(LoopOf(cx.scopes).loopId)], cx.(scopes := Mark(cx.scopes)))
    else (JumpCode(cx.scopes) + [CBreak], cx)
  }

  /** A condition evaluated into a scratch temporary, its own temporaries flushed. */
  function EmitCond(cond: Expr, cx: Cx): (r: (seq<CStmt>, Cx))
    ensures r.1.scopes == cx.scopes && |cx.temps| <= |r.1.temps|
  {
    var (c, cx1) := ExB(cond, NextT(cx));
    var (fl, cx2) := Flush(cx1, |cx.temps|);
    ([CSet(T(cx.tempc), c)] + fl, cx2)
  }

  function EmitIf(s: Stmt, rt: RetType, cx: Cx): (r: (seq<CStmt>, Cx))
    requires s.If? && cx.scopes != []
    ensures |r.1.scopes| == |cx.scopes| && |cx.temps| <= |r.1.temps|
    decreases s, 0
  {
    var (pre, cx2) := EmitCond(s.cond, cx);
    var (a, cx3) := EmitScope(s.thn, rt, cx2);
    var (b, cx4) := if s.hasElse then EmitScope(s.els, rt, cx3) else ([], cx3);
    (pre + [CIf(T(cx.tempc), a, b)], cx4)
  }

  /** `for (;;)` with the test at its head. */
  function EmitWhile(s: Stmt, rt: RetType, cx: Cx): (r: (seq<CStmt>, Cx))
    requires s.While? && cx.scopes != []
    ensures |r.1.scopes| == |cx.scopes| && |cx.temps| <= |r.1.temps|
    decreases s, 0
  {
    var cx0 := LoopBegin(cx);
    var (pre, cx2) := EmitCond(s.cond, cx0);
    var (b, cx3) := EmitScope(s.body, rt, cx2);
    var ls := cx3.scopes[0];
    ([CForever(pre + ([CIf(T(cx0.tempc), [], [CBreak])] + (b + RelCode(ls.names))))] + LoopEnd(ls), Pop(cx3))
  }

  function EmitFor(s: Stmt, rt: RetType, cx: Cx): (r: (seq<CStmt>, Cx))
    requires s.For? && cx.scopes != []
    ensures |r.1.scopes| == |cx.scopes| && |cx.temps| <= |r.1.temps|
    decreases s, 0
  {
    var h := EmitHeader(s.x, s.iter, cx);
    var (b, cx2) := EmitAll(s.body, rt, RegIf(LoopBegin(h.cx), L(s.x), ItemIsRef(s.iter)));
    var ls := cx2.scopes[0];
    var (fl, cx3) := Flush(Pop(cx2), |cx.temps|);
    var body := LoadItem(s.x, s.iter, h.iv, h.ta) + (b + RelCode(ls.names));
    (h.code + ([CFor(h.iv, h.init, h.bound, body)] + LoopEnd(ls)) + fl, cx3)
  }

  /** The subject is owned by the switch's own scope, which every way out releases. */
  function SwitchHead(subject: Expr, isStr: bool, cx: Cx): (r: (seq<CStmt>, Cx))
    ensures |r.1.scopes| == |cx.scopes| + 1 && |cx.temps| <= |r.1.temps|
  {
    var cx0 := Push(cx, PLAIN.(isSwitch := true));
    var (c, cx1) := ExO(subject, NextT(cx0));
    var (fl, cx2) := Flush(RegIf(cx1, T(cx0.tempc), isStr), |cx.temps|);
    ([CSet(T(cx0.tempc), c)] + fl, cx2)
  }

  function EmitSwitch(s: Stmt, rt: RetType, cx: Cx): (r: (seq<CStmt>, Cx))
    requires s.Switch? && cx.scopes != []
    ensures |r.1.scopes| == |cx.scopes| && |cx.temps| <= |r.1.temps|
    decreases s, 0
  {
    var (pre, cx2) := SwitchHead(s.subject, s.isStr, cx);
    var (cases, cx3) := EmitArms(s.arms, s.isStr, rt, cx2);
    var d := FindDefault(s.arms);
    var (els, cx4) := if s.isStr && d < |s.arms| then EmitScope(s.arms[d].body, rt, cx3) else ([], cx3);
    var sv := T(cx.tempc);
    var body := if s.isStr then CTextChain(sv, cases, els) else CSwitch(sv, cases);
    ([CBlock(pre + ([body] + RelCode(cx4.scopes[0].names)))], Pop(cx4))
  }

  function EmitS(s: Stmt, rt: RetType, cx: Cx): (r: (seq<CStmt>, Cx))
    requires cx.scopes != []
    ensures |r.1.scopes| == |cx.scopes| && |cx.temps| <= |r.1.temps|
    decreases s, 1
  {
    match s
    case Let(x, ref, init) => EmitLet(x, ref, init, cx)
    case Eval(e) => EmitEval(e, cx)
    case Panic(e) => EmitPanic(e, cx)
    case Assign(x, ref, rhs) => EmitAssign(x, ref, rhs, cx)
    case SetField(obj, fld, kind, rhs) =>
      if kind.Strong? then EmitSetStrong(obj, fld, rhs, cx) else EmitSetPlain(obj, fld, rhs, cx)
    case SetElem(arr, idx, ref, rhs) => EmitSetElem(arr, idx, ref, rhs, cx)
    case If(_, _, _, _) => EmitIf(s, rt, cx)
    case While(_, _) => EmitWhile(s, rt, cx)
    case For(_, _, _) => EmitFor(s, rt, cx)
    case Switch(_, _, _, _) => EmitSwitch(s, rt, cx)
    case Return(ret) => EmitReturn(ret, rt, cx)
    case Break => EmitBreak(cx)
    case Continue => (JumpCode(cx.scopes) + [CContinue], cx)
    case Block(body) =>
      var (b, cx1) := EmitScope(body, rt, cx);
      ([CBlock(b)], cx1)
  }

  function EmitAll(ss: seq<Stmt>, rt: RetType, cx: Cx): (r: (seq<CStmt>, Cx))
    requires cx.scopes != []
    ensures |r.1.scopes| == |cx.scopes| && |cx.temps| <= |r.1.temps|
    decreases ss, 0
  {
    if ss == [] then ([], cx) else
    var (a, cx1) := EmitS(ss[0], rt, cx);
    var (b, cx2) := EmitAll(ss[1..], rt, cx1);
    (a + b, cx2)
  }

  /** One case per arm; a C case ends with its own break, a text arm needs none.  The default
      arm of a text switch is emitted last, as the trailing else. */
  function EmitArms(arms: seq<Arm>, isStr: bool, rt: RetType, cx: Cx): (r: (seq<CCase>, Cx))
    requires cx.scopes != []
    ensures |r.1.scopes| == |cx.scopes| && |cx.temps| <= |r.1.temps|
    decreases arms, 0
  {
    if arms == [] then ([], cx)
    else if isStr && arms[0].isDefault then EmitArms(arms[1..], isStr, rt, cx) else
    var (b, cx1) := EmitScope(arms[0].body, rt, cx);
    var (cs, cx2) := EmitArms(arms[1..], isStr, rt, cx1);
    ([CCase(arms[0].values, arms[0].isDefault, if isStr then b else b + [CBreak])] + cs, cx2)
  }

  // ---------------------------------------------------------------- functions

  datatype Param = Param(ref: bool, written: bool)

  /** retain_assigned_params: an assigned reference parameter gets its own count. */
  function OwnedParams(ps: seq<Param>, i: nat): seq<Name>
    requires i <= |ps|
    decreases |ps| - i
  {
    if i == |ps| then []
    else (if ps[i].ref && ps[i].written then [L(i)] else []) + OwnedParams(ps, i + 1)
  }

  function RetainCode(names: seq<Name>): seq<CStmt> {
    if names == [] then [] else [CRetainVar(names[0])] + RetainCode(names[1..])
  }

  function EmitFn(ps: seq<Param>, body: seq<Stmt>, rt: RetType): seq<CStmt> {
    var owned := OwnedParams(ps, 0);
    var (code, cx) := EmitAll(body, rt, Cx([PLAIN.(names := owned)], [], 0, 0));
    RetainCode(owned) + code + RelCode(cx.scopes[0].names) + if rt.Some? then [CReturn(None)] else []
  }
}
