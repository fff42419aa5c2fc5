/** The C the emitter prints, as statement lists, with the C meaning of `switch`, `break`,
    `continue` and `goto`: a `switch` swallows `break` and falls through from one case into
    the next, a `goto` leaves every construct up to the list that holds its label.

    `rc` holds each object's count. A retain, a release or a field access that meets an object
    whose count is not positive is recorded in `hurt`. What a call does to counts inside it is not
    seen here; a strong store's own write comes after the release of the old reference, and module
    RefHeap says when the object survives until then. */
module CTarget {
  import opened Basics
  import opened VytoLang

  /** C variables: source locals, scratch temporaries, and temporaries that own a reference
      until the end of their statement.  Both sorts of temporary share one counter. */
  datatype Name = L(n: nat) | T(n: nat) | S(n: nat)

  datatype CExpr =
    | CLit(n: int)
    | CVar(x: Name)
    | CSpill(t: Name, e: CExpr)
    | CRetain(e: CExpr)
    | CCall(f: int, args: seq<CExpr>, ref: bool)
    | CField(obj: CExpr, fld: int)
    | CAnd(l: CExpr, r: CExpr)
    | COr(l: CExpr, r: CExpr)
    | CArith(op: int, l: CExpr, r: CExpr)
    | CLen(arr: Name)
    | CElem(arr: Name, idx: Name)
    | CTable(vals: seq<int>, idx: Name)

  datatype CCase = CCase(labels: seq<int>, isDefault: bool, body: seq<CStmt>)

  datatype CStmt =
    | CSet(x: Name, e: CExpr)
    | CEval(e: CExpr)
    | CReleaseNull(x: Name)                          // VT_RELEASE(x)
    | CReleaseKeep(x: Name)                          // vt_release(x)
    | CRetainVar(x: Name)                            // vt_retain(x)
    | CReleaseSlot(obj: Name, fld: int)              // vt_release(obj->fld)
    | CPutSlot(obj: Name, fld: int, rhs: CExpr, counted: bool) // obj->fld = x, or vt_weak_set
    | CArrSet(arr: Name, idx: Name, x: Name, ref: bool)     // vt_arr_set: retains and releases
    | CIf(x: Name, thn: seq<CStmt>, els: seq<CStmt>)
    | CForever(body: seq<CStmt>)
    | CFor(i: Name, init: CExpr, bound: CExpr, body: seq<CStmt>)
    | CSwitch(x: Name, cases: seq<CCase>)
    | CTextChain(x: Name, cases: seq<CCase>, els: seq<CStmt>) // if / else-if over vt_str_eq
    | CBlock(body: seq<CStmt>)
    | CBreak
    | CContinue
    | CGoto(l: nat)
    | CLabel(l: nat)
    | CReturn(ret: Option<Name>)
    | CPanic(e: CExpr)

  datatype CState = CState(vars: map<Name, Val>, rc: map<Val, int>, tr: Trace, hurt: set<Val>)

  /** Code dereferences `v`, which is safe only while somebody counts it. */
  function Touch(st: CState, v: Val): CState {
    if v == 0 || Rd(st.rc, v) > 0 then st else st.(hurt := st.hurt + {v})
  }

  function Count(st: CState, v: Val, d: int): CState {
    st.(rc := st.rc[v := Rd(st.rc, v) + d])
  }

  /** vt_retain / vt_release; null is left alone. */
  function Bump(st: CState, v: Val, d: int): CState {
    if v == 0 then st else Count(Touch(st, v), v, d)
  }

  /** A callee's result arrives with a count the callee took. */
  function Give(st: CState, v: Val): CState {
    if v == 0 then st else Count(st, v, 1)
  }

  function Put(st: CState, x: Name, v: Val): CState {
    st.(vars := st.vars[x := v])
  }

  /** A call of reference type hands its result over with one count. */
  function EvalC(w: World, e: CExpr, st: CState): (Val, CState)
    decreases e
  {
    match e
    case CLit(n) => (n, st)
    case CVar(x) => (Rd(st.vars, x), st)
    case CSpill(t, e1) =>
      var (v, st1) := EvalC(w, e1, st);
      (v, Put(st1, t, v))
    case CRetain(e1) =>
      var (v, st1) := EvalC(w, e1, st);
      (v, Bump(st1, v, 1))
    case CCall(f, args, ref) =>
      var (vs, st1) := EvalCs(w, args, st);
      var tr2 := st1.tr + [ECall(f, vs)];
      var v := w.call(tr2);
      (v, if ref then Give(st1.(tr := tr2), v) else st1.(tr := tr2))
    case CField(obj, fld) =>
      var (v, st1) := EvalC(w, obj, st);
      (w.field(st1.tr, v, fld), Touch(st1, v))
    case CAnd(l, r) =>
      var (v, st1) := EvalC(w, l, st);
      if v == 0 then (0, st1) else
      var (u, st2) := EvalC(w, r, st1);
      (Truth(u != 0), st2)
    case COr(l, r) =>
      var (v, st1) := EvalC(w, l, st);
      if v != 0 then (1, st1) else
      var (u, st2) := EvalC(w, r, st1);
      (Truth(u != 0), st2)
    case CArith(op, l, r) =>
      var (v, st1) := EvalC(w, l, st);
      var (u, st2) := EvalC(w, r, st1);
      (w.arith(op, v, u), st2)
    case CLen(arr) => (w.len(st.tr, Rd(st.vars, arr)), st)
    case CElem(arr, idx) => (w.elem(st.tr, Rd(st.vars, arr), Rd(st.vars, idx)), st)
    case CTable(vals, idx) =>
      var i := Rd(st.vars, idx);
      (if 0 <= i < |vals| then vals[i] else 0, st)
  }

  function EvalCs(w: World, es: seq<CExpr>, st: CState): (seq<Val>, CState)
    decreases es
  {
    if es == [] then ([], st) else
    var (v, st1) := EvalC(w, es[0], st);
    var (vs, st2) := EvalCs(w, es[1..], st1);
    ([v] + vs, st2)
  }

  datatype COut =
    | CTimeout(st: CState)
    | CNorm(st: CState)
    | CBrk(st: CState)
    | CCont(st: CState)
    | CGo(l: nat, st: CState)
    | CRet(v: Val, st: CState)
    | CPanicked(st: CState)

  /** Where label `l` stands in a list; its length when it does not. */
  function LabelAt(cs: seq<CStmt>, l: nat): (k: nat)
    ensures k <= |cs|
    ensures k < |cs| ==> cs[k] == CLabel(l)
    ensures forall j :: 0 <= j < k ==> cs[j] != CLabel(l)
  {
    if cs == [] then 0 else if cs[0] == CLabel(l) then 0 else 1 + LabelAt(cs[1..], l)
  }

  function FindCase(cases: seq<CCase>, key: int): (k: nat)
    ensures k <= |cases|
    ensures k < |cases| ==> !cases[k].isDefault && key in cases[k].labels
    ensures forall j :: 0 <= j < k ==> cases[j].isDefault || key !in cases[j].labels
  {
    if cases == [] then 0
    else if !cases[0].isDefault && key in cases[0].labels then 0
    else 1 + FindCase(cases[1..], key)
  }

  function FindDefaultCase(cases: seq<CCase>): (k: nat)
    ensures k <= |cases|
    ensures k < |cases| ==> cases[k].isDefault
    ensures forall j :: 0 <= j < k ==> !cases[j].isDefault
  {
    if cases == [] then 0 else if cases[0].isDefault then 0 else 1 + FindDefaultCase(cases[1..])
  }

  function ExecC(w: World, fuel: nat, c: CStmt, st: CState): COut
    decreases fuel, c, 0
  {
    match c
    case CSet(x, e) =>
      var (v, st1) := EvalC(w, e, st);
      CNorm(Put(st1, x, v))
    case CEval(e) =>
      var (_, st1) := EvalC(w, e, st);
      CNorm(st1)
    case CReleaseNull(x) => CNorm(Put(Bump(st, Rd(st.vars, x), -1), x, 0))
    case CReleaseKeep(x) => CNorm(Bump(st, Rd(st.vars, x), -1))
    case CRetainVar(x) => CNorm(Bump(st, Rd(st.vars, x), 1))
    case CReleaseSlot(obj, fld) =>
      var o := Rd(st.vars, obj);
      CNorm(Bump(Touch(st, o), w.field(st.tr, o, fld), -1))
    case CPutSlot(obj, fld, x, counted) =>
      var (v, st1) := EvalC(w, x, st);
      var o := Rd(st1.vars, obj);
      var st2 := if counted then st1 else Touch(st1, o);
      CNorm(st2.(tr := st1.tr + [EStore(o, fld, w.field(st1.tr, o, fld), v, counted)]))
    case CArrSet(arr, idx, x, ref) =>
      var a, i, v := Rd(st.vars, arr), Rd(st.vars, idx), Rd(st.vars, x);
      var was := w.elem(st.tr, a, i);
      var st0 := Touch(st, a);
      var st1 := if ref then Bump(Bump(st0, v, 1), was, -1) else st0;
      CNorm(st1.(tr := st.tr + [EStore(a, i, was, v, ref)]))
    case CIf(x, thn, els) =>
      if Rd(st.vars, x) != 0 then ExecCs(w, fuel, thn, st) else ExecCs(w, fuel, els, st)
    case CForever(body) => ExecForever(w, fuel, body, st)
    case CFor(i, init, bound, body) =>
      var (v, st1) := EvalC(w, init, st);
      ExecCFor(w, fuel, i, bound, body, Put(st1, i, v))
    case CSwitch(x, cases) =>
      var v := Rd(st.vars, x);
      var k := FindCase(cases, v);
      var k1 := if k < |cases| then k else FindDefaultCase(cases);
      (match RunCases(w, fuel, cases[k1..], st)
       case CBrk(st1) => CNorm(st1)
       case other => other)
    case CTextChain(x, cases, els) =>
      var k := FindCase(cases, w.text(Rd(st.vars, x)));
      if k < |cases| then ExecCs(w, fuel, cases[k].body, st) else ExecCs(w, fuel, els, st)
    case CBlock(body) => ExecCs(w, fuel, body, st)
    case CBreak => CBrk(st)
    case CContinue => CCont(st)
    case CGoto(l) => CGo(l, st)
    case CLabel(_) => CNorm(st)
    case CReturn(x) => CRet(if x.Some? then Rd(st.vars, x.value) else 0, st)
    case CPanic(e) =>
      var (_, st1) := EvalC(w, e, st);
      CPanicked(st1)
  }

  function ExecCs(w: World, fuel: nat, cs: seq<CStmt>, st: CState): COut
    decreases fuel, cs, 0
  {
    if cs == [] then CNorm(st) else Then(w, fuel, ExecC(w, fuel, cs[0], st), cs[1..])
  }

  /** Go on with `rest`: from its start, or from behind the label a goto asks for. */
  function Then(w: World, fuel: nat, out: COut, rest: seq<CStmt>): COut
    decreases fuel, rest, 1
  {
    match out
    case CNorm(st) => ExecCs(w, fuel, rest, st)
    case CGo(l, st) =>
      var k := LabelAt(rest, l);
      if k < |rest| then ExecCs(w, fuel, rest[k + 1..], st) else out
    case _ => out
  }

  /** From the selected case on, falling through until something leaves the switch. */
  function RunCases(w: World, fuel: nat, cases: seq<CCase>, st: CState): COut
    decreases fuel, cases, 0
  {
    if cases == [] then CNorm(st) else
    match ExecCs(w, fuel, cases[0].body, st)
    case CNorm(st1) => RunCases(w, fuel, cases[1..], st1)
    case other => other
  }

  function ExecForever(w: World, fuel: nat, body: seq<CStmt>, st: CState): COut
    decreases fuel, body, 1
  {
    if fuel == 0 then CTimeout(st) else
    match ExecCs(w, fuel - 1, body, st)
    case CNorm(st1) => ExecForever(w, fuel - 1, body, st1)
    case CCont(st1) => ExecForever(w, fuel - 1, body, st1)
    case CBrk(st1) => CNorm(st1)
    case other => other
  }

  /** for (...; i < bound; i++) body, the limit read before each iteration. */
  function ExecCFor(w: World, fuel: nat, i: Name, bound: CExpr, body: seq<CStmt>, st: CState): COut
    decreases fuel, body, 1
  {
    if fuel == 0 then CTimeout(st) else
    var (b, st1) := EvalC(w, bound, st);
    if Rd(st1.vars, i) >= b then CNorm(st1) else
    match ExecCs(w, fuel - 1, body, st1)
    case CNorm(st2) => ExecCFor(w, fuel - 1, i, bound, body, Put(st2, i, Rd(st2.vars, i) + 1))
    case CCont(st2) => ExecCFor(w, fuel - 1, i, bound, body, Put(st2, i, Rd(st2.vars, i) + 1))
    case CBrk(st2) => CNorm(st2)
    case other => other
  }
}
