/** The statement language the checker hands to the emitter, with its meaning.

    Names are the numbers the checker's per-function counter gives to locals, so two
    binders of one function never share a name.  Everything a function cannot see by
    itself -- what a call returns, what a field or an array holds -- comes from a `World`
    that answers from the trace of events so far, so a trace fixes a run completely. */
module VytoLang {
  import opened Basics

  /** A machine value; 0 is the null reference, false and the integer 0. */
  type Val = int

  /** What the outside can observe of a run. `EStore` remembers the reference it replaced;
      `counted` is false for weak and for plain value slots. */
  datatype Event =
    | ECall(f: int, args: seq<Val>)
    | EStore(obj: Val, slot: int, was: Val, now: Val, counted: bool)

  type Trace = seq<Event>

  /** `strict` turns an enum switch on a value that is no declared variant into the
      outcome `Stray`; the compiled program has no such check. */
  datatype World = World(
    call: Trace -> Val,
    field: (Trace, Val, int) -> Val,
    len: (Trace, Val) -> int,
    elem: (Trace, Val, int) -> Val,
    text: Val -> int,
    arith: (int, Val, Val) -> Val,
    strict: bool)

  datatype Expr =
    | Lit(n: int)
    | Bool(b: bool)
    | Null
    | Var(x: nat, ref: bool)
    | Call(f: int, args: seq<Expr>, ref: bool)
    | Field(obj: Expr, fld: int, ref: bool)
    | And(l: Expr, r: Expr)
    | Or(l: Expr, r: Expr)
    | Arith(op: int, l: Expr, r: Expr)

  predicate IsRef(e: Expr) {
    match e
    case Null => true
    case Var(_, ref) => ref
    case Call(_, _, ref) => ref
    case Field(_, _, ref) => ref
    case _ => false
  }

  datatype SlotKind = Strong | Weak | Plain

  datatype Arm = Arm(values: seq<int>, isDefault: bool, body: seq<Stmt>)

  datatype Iter =
    | Range(lo: Expr, hi: Expr)
    | Each(arr: Expr, ref: bool)
    | EnumVals(vals: seq<int>)
    | Iterate(obj: Expr, lenF: int, atF: int, held: nat, index: nat, ref: bool)

  datatype Stmt =
    | Let(x: nat, ref: bool, init: Expr)
    | Eval(e: Expr)
    | Panic(e: Expr)
    | Assign(x: nat, ref: bool, rhs: Expr)
    | SetField(obj: Expr, fld: int, kind: SlotKind, rhs: Expr)
    | SetElem(arr: Expr, idx: Expr, ref: bool, rhs: Expr)
    | If(cond: Expr, thn: seq<Stmt>, hasElse: bool, els: seq<Stmt>)
    | While(cond: Expr, body: seq<Stmt>)
    | For(x: nat, iter: Iter, body: seq<Stmt>)
    | Switch(subject: Expr, isStr: bool, arms: seq<Arm>, variants: Option<seq<int>>)
    | Return(ret: Option<Expr>)
    | Break
    | Continue
    | Block(body: seq<Stmt>)

  // ------------------------------------------------------------------ meaning

  type Env = map<nat, Val>

  function Rd<K>(m: map<K, Val>, x: K): Val {
    if x in m then m[x] else 0
  }

  function Truth(b: bool): Val {
    if b then 1 else 0
  }

  function EvalE(w: World, e: Expr, env: Env, tr: Trace): (Val, Trace)
    decreases e
  {
    match e
    case Lit(n) => (n, tr)
    case Bool(b) => (Truth(b), tr)
    case Null => (0, tr)
    case Var(x, _) => (Rd(env, x), tr)
    case Call(f, args, _) =>
      var (vs, tr1) := EvalArgs(w, args, env, tr);
      var tr2 := tr1 + [ECall(f, vs)];
      (w.call(tr2), tr2)
    case Field(obj, fld, _) =>
      var (v, tr1) := EvalE(w, obj, env, tr);
      (w.field(tr1, v, fld), tr1)
    case And(l, r) =>
      var (v, tr1) := EvalE(w, l, env, tr);
      if v == 0 then (0, tr1) else
      var (u, tr2) := EvalE(w, r, env, tr1);
      (Truth(u != 0), tr2)
    case Or(l, r) =>
      var (v, tr1) := EvalE(w, l, env, tr);
      if v != 0 then (1, tr1) else
      var (u, tr2) := EvalE(w, r, env, tr1);
      (Truth(u != 0), tr2)
    case Arith(op, l, r) =>
      var (v, tr1) := EvalE(w, l, env, tr);
      var (u, tr2) := EvalE(w, r, env, tr1);
      (w.arith(op, v, u), tr2)
  }

  function EvalArgs(w: World, es: seq<Expr>, env: Env, tr: Trace): (r: (seq<Val>, Trace))
    decreases es
  {
    if es == [] then ([], tr) else
    var (v, tr1) := EvalE(w, es[0], env, tr);
    var (vs, tr2) := EvalArgs(w, es[1..], env, tr1);
    ([v] + vs, tr2)
  }

  /** How a statement ends. `Timeout` is a run cut short after `fuel` loop iterations. */
  datatype Out =
    | Timeout
    | Stray
    | Norm(env: Env, tr: Trace)
    | Brk(env: Env, tr: Trace)
    | Cont(env: Env, tr: Trace)
    | Ret(v: Val, tr: Trace)
    | Panicked(tr: Trace)

  /** A loop source after its header has been evaluated. */
  datatype LoopSrc =
    | LRange(hi: int)
    | LArr(arr: Val)
    | LEnum(vals: seq<int>)
    | LObj(obj: Val, lenF: int, atF: int)

  /** The header of a loop: its source, where counting starts, and the trace so far. */
  function LoopStart(w: World, iter: Iter, env: Env, tr: Trace): (LoopSrc, int, Trace) {
    match iter
    case Range(lo, hi) =>
      var (l, tr1) := EvalE(w, lo, env, tr);
      var (h, tr2) := EvalE(w, hi, env, tr1);
      (LRange(h), l, tr2)
    case Each(arr, _) =>
      var (a, tr1) := EvalE(w, arr, env, tr);
      (LArr(a), 0, tr1)
    case EnumVals(vals) => (LEnum(vals), 0, tr)
    case Iterate(obj, lenF, atF, _, _, _) =>
      var (c, tr1) := EvalE(w, obj, env, tr);
      (LObj(c, lenF, atF), 0, tr1)
  }

  /** Index limit, read again before every iteration. */
  function Bound(w: World, k: LoopSrc, tr: Trace): (int, Trace) {
    match k
    case LRange(hi) => (hi, tr)
    case LArr(a) => (w.len(tr, a), tr)
    case LEnum(vals) => (|vals|, tr)
    case LObj(c, lenF, _) =>
      var tr1 := tr + [ECall(lenF, [c])];
      (w.call(tr1), tr1)
  }

  function Item(w: World, k: LoopSrc, i: int, tr: Trace): (Val, Trace) {
    match k
    case LRange(_) => (i, tr)
    case LArr(a) => (w.elem(tr, a, i), tr)
    case LEnum(vals) => (if 0 <= i < |vals| then vals[i] else 0, tr)
    case LObj(c, _, atF) =>
      var tr1 := tr + [ECall(atF, [c, i])];
      (w.call(tr1), tr1)
  }

  /** The arm that lists `key`: the first such arm, never the default one. */
  function FindArm(arms: seq<Arm>, key: int): (k: nat)
    ensures k <= |arms|
    ensures k < |arms| ==> !arms[k].isDefault && key in arms[k].values
    ensures forall j :: 0 <= j < k ==> arms[j].isDefault || key !in arms[j].values
  {
    if arms == [] then 0
    else if !arms[0].isDefault && key in arms[0].values then 0
    else 1 + FindArm(arms[1..], key)
  }

  function FindDefault(arms: seq<Arm>): (k: nat)
    ensures k <= |arms|
    ensures k < |arms| ==> arms[k].isDefault
    ensures forall j :: 0 <= j < k ==> !arms[j].isDefault
  {
    if arms == [] then 0 else if arms[0].isDefault then 0 else 1 + FindDefault(arms[1..])
  }

  /** The arm that runs for `key`; |arms| when none does. */
  function PickArm(arms: seq<Arm>, key: int): (k: nat)
    ensures k <= |arms|
  {
    var k := FindArm(arms, key);
    if k < |arms| then k else FindDefault(arms)
  }

  function SwitchKey(w: World, isStr: bool, v: Val): int {
    if isStr then w.text(v) else v
  }

  function Exec(w: World, fuel: nat, s: Stmt, env: Env, tr: Trace): Out
    decreases fuel, s, 0
  {
    match s
    case Let(x, _, init) =>
      var (v, tr1) := EvalE(w, init, env, tr);
      Norm(env[x := v], tr1)
    case Eval(e) =>
      var (_, tr1) := EvalE(w, e, env, tr);
      Norm(env, tr1)
    case Panic(e) =>
      var (_, tr1) := EvalE(w, e, env, tr);
      Panicked(tr1)
    case Assign(x, _, rhs) =>
      var (v, tr1) := EvalE(w, rhs, env, tr);
      Norm(env[x := v], tr1)
    case SetField(obj, fld, kind, rhs) =>
      var (o, tr1) := EvalE(w, obj, env, tr);
      var (v, tr2) := EvalE(w, rhs, env, tr1);
      Norm(env, tr2 + [EStore(o, fld, w.field(tr2, o, fld), v, kind.Strong?)])
    case SetElem(arr, idx, ref, rhs) =>
      var (a, tr1) := EvalE(w, arr, env, tr);
      var (i, tr2) := EvalE(w, idx, env, tr1);
      var (v, tr3) := EvalE(w, rhs, env, tr2);
      Norm(env, tr3 + [EStore(a, i, w.elem(tr3, a, i), v, ref)])
    case If(cond, thn, hasElse, els) =>
      var (v, tr1) := EvalE(w, cond, env, tr);
      if v != 0 then ExecAll(w, fuel, thn, env, tr1)
      else if hasElse then ExecAll(w, fuel, els, env, tr1)
      else Norm(env, tr1)
    case While(cond, body) => ExecWhile(w, fuel, cond, body, env, tr)
    case For(x, iter, body) =>
      var (k, i, tr1) := LoopStart(w, iter, env, tr);
      ExecFor(w, fuel, k, x, i, body, env, tr1)
    case Switch(subject, isStr, arms, variants) =>
      var (v, tr1) := EvalE(w, subject, env, tr);
      if w.strict && variants.Some? && v !in variants.value then Stray else
      var k := PickArm(arms, SwitchKey(w, isStr, v));
      if k < |arms| then ExecAll(w, fuel, arms[k].body, env, tr1) else Norm(env, tr1)
    case Return(ret) =>
      if ret.Some? then
        var (v, tr1) := EvalE(w, ret.value, env, tr);
        Ret(v, tr1)
      else Ret(0, tr)
    case Break => Brk(env, tr)
    case Continue => Cont(env, tr)
    case Block(body) => ExecAll(w, fuel, body, env, tr)
  }

  function ExecAll(w: World, fuel: nat, ss: seq<Stmt>, env: Env, tr: Trace): Out
    decreases fuel, ss, 0
  {
    if ss == [] then Norm(env, tr) else
    match Exec(w, fuel, ss[0], env, tr)
    case Norm(env1, tr1) => ExecAll(w, fuel, ss[1..], env1, tr1)
    case other => other
  }

  function ExecWhile(w: World, fuel: nat, cond: Expr, body: seq<Stmt>, env: Env, tr: Trace): Out
    decreases fuel, body, 1
  {
    if fuel == 0 then Timeout else
    var (v, tr1) := EvalE(w, cond, env, tr);
    if v == 0 then Norm(env, tr1) else
    match ExecAll(w, fuel - 1, body, env, tr1)
    case Norm(env2, tr2) => ExecWhile(w, fuel - 1, cond, body, env2, tr2)
    case Cont(env2, tr2) => ExecWhile(w, fuel - 1, cond, body, env2, tr2)
    case Brk(env2, tr2) => Norm(env2, tr2)
    case other => other
  }

  /** A range loop counts in the loop variable itself, so a body that assigns it moves the
      loop; the other loops count in a hidden variable. */
  function NextIndex(k: LoopSrc, x: nat, i: int, env: Env): int {
    if k.LRange? then Rd(env, x) + 1 else i + 1
  }

  function ExecFor(w: World, fuel: nat, k: LoopSrc, x: nat, i: int, body: seq<Stmt>,
                   env: Env, tr: Trace): Out
    decreases fuel, body, 1
  {
    if fuel == 0 then Timeout else
    var (b, tr1) := Bound(w, k, tr);
    if i >= b then Norm(env, tr1) else
    var (v, tr2) := Item(w, k, i, tr1);
    match ExecAll(w, fuel - 1, body, env[x := v], tr2)
    case Norm(env3, tr3) => ExecFor(w, fuel - 1, k, x, NextIndex(k, x, i, env3), body, env3, tr3)
    case Cont(env3, tr3) => ExecFor(w, fuel - 1, k, x, NextIndex(k, x, i, env3), body, env3, tr3)
    case Brk(env3, tr3) => Norm(env3, tr3)
    case other => other
  }

  // ------------------------------------------------------ what the checker has ensured

  /** Locals in view: plain values, references the function owns, and reference parameters
      lent by the caller.  A lent parameter is never assigned: the checker marks every
      assigned one, and the emitter then takes its own reference on entry. */
  datatype Kind = Value | Owned | Lent

  type View = map<nat, Kind>

  predicate FitsRef(e: Expr, ref: bool) {
    IsRef(e) == ref
  }

  predicate GoodExpr(e: Expr, vis: View) {
    match e
    case Lit(_) => true
    case Bool(_) => true
    case Null => true
    case Var(x, ref) => x in vis && vis[x].Value? == !ref
    case Call(_, args, _) => forall i :: 0 <= i < |args| ==> GoodExpr(args[i], vis)
    case Field(obj, _, _) => GoodExpr(obj, vis) && IsRef(obj)
    case And(l, r) => GoodExpr(l, vis) && GoodExpr(r, vis) && !IsRef(l) && !IsRef(r)
    case Or(l, r) => GoodExpr(l, vis) && GoodExpr(r, vis) && !IsRef(l) && !IsRef(r)
    case Arith(_, l, r) => GoodExpr(l, vis) && GoodExpr(r, vis)
  }

  function RefKind(ref: bool): Kind {
    if ref then Owned else Value
  }

  /** Binders of `s` are numbered from `n` in the order the checker meets them; this is the
      next free number. */
  function NextName(s: Stmt, n: nat): (r: nat)
    ensures n <= r
    decreases s, 0
  {
    match s
    case Let(_, _, _) => n + 1
    case If(_, thn, hasElse, els) =>
      var n1 := NextNames(thn, n);
      if hasElse then NextNames(els, n1) else n1
    case While(_, body) => NextNames(body, n)
    case For(_, iter, body) => NextNames(body, if iter.Iterate? then n + 3 else n + 1)
    case Switch(_, _, arms, _) => NextNamesArms(arms, n)
    case Block(body) => NextNames(body, n)
    case _ => n
  }

  function NextNames(ss: seq<Stmt>, n: nat): (r: nat)
    ensures n <= r
    decreases ss, 0
  {
    if ss == [] then n else NextNames(ss[1..], NextName(ss[0], n))
  }

  function NextNamesArms(arms: seq<Arm>, n: nat): (r: nat)
    ensures n <= r
    decreases arms, 0
  {
    if arms == [] then n else NextNamesArms(arms[1..], NextNames(arms[0].body, n))
  }

  function ViewAfter(s: Stmt, vis: View): View {
    if s.Let? then vis[s.x := RefKind(s.ref)] else vis
  }

  /** The return type of the enclosing function: None is void. */
  type RetType = Option<bool>

  predicate GoodIter(x: nat, iter: Iter, vis: View, n: nat) {
    match iter
    case Range(lo, hi) => x == n && GoodExpr(lo, vis) && GoodExpr(hi, vis) && !IsRef(lo) && !IsRef(hi)
    case Each(arr, ref) => x == n && GoodExpr(arr, vis)
    case EnumVals(vals) => x == n
    case Iterate(obj, _, _, held, index, ref) =>
      held == n && index == n + 1 && x == n + 2 && GoodExpr(obj, vis) && IsRef(obj)
  }

  function LoopVarKind(iter: Iter): Kind {
    match iter
    case Each(_, ref) => RefKind(ref)
    case Iterate(_, _, _, _, _, ref) => RefKind(ref)
    case _ => Value
  }

  predicate Good(s: Stmt, vis: View, n: nat, inLoop: bool, rt: RetType)
    decreases s, 0
  {
    match s
    case Let(x, ref, init) => x == n && GoodExpr(init, vis) && FitsRef(init, ref)
    case Eval(e) => GoodExpr(e, vis)
    case Panic(e) => GoodExpr(e, vis)
    case Assign(x, ref, rhs) => x in vis && vis[x] == RefKind(ref) && GoodExpr(rhs, vis) && FitsRef(rhs, ref)
    case SetField(obj, _, kind, rhs) =>
      GoodExpr(obj, vis) && IsRef(obj) && GoodExpr(rhs, vis) && FitsRef(rhs, !kind.Plain?)
    case SetElem(arr, idx, ref, rhs) =>
      GoodExpr(arr, vis) && IsRef(arr) && GoodExpr(idx, vis) && GoodExpr(rhs, vis) && FitsRef(rhs, ref)
    case If(cond, thn, hasElse, els) =>
      && GoodExpr(cond, vis) && !IsRef(cond)
      && GoodAll(thn, vis, n, inLoop, rt)
      && (hasElse ==> GoodAll(els, vis, NextNames(thn, n), inLoop, rt))
    case While(cond, body) => GoodExpr(cond, vis) && !IsRef(cond) && GoodAll(body, vis, n, true, rt)
    case For(x, iter, body) =>
      GoodIter(x, iter, vis, n) && GoodAll(body, vis[x := LoopVarKind(iter)], x + 1, true, rt)
    case Switch(subject, isStr, arms, _) =>
      && GoodExpr(subject, vis) && FitsRef(subject, isStr)
      && (forall i, j :: 0 <= i < j < |arms| ==> !arms[i].isDefault || !arms[j].isDefault)
      && GoodArms(arms, vis, n, inLoop, rt)
    case Return(ret) =>
      && ret.Some? == rt.Some?
      && (ret.Some? ==> GoodExpr(ret.value, vis) && FitsRef(ret.value, rt.value))
    case Break => inLoop
    case Continue => inLoop
    case Block(body) => GoodAll(body, vis, n, inLoop, rt)
  }

  predicate GoodAll(ss: seq<Stmt>, vis: View, n: nat, inLoop: bool, rt: RetType)
    decreases ss, 0
  {
    ss == [] ||
    (Good(ss[0], vis, n, inLoop, rt) &&
     GoodAll(ss[1..], ViewAfter(ss[0], vis), NextName(ss[0], n), inLoop, rt))
  }

  predicate GoodArms(arms: seq<Arm>, vis: View, n: nat, inLoop: bool, rt: RetType)
    decreases arms, 0
  {
    arms == [] ||
    (GoodAll(arms[0].body, vis, n, inLoop, rt) &&
     GoodArms(arms[1..], vis, NextNames(arms[0].body, n), inLoop, rt))
  }
}
