/** Generic inference: type identity, substitution of type parameters, and the unifier that
    recovers a substitution from the argument types. */
module Inference {
  import opened Basics

  /** Kinds of scalar types; three pairs of them are one type each under two names. */
  datatype Kind = VoidT | IntT | FloatT | BoolT | ByteT | I64T | F64T | U8T | OtherT(n: nat)

  function Norm(k: Kind): Kind {
    match k
    case I64T => IntT
    case F64T => FloatT
    case U8T => ByteT
    case _ => k
  }

  datatype Which = EnumDecl | StructDecl | ClassDecl

  type Name = nat

  /** Resolved types; `weak` marks how a slot is stored and is no part of a type's identity. */
  datatype Ty =
    | Scalar(kind: Kind, weak: bool)
    | Declared(which: Which, id: nat, weak: bool)
    | Param(name: Name, weak: bool)
    | Array(elem: Ty, weak: bool)
    | Map(elem: Ty, weak: bool)
    | Fn(params: seq<Ty>, ret: Ty)

  /** type_identical. */
  predicate Same(a: Ty, b: Ty)
    decreases a, 1
  {
    match a
    case Scalar(k, _) => b.Scalar? && Norm(k) == Norm(b.kind)
    case Declared(w, id, _) => b.Declared? && w == b.which && id == b.id
    case Param(n, _) => b.Param? && n == b.name
    case Array(e, _) => b.Array? && Same(e, b.elem)
    case Map(e, _) => b.Map? && Same(e, b.elem)
    case Fn(ps, r) => b.Fn? && |ps| == |b.params| && Same(r, b.ret) && SameAll(ps, b.params)
  }

  predicate SameAll(a: seq<Ty>, b: seq<Ty>)
    requires |a| == |b|
    decreases a, 0
  {
    a == [] || (Same(a[0], b[0]) && SameAll(a[1..], b[1..]))
  }

  lemma {:induction false} SameRefl(a: Ty)
    ensures Same(a, a)
    decreases a, 1
  {
    match a
    case Array(e, _) => SameRefl(e);
    case Map(e, _) => SameRefl(e);
    case Fn(ps, r) => SameRefl(r); SameAllRefl(ps);
    case _ =>
  }

  lemma {:induction false} SameAllRefl(a: seq<Ty>)
    ensures SameAll(a, a)
    decreases a, 0
  {
    if a != [] {
      SameRefl(a[0]);
      SameAllRefl(a[1..]);
    }
  }

  lemma {:induction false} SameSym(a: Ty, b: Ty)
    requires Same(a, b)
    ensures Same(b, a)
    decreases a, 1
  {
    match a
    case Array(e, _) => SameSym(e, b.elem);
    case Map(e, _) => SameSym(e, b.elem);
    case Fn(ps, r) => SameSym(r, b.ret); SameAllSym(ps, b.params);
    case _ =>
  }

  lemma {:induction false} SameAllSym(a: seq<Ty>, b: seq<Ty>)
    requires |a| == |b| && SameAll(a, b)
    ensures SameAll(b, a)
    decreases a, 0
  {
    if a != [] {
      SameSym(a[0], b[0]);
      SameAllSym(a[1..], b[1..]);
    }
  }

  lemma {:induction false} SameTrans(a: Ty, b: Ty, c: Ty)
    requires Same(a, b) && Same(b, c)
    ensures Same(a, c)
    decreases a, 1
  {
    match a
    case Array(e, _) => SameTrans(e, b.elem, c.elem);
    case Map(e, _) => SameTrans(e, b.elem, c.elem);
    case Fn(ps, r) => SameTrans(r, b.ret, c.ret); SameAllTrans(ps, b.params, c.params);
    case _ =>
  }

  lemma {:induction false} SameAllTrans(a: seq<Ty>, b: seq<Ty>, c: seq<Ty>)
    requires |a| == |b| == |c| && SameAll(a, b) && SameAll(b, c)
    ensures SameAll(a, c)
    decreases a, 0
  {
    if a != [] {
      SameTrans(a[0], b[0], c[0]);
      SameAllTrans(a[1..], b[1..], c[1..]);
    }
  }

  /** A type with every mark of a weak slot taken off, and one name for each scalar. */
  function Erased(t: Ty): Ty
    decreases t, 1
  {
    match t
    case Scalar(k, _) =>
      Scalar(if k == I64T then IntT else if k == F64T then FloatT else if k == U8T then ByteT else k, false)
    case Declared(which, id, _) => Declared(which, id, false)
    case Param(n, _) => Param(n, false)
    case Array(e, _) => Array(Erased(e), false)
    case Map(e, _) => Map(Erased(e), false)
    case Fn(ps, r) => Fn(ErasedAll(ps), Erased(r))
  }

  function ErasedAll(ts: seq<Ty>): (r: seq<Ty>)
    ensures |r| == |ts|
    decreases ts, 0
  {
    if ts == [] then [] else [Erased(ts[0])] + ErasedAll(ts[1..])
  }

  /** Types are identical if and only if they are the same with these two things aside. */
  lemma {:induction false} SameIsErased(a: Ty, b: Ty)
    ensures Same(a, b) <==> Erased(a) == Erased(b)
    decreases a, 1
  {
    match a
    case Array(e, _) => if b.Array? { SameIsErased(e, b.elem); }
    case Map(e, _) => if b.Map? { SameIsErased(e, b.elem); }
    case Fn(ps, r) =>
      if b.Fn? {
        SameIsErased(r, b.ret);
        if |ps| == |b.params| { SameAllIsErased(ps, b.params); }
      }
    case _ =>
  }

  lemma {:induction false} SameAllIsErased(a: seq<Ty>, b: seq<Ty>)
    requires |a| == |b|
    ensures SameAll(a, b) <==> ErasedAll(a) == ErasedAll(b)
    decreases a, 0
  {
    if a != [] {
      SameIsErased(a[0], b[0]);
      SameAllIsErased(a[1..], b[1..]);
      var x, y := ErasedAll(a), ErasedAll(b);
      assert x[1..] == ErasedAll(a[1..]) && y[1..] == ErasedAll(b[1..]);
      assert x == [x[0]] + x[1..] && y == [y[0]] + y[1..];
    }
  }

  // ---------------------------------------------------------------- substitution

  type Binding = seq<Option<Ty>>

  /** typaram_index. */
  function IndexOf(names: seq<Name>, x: Name): (i: int)
    ensures -1 <= i < |names| && (i >= 0 ==> names[i] == x) && (i < 0 ==> x !in names)
    ensures forall j :: 0 <= j < i ==> names[j] != x
  {
    if names == [] then -1
    else if names[0] == x then 0
    else var i := IndexOf(names[1..], x); if i < 0 then -1 else i + 1
  }

  /** subst_type: an unbound parameter stays; a weak one bound to a class gives a weak class. */
  function Subst(t: Ty, names: seq<Name>, args: Binding): Ty
    requires |args| == |names|
    decreases t, 1
  {
    match t
    case Param(x, weak) =>
      var i := IndexOf(names, x);
      if i < 0 || args[i].None? then t
      else if weak && args[i].value.Declared? && args[i].value.which.ClassDecl? then
        Declared(ClassDecl, args[i].value.id, true)
      else args[i].value
    case Array(e, weak) => Array(Subst(e, names, args), weak)
    case Map(e, weak) => Map(Subst(e, names, args), weak)
    case Fn(ps, r) => Fn(SubstAll(ps, names, args), Subst(r, names, args))
    case _ => t
  }

  function SubstAll(ts: seq<Ty>, names: seq<Name>, args: Binding): (r: seq<Ty>)
    requires |args| == |names|
    ensures |r| == |ts|
    decreases ts, 0
  {
    if ts == [] then [] else [Subst(ts[0], names, args)] + SubstAll(ts[1..], names, args)
  }

  /** Parameter `i` of `names` occurs in a type. */
  predicate Occurs(t: Ty, names: seq<Name>, i: nat)
    decreases t, 1
  {
    match t
    case Param(x, _) => IndexOf(names, x) == i
    case Array(e, _) => Occurs(e, names, i)
    case Map(e, _) => Occurs(e, names, i)
    case Fn(ps, r) => Occurs(r, names, i) || OccursAny(ps, names, i)
    case _ => false
  }

  predicate OccursAny(ts: seq<Ty>, names: seq<Name>, i: nat)
    decreases ts, 0
  {
    ts != [] && (Occurs(ts[0], names, i) || OccursAny(ts[1..], names, i))
  }

  /** Where nothing that occurs is bound, nothing changes. */
  lemma {:induction false} SubstLeaves(t: Ty, names: seq<Name>, args: Binding)
    requires |args| == |names| && forall i :: 0 <= i < |names| && Occurs(t, names, i) ==> args[i].None?
    ensures Subst(t, names, args) == t
    decreases t, 1
  {
    match t
    case Param(x, _) => if IndexOf(names, x) >= 0 { assert Occurs(t, names, IndexOf(names, x)); }
    case Array(e, _) => SubstLeaves(e, names, args);
    case Map(e, _) => SubstLeaves(e, names, args);
    case Fn(ps, r) =>
      SubstLeaves(r, names, args);
      SubstAllLeaves(ps, names, args);
    case _ =>
  }

  lemma {:induction false} SubstAllLeaves(ts: seq<Ty>, names: seq<Name>, args: Binding)
    requires |args| == |names| && forall i :: 0 <= i < |names| && OccursAny(ts, names, i) ==> args[i].None?
    ensures SubstAll(ts, names, args) == ts
    decreases ts, 0
  {
    if ts != [] {
      SubstLeaves(ts[0], names, args);
      SubstAllLeaves(ts[1..], names, args);
      assert ts == [ts[0]] + ts[1..];
    }
  }

  /** A bound parameter becomes its binding, and a weak slot stays weak when that is a class. */
  lemma {:induction false} SubstTakes(x: Name, names: seq<Name>, args: Binding, weak: bool)
    requires |args| == |names| && x in names && args[IndexOf(names, x)].Some?
    ensures var (v, r) := (args[IndexOf(names, x)].value, Subst(Param(x, weak), names, args));
      && Same(r, v)
      && (r == v || (r.Declared? && r.which == ClassDecl && r.weak))
      && (weak && v.Declared? && v.which == ClassDecl ==> r.weak)
      && (!weak ==> r == v)
  {
    SameRefl(args[IndexOf(names, x)].value);
  }

  // ---------------------------------------------------------------- the unifier

  /** unify: None is the "conflicting types" diagnostic. */
  function Unify(names: seq<Name>, param: Ty, arg: Ty, bind: Binding): (r: Option<Binding>)
    requires |bind| == |names|
    ensures r.Some? ==> |r.value| == |names|
    decreases param, 1
  {
    match param
    case Param(x, _) =>
      var i := IndexOf(names, x);
      if i < 0 then Some(bind)
      else if bind[i].Some? then (if Same(bind[i].value, arg) then Some(bind) else None)
      else Some(bind[i := Some(arg)])
    case Array(e, _) => if arg.Array? then Unify(names, e, arg.elem, bind) else Some(bind)
    case Map(e, _) => if arg.Map? then Unify(names, e, arg.elem, bind) else Some(bind)
    case Fn(ps, r) =>
      if arg.Fn? && |arg.params| == |ps| then
        var b := UnifyAll(names, ps, arg.params, bind);
        if b.None? then None else Unify(names, r, arg.ret, b.value)
      else Some(bind)
    case _ => Some(bind)
  }

  function UnifyAll(names: seq<Name>, params: seq<Ty>, args: seq<Ty>, bind: Binding): (r: Option<Binding>)
    requires |bind| == |names| && |params| == |args|
    ensures r.Some? ==> |r.value| == |names|
    decreases params, 0
  {
    if params == [] then Some(bind) else
    var b := Unify(names, params[0], args[0], bind);
    if b.None? then None else UnifyAll(names, params[1..], args[1..], b.value)
  }

  /** The recursion that updates the binding array in place; false is the diagnostic. */
  method UnifyInPlace(names: seq<Name>, param: Ty, arg: Ty, bind: array<Option<Ty>>) returns (ok: bool)
    requires bind.Length == |names|
    modifies bind
    ensures ok <==> Unify(names, param, arg, old(bind[..])).Some?
    ensures ok ==> bind[..] == Unify(names, param, arg, old(bind[..])).value
    decreases param, 1
  {
    match param
    case Param(x, _) =>
      var i := IndexOf(names, x);
      if i < 0 { return true; }
      if bind[i].Some? { return Same(bind[i].value, arg); }
      bind[i] := Some(arg);
      return true;
    case Array(e, _) =>
      if !arg.Array? { return true; }
      ok := UnifyInPlace(names, e, arg.elem, bind);
    case Map(e, _) =>
      if !arg.Map? { return true; }
      ok := UnifyInPlace(names, e, arg.elem, bind);
    case Fn(ps, r) =>
      if !(arg.Fn? && |arg.params| == |ps|) { return true; }
      ok := UnifyListInPlace(names, ps, arg.params, bind);
      if ok { ok := UnifyInPlace(names, r, arg.ret, bind); }
    case _ => return true;
  }

  method UnifyListInPlace(names: seq<Name>, params: seq<Ty>, args: seq<Ty>, bind: array<Option<Ty>>) returns (ok: bool)
    requires bind.Length == |names| && |params| == |args|
    modifies bind
    ensures ok <==> UnifyAll(names, params, args, old(bind[..])).Some?
    ensures ok ==> bind[..] == UnifyAll(names, params, args, old(bind[..])).value
    decreases params, 0
  {
    ghost var want := UnifyAll(names, params, args, bind[..]);
    var i := 0;
    while i < |params|
      invariant i <= |params|
      invariant UnifyAll(names, params[i..], args[i..], bind[..]) == want
    {
      assert params[i..][1..] == params[i + 1..] && args[i..][1..] == args[i + 1..];
      ok := UnifyInPlace(names, params[i], args[i], bind);
      if !ok { return; }
      i := i + 1;
    }
    ok := true;
  }

  // ---------------------------------------------------------------- what unifying meets

  /** The argument types that stand where a type parameter occurs, as far as the shapes agree. */
  ghost function Met(names: seq<Name>, param: Ty, arg: Ty): set<(int, Ty)>
    decreases param, 1
  {
    match param
    case Param(x, _) => if x in names then {(IndexOf(names, x), arg)} else {}
    case Array(e, _) => if arg.Array? then Met(names, e, arg.elem) else {}
    case Map(e, _) => if arg.Map? then Met(names, e, arg.elem) else {}
    case Fn(ps, r) =>
      if arg.Fn? && |arg.params| == |ps| then MetAll(names, ps, arg.params) + Met(names, r, arg.ret) else {}
    case _ => {}
  }

  ghost function MetAll(names: seq<Name>, params: seq<Ty>, args: seq<Ty>): set<(int, Ty)>
    decreases params, 0
  {
    if params == [] || args == [] then {}
    else Met(names, params[0], args[0]) + MetAll(names, params[1..], args[1..])
  }

  /** Types met for one parameter are identical, and identical to what it is bound to. */
  ghost predicate OneEach(bind: Binding, met: set<(int, Ty)>) {
    && (forall p :: p in met && 0 <= p.0 < |bind| && bind[p.0].Some? ==> Same(bind[p.0].value, p.1))
    && (forall p, q :: p in met && q in met && p.0 == q.0 ==> Same(p.1, q.1))
  }

  /** Afterwards the met parameters are bound to what was met for them, and nothing else changed. */
  ghost predicate Bound(bind: Binding, met: set<(int, Ty)>, bind1: Binding) {
    && Extends(bind, bind1)
    && (forall p :: p in met ==> 0 <= p.0 < |bind| && bind1[p.0].Some? && Same(bind1[p.0].value, p.1))
    && (forall i :: 0 <= i < |bind| && bind1[i].Some? && bind[i].None? ==> (i, bind1[i].value) in met)
  }

  /** Unifying succeeds if and only if no parameter meets two different types. */
  lemma {:induction false} UnifyMeets(names: seq<Name>, param: Ty, arg: Ty, bind: Binding)
    requires |bind| == |names|
    ensures var (r, met) := (Unify(names, param, arg, bind), Met(names, param, arg));
      && (forall p :: p in met ==> 0 <= p.0 < |names|)
      && (r.Some? <==> OneEach(bind, met)) && (r.Some? ==> Bound(bind, met, r.value))
    decreases param, 1
  {
    match param
    case Param(x, _) => SameRefl(arg);
    case Array(e, _) => if arg.Array? { UnifyMeets(names, e, arg.elem, bind); }
    case Map(e, _) => if arg.Map? { UnifyMeets(names, e, arg.elem, bind); }
    case Fn(ps, r) =>
      if arg.Fn? && |arg.params| == |ps| {
        UnifyAllMeets(names, ps, arg.params, bind);
        var b := UnifyAll(names, ps, arg.params, bind);
        var m, m1 := MetAll(names, ps, arg.params), Met(names, r, arg.ret);
        if b.Some? {
          UnifyMeets(names, r, arg.ret, b.value);
          MeetsJoin(bind, m, b.value, m1);
          var c := Unify(names, r, arg.ret, b.value);
          if c.Some? { BoundJoin(bind, m, b.value, m1, c.value); }
        } else {
          UnifyMeets(names, r, arg.ret, bind);
        }
      }
    case _ =>
  }

  lemma {:induction false} UnifyAllMeets(names: seq<Name>, params: seq<Ty>, args: seq<Ty>, bind: Binding)
    requires |bind| == |names| && |params| == |args|
    ensures var (r, met) := (UnifyAll(names, params, args, bind), MetAll(names, params, args));
      && (forall p :: p in met ==> 0 <= p.0 < |names|)
      && (r.Some? <==> OneEach(bind, met)) && (r.Some? ==> Bound(bind, met, r.value))
    decreases params, 0
  {
    if params != [] {
      UnifyMeets(names, params[0], args[0], bind);
      var b := Unify(names, params[0], args[0], bind);
      var m, m1 := Met(names, params[0], args[0]), MetAll(names, params[1..], args[1..]);
      if b.Some? {
        UnifyAllMeets(names, params[1..], args[1..], b.value);
        MeetsJoin(bind, m, b.value, m1);
        var c := UnifyAll(names, params[1..], args[1..], b.value);
        if c.Some? { BoundJoin(bind, m, b.value, m1, c.value); }
      } else {
        UnifyAllMeets(names, params[1..], args[1..], bind);
      }
    }
  }

  lemma {:induction false} MeetsJoin(bind: Binding, m: set<(int, Ty)>, b: Binding, m1: set<(int, Ty)>)
    requires OneEach(bind, m) && Bound(bind, m, b) && forall p :: p in m1 ==> 0 <= p.0 < |bind|
    ensures OneEach(bind, m + m1) <==> OneEach(b, m1)
  {
    if OneEach(b, m1) {
      forall p, q | p in m + m1 && q in m + m1 && p.0 == q.0 ensures Same(p.1, q.1) {
        if p in m && q in m1 { SameVia(b[p.0].value, p.1, q.1); }
        if p in m1 && q in m { SameVia(b[p.0].value, p.1, q.1); }
      }
    }
  }

  lemma {:induction false} SameVia(v: Ty, a: Ty, b: Ty)
    requires Same(v, a) && Same(v, b)
    ensures Same(a, b)
  {
    SameSym(v, a);
    SameTrans(a, v, b);
  }

  lemma {:induction false} BoundJoin(bind: Binding, m: set<(int, Ty)>, b: Binding, m1: set<(int, Ty)>, c: Binding)
    requires Bound(bind, m, b) && Bound(b, m1, c)
    ensures Bound(bind, m + m1, c)
  {
  }

  // ---------------------------------------------------------------- inference inverts substitution

  /** What parameter `i` stands for under `s`: its binding, or itself. */
  function Meaning(names: seq<Name>, s: Binding, i: nat): Ty
    requires |s| == |names| && i < |names|
  {
    if s[i].Some? then s[i].value else Param(names[i], false)
  }

  /** What is bound so far is what `s` binds. */
  ghost predicate Agrees(names: seq<Name>, s: Binding, bind: Binding) {
    |s| == |bind| == |names| && forall i :: 0 <= i < |names| && bind[i].Some? ==>
        Same(bind[i].value, Meaning(names, s, i))
  }

  ghost predicate Extends(bind: Binding, bind1: Binding) {
    |bind| == |bind1| && forall i :: 0 <= i < |bind| && bind[i].Some? ==> bind1[i] == bind[i]
  }

  lemma {:induction false} ParamMeaning(names: seq<Name>, s: Binding, x: Name, weak: bool, arg: Ty)
    requires |s| == |names| && x in names && Same(Subst(Param(x, weak), names, s), arg)
    ensures Same(arg, Meaning(names, s, IndexOf(names, x)))
  {
    SameSym(Subst(Param(x, weak), names, s), arg);
    SameRefl(Meaning(names, s, IndexOf(names, x)));
    SameTrans(arg, Subst(Param(x, weak), names, s), Meaning(names, s, IndexOf(names, x)));
  }

  /** If the argument's type is the parameter's under `s`, unifying meets no conflict and binds
      every type parameter that occurs to what `s` binds it to. */
  lemma {:induction false} UnifyInstance(names: seq<Name>, s: Binding, param: Ty, arg: Ty, bind: Binding)
    requires |s| == |names| && Agrees(names, s, bind) && Same(Subst(param, names, s), arg)
    ensures var r := Unify(names, param, arg, bind);
      && r.Some? && Agrees(names, s, r.value) && Extends(bind, r.value)
      && forall i :: 0 <= i < |names| && Occurs(param, names, i) ==> r.value[i].Some?
    decreases param, 1
  {
    match param
    case Param(x, weak) =>
      var i := IndexOf(names, x);
      if i >= 0 {
        ParamMeaning(names, s, x, weak, arg);
        if bind[i].Some? {
          SameSym(arg, Meaning(names, s, i));
          SameTrans(bind[i].value, Meaning(names, s, i), arg);
        }
      }
    case Array(e, _) => UnifyInstance(names, s, e, arg.elem, bind);
    case Map(e, _) => UnifyInstance(names, s, e, arg.elem, bind);
    case Fn(ps, r) =>
      UnifyAllInstance(names, s, ps, arg.params, bind);
      UnifyInstance(names, s, r, arg.ret, UnifyAll(names, ps, arg.params, bind).value);
    case _ =>
  }

  lemma {:induction false} UnifyAllInstance(names: seq<Name>, s: Binding, params: seq<Ty>, args: seq<Ty>, bind: Binding)
    requires |s| == |names| && Agrees(names, s, bind) && |params| == |args| && SameAll(SubstAll(params, names, s), args)
    ensures var r := UnifyAll(names, params, args, bind);
      && r.Some? && Agrees(names, s, r.value) && Extends(bind, r.value)
      && forall i :: 0 <= i < |names| && OccursAny(params, names, i) ==> r.value[i].Some?
    decreases params, 0
  {
    if params != [] {
      UnifyInstance(names, s, params[0], args[0], bind);
      UnifyAllInstance(names, s, params[1..], args[1..], Unify(names, params[0], args[0], bind).value);
    }
  }

  /** Bindings that mean the same on what occurs substitute to the same type. */
  lemma {:induction false} SubstAgrees(t: Ty, names: seq<Name>, s: Binding, b: Binding)
    requires Agrees(names, s, b) && forall i :: 0 <= i < |names| && Occurs(t, names, i) ==> b[i].Some?
    ensures Same(Subst(t, names, b), Subst(t, names, s))
    decreases t, 1
  {
    match t
    case Param(x, weak) =>
      var i := IndexOf(names, x);
      if i >= 0 {
        assert Occurs(t, names, i);
        var m := Meaning(names, s, i);
        SameRefl(m);
        SameTrans(Subst(t, names, b), b[i].value, m) by { SameRefl(b[i].value); }
        SameTrans(Subst(t, names, b), m, Subst(t, names, s));
      }
    case Array(e, _) => SubstAgrees(e, names, s, b);
    case Map(e, _) => SubstAgrees(e, names, s, b);
    case Fn(ps, r) =>
      SubstAgrees(r, names, s, b);
      SubstAllAgrees(ps, names, s, b);
    case _ => SameRefl(t);
  }

  lemma {:induction false} SubstAllAgrees(ts: seq<Ty>, names: seq<Name>, s: Binding, b: Binding)
    requires Agrees(names, s, b) && forall i :: 0 <= i < |names| && OccursAny(ts, names, i) ==> b[i].Some?
    ensures SameAll(SubstAll(ts, names, b), SubstAll(ts, names, s))
    decreases ts, 0
  {
    if ts != [] {
      SubstAgrees(ts[0], names, s, b);
      SubstAllAgrees(ts[1..], names, s, b);
    }
  }

  /** The round trip: substituting what was inferred gives the argument's type back. */
  lemma {:induction false} UnifyInvertsSubst(names: seq<Name>, s: Binding, param: Ty, arg: Ty, bind: Binding)
    requires |s| == |names| && Agrees(names, s, bind) && Same(Subst(param, names, s), arg)
    ensures Unify(names, param, arg, bind).Some?
    ensures Same(Subst(param, names, Unify(names, param, arg, bind).value), arg)
  {
    UnifyInstance(names, s, param, arg, bind);
    var b := Unify(names, param, arg, bind).value;
    SubstAgrees(param, names, s, b);
    SameTrans(Subst(param, names, b), Subst(param, names, s), arg);
  }

  // ---------------------------------------------------------------- inference at a call

  /** type_has_typaram. */
  predicate HasParam(t: Ty)
    decreases t, 1
  {
    match t
    case Param(_, _) => true
    case Array(e, _) => HasParam(e)
    case Map(e, _) => HasParam(e)
    case Fn(ps, r) => HasParam(r) || AnyHasParam(ps)
    case _ => false
  }

  predicate AnyHasParam(ts: seq<Ty>)
    decreases ts, 0
  {
    ts != [] && (HasParam(ts[0]) || AnyHasParam(ts[1..]))
  }

  /** A parameter type that needs no more inference has all its parameters bound. */
  lemma {:induction false} NothingLeft(t: Ty, names: seq<Name>, b: Binding)
    requires |b| == |names| && !HasParam(Subst(t, names, b))
    ensures forall i :: 0 <= i < |names| && Occurs(t, names, i) ==> b[i].Some?
    decreases t, 1
  {
    match t
    case Array(e, _) => NothingLeft(e, names, b);
    case Map(e, _) => NothingLeft(e, names, b);
    case Fn(ps, r) =>
      NothingLeft(r, names, b);
      NothingLeftAny(ps, names, b);
    case _ =>
  }

  lemma {:induction false} NothingLeftAny(ts: seq<Ty>, names: seq<Name>, b: Binding)
    requires |b| == |names| && !AnyHasParam(SubstAll(ts, names, b))
    ensures forall i :: 0 <= i < |names| && OccursAny(ts, names, i) ==> b[i].Some?
    decreases ts, 0
  {
    if ts != [] {
      NothingLeft(ts[0], names, b);
      NothingLeftAny(ts[1..], names, b);
    }
  }

  predicate AllBound(b: Binding) {
    forall i :: 0 <= i < |b| ==> b[i].Some?
  }

  datatype Outcome = Inferred(bind: Binding) | Conflict | CannotInfer

  /** The walk over the arguments: it stops once everything is bound and passes over parameters
      with nothing left to infer. */
  function Walk(names: seq<Name>, params: seq<Ty>, args: seq<Ty>, bind: Binding): (r: Option<Binding>)
    requires |bind| == |names|
    ensures r.Some? ==> |r.value| == |names|
    decreases |params|
  {
    if params == [] || args == [] || AllBound(bind) then Some(bind)
    else if !HasParam(Subst(params[0], names, bind)) then Walk(names, params[1..], args[1..], bind)
    else
      var b := Unify(names, params[0], args[0], bind);
      if b.None? then None else Walk(names, params[1..], args[1..], b.value)
  }

  /** infer_generic_fn on positional arguments without explicit type arguments. */
  method InferCall(names: seq<Name>, params: seq<Ty>, args: seq<Ty>) returns (out: Outcome)
    ensures var w := Walk(names, params, args, seq(|names|, _ => None));
      out == if w.None? then Conflict else if AllBound(w.value) then Inferred(w.value) else CannotInfer
  {
    var bind := new Option<Ty>[|names|](_ => None);
    assert bind[..] == seq(|names|, _ => None);
    var i := 0;
    while i < |params| && i < |args|
      invariant i <= |params| && i <= |args|
      invariant Walk(names, params[i..], args[i..], bind[..]) == Walk(names, params, args, seq(|names|, _ => None))
    {
      assert params[i..][1..] == params[i + 1..] && args[i..][1..] == args[i + 1..];
      if AllBound(bind[..]) { break; }
      if HasParam(Subst(params[i], names, bind[..])) {
        var ok := UnifyInPlace(names, params[i], args[i], bind);
        if !ok { return Conflict; }
      }
      i := i + 1;
    }
    if !AllBound(bind[..]) { return CannotInfer; }
    return Inferred(bind[..]);
  }

  /** When the arguments' types are the parameters' under some `s`, the walk meets no conflict and
      whatever occurs in the parameters it looked at is bound as in `s`. */
  lemma {:induction false} WalkInstance(names: seq<Name>, s: Binding, params: seq<Ty>, args: seq<Ty>, bind: Binding)
    requires Agrees(names, s, bind) && |params| == |args| && SameAll(SubstAll(params, names, s), args)
    ensures var r := Walk(names, params, args, bind);
      && r.Some? && Agrees(names, s, r.value) && Extends(bind, r.value)
      && forall i :: 0 <= i < |names| && OccursAny(params, names, i) ==> r.value[i].Some?
    decreases |params|
  {
    if params != [] && !AllBound(bind) {
      if !HasParam(Subst(params[0], names, bind)) {
        NothingLeft(params[0], names, bind);
        WalkInstance(names, s, params[1..], args[1..], bind);
      } else {
        UnifyInstance(names, s, params[0], args[0], bind);
        WalkInstance(names, s, params[1..], args[1..], Unify(names, params[0], args[0], bind).value);
      }
    }
  }

  /** A call whose argument types are an instance of the parameter types is always inferred, and
      the inferred type arguments give every parameter its argument's type. */
  lemma {:induction false} CallInferred(names: seq<Name>, s: Binding, params: seq<Ty>, args: seq<Ty>)
    requires |s| == |names| && |params| == |args| && SameAll(SubstAll(params, names, s), args)
    requires forall i :: 0 <= i < |names| ==> OccursAny(params, names, i)
    ensures var w := Walk(names, params, args, seq(|names|, _ => None));
      w.Some? && AllBound(w.value) && Agrees(names, s, w.value) && SameAll(SubstAll(params, names, w.value), args)
  {
    WalkInstance(names, s, params, args, seq(|names|, _ => None));
    var b := Walk(names, params, args, seq(|names|, _ => None)).value;
    SubstAllAgrees(params, names, s, b);
    SameAllTrans(SubstAll(params, names, b), SubstAll(params, names, s), args);
  }

  /** A call is in conflict only where one of its type parameters meets two different types. */
  lemma {:induction false} WalkConflict(names: seq<Name>, params: seq<Ty>, args: seq<Ty>, bind: Binding)
    requires |bind| == |names| && Walk(names, params, args, bind).None?
    ensures !OneEach(bind, MetAll(names, params, args))
    decreases |params|
  {
    hide Same;
    UnifyMeets(names, params[0], args[0], bind);
    if !HasParam(Subst(params[0], names, bind)) {
      WalkConflict(names, params[1..], args[1..], bind);
    } else {
      var b := Unify(names, params[0], args[0], bind);
      if b.Some? {
        WalkConflict(names, params[1..], args[1..], b.value);
        var m, m1 := Met(names, params[0], args[0]), MetAll(names, params[1..], args[1..]);
        MetInRange(names, params[1..], args[1..]);
        MeetsJoin(bind, m, b.value, m1);
      }
    }
  }

  lemma {:induction false} MetInRange(names: seq<Name>, params: seq<Ty>, args: seq<Ty>)
    ensures forall p :: p in MetAll(names, params, args) ==> 0 <= p.0 < |names|
    decreases |params|
  {
    if params != [] && args != [] {
      UnifyMeets(names, params[0], args[0], seq(|names|, _ => None));
      MetInRange(names, params[1..], args[1..]);
    }
  }

  /** The walk looks no further than it must: for `f<T>(a: T, b: T)` an int and a text infer T as int,
      and the second argument is left to the check of arguments.  Where both types are met before T is
      all there is to bind, as for `f<T, U>(a: T, b: (T) => U)`, they are in conflict. */
  lemma {:induction false} TwoTypesForOne(x: Name, y: Name, n: nat)
    requires x != y
    ensures var (int0, text, par) := (Scalar(IntT, false), Scalar(OtherT(n), false), Param(x, false));
      && Walk([x], [par, par], [int0, text], [None]) == Some([Some(int0)])
      && Walk([x, y], [par, Fn([par], Param(y, false))], [int0, Fn([text], int0)], [None, None]) == None
  {
    var int0, text, par, res := Scalar(IntT, false), Scalar(OtherT(n), false), Param(x, false), Param(y, false);
    assert [par, par][1..] == [par] && [int0, text][1..] == [text];
    var none, none2: Binding := [None], [None, None];
    assert IndexOf([x], x) == 0 && none[0 := Some(int0)] == [Some(int0)];
    assert Unify([x], par, int0, none) == Some([Some(int0)]);
    var fp, fa := Fn([par], res), Fn([text], int0);
    assert [par, fp][1..] == [fp] && [int0, fa][1..] == [fa];
    var b: Binding := [Some(int0), None];
    assert IndexOf([x, y], x) == 0 && none2[0 := Some(int0)] == b;
    assert Unify([x, y], par, int0, none2) == Some(b);
    assert Unify([x, y], par, text, b) == None;
    assert UnifyAll([x, y], [par], [text], b) == None;
    assert Unify([x, y], fp, fa, b) == None;
    assert HasParam(Subst(res, [x, y], b)) by { assert IndexOf([x, y], y) == 1; }
  }
}
