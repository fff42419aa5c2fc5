/** The emitter as the compiler has it: one object whose scope stack, pending temporaries,
    counters and output every emit method updates in place.  Each method does to that state
    what the functions of `EmitSpec` say. */
module Emitter {
  import opened Basics
  import opened VytoLang
  import opened CTarget
  import Spec = EmitSpec

  class Em {
    var scopes: seq<Spec.Scope>
    var temps: seq<Name>
    var tempc: nat
    var loopc: nat
    var out: seq<CStmt>
    const rt: RetType

    constructor (rt: RetType)
      ensures this.rt == rt && out == [] && State() == Spec.Cx([], [], 0, 0)
    {
      this.rt := rt;
      scopes, temps, tempc, loopc, out := [], [], 0, 0, [];
    }

    ghost function State(): Spec.Cx
      reads this
    {
      Spec.Cx(scopes, temps, tempc, loopc)
    }

    /** This call appended the code of `r` and left the state of `r`. */
    twostate predicate Emitted(r: (seq<CStmt>, Spec.Cx))
      reads this
    {
      out == old(out) + r.0 && State() == r.1
    }

    method Line(c: CStmt)
      modifies this`out
      ensures out == old(out) + [c]
    {
      out := out + [c];
    }

    method Push(s: Spec.Scope)
      modifies this`scopes
      ensures State() == Spec.Push(old(State()), s)
    {
      scopes := [s] + scopes;
    }

    /** Only references are owned, so only they are registered. */
    method Register(x: Name, ref: bool)
      requires scopes != []
      modifies this`scopes
      ensures State() == Spec.RegIf(old(State()), x, ref)
    {
      if !ref { return; }
      var s := scopes[0];
      scopes := [s.(names := s.names + [x])] + scopes[1..];
    }

    method ReleaseNames(names: seq<Name>)
      modifies this`out
      ensures out == old(out) + Spec.RelCode(names)
    {
      var i := |names|;
      while i > 0
        invariant 0 <= i <= |names|
        invariant out == old(out) + Spec.RelCode(names[i..])
      {
        i := i - 1;
        assert names[i..][1..] == names[i + 1..];
        out := out + [CReleaseNull(names[i])];
      }
      assert names[0..] == names;
    }

    method Pop()
      requires scopes != []
      modifies this`scopes, this`out
      ensures Emitted((Spec.RelCode(old(scopes[0].names)), Spec.Pop(old(State()))))
    {
      ReleaseNames(scopes[0].names);
      scopes := scopes[1..];
    }

    method NewTemp() returns (t: Name)
      modifies this`tempc
      ensures t == T(old(tempc)) && State() == Spec.NextT(old(State()))
    {
      t := T(tempc);
      tempc := tempc + 1;
    }

    method NewOwnedTemp() returns (t: Name)
      modifies this`tempc, this`temps
      ensures t == S(old(tempc)) && State() == Spec.Spill(old(State()))
    {
      t := S(tempc);
      temps := temps + [t];
      tempc := tempc + 1;
    }

    method FlushTemps(wm: nat)
      requires wm <= |temps|
      modifies this`temps, this`out
      ensures Emitted(Spec.Flush(old(State()), wm))
    {
      ReleaseNames(temps[wm..]);
      temps := temps[..wm];
    }

    // -------------------------------------------------------------- expressions

    method Expr(e: VytoLang.Expr) returns (c: CExpr, owned: bool)
      modifies this`temps, this`tempc
      ensures (c, owned, State()) == Spec.Ex(e, old(State()))
      decreases e, 0
    {
      match e
      case Lit(n) => return CLit(n), false;
      case Bool(b) => return CLit(Truth(b)), false;
      case Null => return CLit(0), false;
      case Var(x, _) => return CVar(L(x)), false;
      case Call(f, args, ref) =>
        var cs := Args(args);
        return CCall(f, cs, ref), ref;
      case Field(obj, fld, _) =>
        var a := Borrowed(obj);
        return CField(a, fld), false;
      case And(l, r) =>
        var a := Borrowed(l);
        var b := Borrowed(r);
        return CAnd(a, b), false;
      case Or(l, r) =>
        var a := Borrowed(l);
        var b := Borrowed(r);
        return COr(a, b), false;
      case Arith(op, l, r) =>
        var a := Borrowed(l);
        var b := Borrowed(r);
        return CArith(op, a, b), false;
    }

    method Borrowed(e: VytoLang.Expr) returns (c: CExpr)
      modifies this`temps, this`tempc
      ensures (c, State()) == Spec.ExB(e, old(State()))
      decreases e, 1
    {
      var owned;
      c, owned := Expr(e);
      if owned {
        var t := NewOwnedTemp();
        c := CSpill(t, c);
      }
    }

    method Args(es: seq<VytoLang.Expr>) returns (cs: seq<CExpr>)
      modifies this`temps, this`tempc
      ensures (cs, State()) == Spec.ExArgs(es, old(State()))
      decreases es
    {
      if es == [] { return []; }
      var c := Borrowed(es[0]);
      var rest := Args(es[1..]);
      return [c] + rest;
    }

    method OwnedValue(e: VytoLang.Expr) returns (c: CExpr)
      modifies this`temps, this`tempc
      ensures (c, State()) == Spec.ExO(e, old(State()))
    {
      if !IsRef(e) {
        c := Borrowed(e);
      } else {
        var owned;
        c, owned := Expr(e);
        if !owned { c := CRetain(c); }
      }
    }

    method ValueFor(e: VytoLang.Expr, ref: bool) returns (c: CExpr)
      modifies this`temps, this`tempc
      ensures (c, State()) == Spec.ExFor(e, ref, old(State()))
    {
      if ref { c := OwnedValue(e); } else { c := Borrowed(e); }
    }

    // -------------------------------------------------------------- jumps

    static function ExitCode(ss: seq<Spec.Scope>, throughLoop: bool): seq<CStmt> {
      if throughLoop then Spec.JumpCode(ss) else Spec.ReturnCode(ss)
    }

    static lemma {:induction false} ExitStep(ss: seq<Spec.Scope>, throughLoop: bool)
      requires ss != []
      ensures ExitCode(ss, throughLoop) == Spec.RelCode(ss[0].names)
        + if throughLoop && ss[0].isLoop then [] else ExitCode(ss[1..], throughLoop)
    {
    }

    /** Release scope by scope: up to the innermost loop for a jump, all of them for a return. */
    method ReleaseForJump(throughLoop: bool)
      modifies this`out
      ensures out == old(out) + ExitCode(scopes, throughLoop)
    {
      hide Spec.RelCode, Spec.JumpCode, Spec.ReturnCode, ExitCode;
      var j := 0;
      ghost var done: seq<CStmt> := [];
      assert scopes[0..] == scopes;
      while j < |scopes|
        invariant 0 <= j <= |scopes|
        invariant out == old(out) + done && ExitCode(scopes, throughLoop) == done + ExitCode(scopes[j..], throughLoop)
      {
        assert scopes[j..][1..] == scopes[j + 1..] && scopes[j..][0] == scopes[j];
        ExitStep(scopes[j..], throughLoop);
        ReleaseNames(scopes[j].names);
        ghost var rel := Spec.RelCode(scopes[j].names);
        assert done + (rel + ExitCode(scopes[j + 1..], throughLoop))
            == done + rel + ExitCode(scopes[j + 1..], throughLoop);
        done := done + rel;
        if throughLoop && scopes[j].isLoop {
          assert rel + [] == rel;
          return;
        }
        j := j + 1;
      }
      assert scopes[|scopes|..] == [];
      ExitNone(throughLoop);
    }

    static lemma {:induction false} ExitAll()
      ensures forall ss :: ExitCode(ss, true) == Spec.JumpCode(ss) && ExitCode(ss, false) == Spec.ReturnCode(ss)
    {
    }

    static lemma {:induction false} ExitNone(throughLoop: bool)
      ensures ExitCode([], throughLoop) == []
    {
    }

    /** Look outwards for the loop; if a switch is met first, the loop gets a label. */
    method FindTarget() returns (goal: Option<nat>)
      modifies this`scopes
      ensures var crossing := Spec.HasLoop(old(scopes)) && Spec.Crossed(old(scopes));
        && State() == (if crossing then old(State()).(scopes := Spec.Mark(old(scopes))) else old(State()))
        && goal == if crossing then Some(Spec.LoopOf(old(scopes)).loopId) else None
    {
      var j, crossed := 0, false;
      while j < |scopes| && !scopes[j].isLoop
        invariant 0 <= j <= |scopes| && scopes == old(scopes)
        invariant Spec.HasLoop(scopes) == Spec.HasLoop(scopes[j..])
        invariant Spec.HasLoop(scopes) ==> Spec.Crossed(scopes) == (crossed || Spec.Crossed(scopes[j..]))
        invariant Spec.HasLoop(scopes) ==> Spec.LoopOf(scopes) == Spec.LoopOf(scopes[j..])
        invariant Spec.Mark(scopes) == scopes[..j] + Spec.Mark(scopes[j..])
      {
        assert scopes[j..][1..] == scopes[j + 1..] && scopes[j..][0] == scopes[j];
        assert scopes[..j] + ([scopes[j]] + Spec.Mark(scopes[j + 1..])) == scopes[..j + 1] + Spec.Mark(scopes[j + 1..]);
        crossed := crossed || scopes[j].isSwitch;
        j := j + 1;
      }
      goal := None;
      if j < |scopes| && crossed {
        assert scopes[j..][0] == scopes[j] && scopes[j..][1..] == scopes[j + 1..];
        goal := Some(scopes[j].loopId);
        scopes := scopes[..j] + [scopes[j].(needsLabel := true)] + scopes[j + 1..];
        assert scopes == Spec.Mark(old(scopes));
      }
    }

    // -------------------------------------------------------------- statements

    method Assign(x: nat, ref: bool, rhs: VytoLang.Expr)
      modifies this
      ensures Emitted(Spec.EmitAssign(x, ref, rhs, old(State())))
    {
      var wm := |temps|;

      if ref {
        var t := NewTemp();
        var c := OwnedValue(rhs);
        out := out + [CSet(t, c), CReleaseKeep(L(x)), CSet(L(x), CVar(t))];
      } else {
        var c := Borrowed(rhs);
        out := out + [CSet(L(x), c)];
      }
      FlushTemps(wm);
    }

    method Let(x: nat, ref: bool, init: VytoLang.Expr)
      requires scopes != []
      modifies this
      ensures Emitted(Spec.EmitLet(x, ref, init, old(State())))
    {
      var wm := |temps|;
      var c := ValueFor(init, ref);
      Line(CSet(L(x), c));
      Register(L(x), ref);
      FlushTemps(wm);
    }

    method Discard(e: VytoLang.Expr)
      modifies this
      ensures Emitted(Spec.EmitEval(e, old(State())))
    {
      var wm := |temps|;
      var c := Borrowed(e);
      Line(CEval(c));
      FlushTemps(wm);
    }

    method PanicWith(e: VytoLang.Expr)
      modifies this
      ensures Emitted(Spec.EmitPanic(e, old(State())))
    {
      var wm := |temps|;
      var c := Borrowed(e);
      Line(CPanic(c));
      FlushTemps(wm);
    }

    method SetStrong(obj: VytoLang.Expr, fld: int, rhs: VytoLang.Expr)
      modifies this
      ensures Emitted(Spec.EmitSetStrong(obj, fld, rhs, old(State())))
    {
      var wm := |temps|;
      var to := NewTemp();
      var o := Borrowed(obj);
      var tv := NewTemp();
      var c := OwnedValue(rhs);
      out := out + [CSet(to, o), CSet(tv, c), CReleaseSlot(to, fld), CPutSlot(to, fld, CVar(tv), true)];
      FlushTemps(wm);
    }

    method SetPlain(obj: VytoLang.Expr, fld: int, rhs: VytoLang.Expr)
      modifies this
      ensures Emitted(Spec.EmitSetPlain(obj, fld, rhs, old(State())))
    {
      var wm := |temps|;
      var to := NewTemp();
      var o := Borrowed(obj);
      var c := Borrowed(rhs);
      out := out + [CSet(to, o), CPutSlot(to, fld, c, false)];
      FlushTemps(wm);
    }

    method SetElem(arr: VytoLang.Expr, idx: VytoLang.Expr, ref: bool, rhs: VytoLang.Expr)
      modifies this
      ensures Emitted(Spec.EmitSetElem(arr, idx, ref, rhs, old(State())))
    {
      var wm := |temps|;
      var ta := NewTemp();
      var ti := NewTemp();
      var tv := NewTemp();
      var a := Borrowed(arr);
      var i := Borrowed(idx);
      var v := Borrowed(rhs);
      out := out + [CSet(ta, a), CSet(ti, i), CSet(tv, v), CArrSet(ta, ti, tv, ref)];
      FlushTemps(wm);
    }

    /** Temporaries of enclosing statements are released here but stay registered: the
        fall-through path still needs their flush. */
    method Return(ret: Option<VytoLang.Expr>)
      modifies this
      ensures Emitted(Spec.EmitReturn(ret, rt, old(State())))
    {
      hide Spec.RelCode, Spec.ReturnCode, Spec.ExFor;
      ExitAll();
      var wm := |temps|;
      ghost var outer := temps;
      var result: Option<Name> := None;
      if ret.Some? && rt.Some? {
        var t := NewTemp();
        var c := ValueFor(ret.value, rt.value);
        Line(CSet(t, c));
        FlushTemps(wm);
        result := Some(t);
      }
      ghost var before := out;
      assert temps == outer;
      ReleaseNames(temps[..wm]);
      ReleaseForJump(false);
      Line(CReturn(result));
      assert temps[..wm] == outer;
      assert out == before + (Spec.RelCode(outer) + Spec.ReturnCode(scopes) + [CReturn(result)]);
    }

    method Break()
      modifies this
      ensures Emitted(Spec.EmitBreak(old(State())))
    {
      ReleaseForJump(true);
      var goal := FindTarget();
      Line(if goal.Some? then CGoto(goal.value) else CBreak);
    }

    method Continue()
      modifies this`out
      ensures Emitted((Spec.JumpCode(old(scopes)) + [CContinue], old(State())))
    {
      ReleaseForJump(true);
      Line(CContinue);
    }

    method Condition(cond: VytoLang.Expr) returns (t: Name)
      modifies this
      ensures t == T(old(tempc)) && Emitted(Spec.EmitCond(cond, old(State())))
    {
      var wm := |temps|;
      t := NewTemp();
      var c := Borrowed(cond);
      Line(CSet(t, c));
      FlushTemps(wm);
    }

    /** The inside of a block, with a scope of its own. */
    method Nested(ss: seq<VytoLang.Stmt>) returns (code: seq<CStmt>)
      requires scopes != []
      modifies this
      ensures (code, State()) == Spec.EmitScope(ss, rt, old(State())) && out == old(out)
      decreases ss, 1
    {
      var saved := out;
      out := [];
      Push(Spec.PLAIN);
      ghost var a := Spec.EmitAll(ss, rt, State()).0;
      Stmts(ss);
      assert [] + a == a;
      Pop();
      code, out := out, saved;
    }

    method If(s: VytoLang.Stmt)
      requires s.If? && scopes != []
      modifies this
      ensures Emitted(Spec.EmitIf(s, rt, old(State())))
      decreases s, 0
    {
      var t := Condition(s.cond);
      var a := Nested(s.thn);
      var b := [];
      if s.hasElse { b := Nested(s.els); }
      Line(CIf(t, a, b));
    }

    method LoopBegin()
      modifies this`scopes, this`loopc
      ensures State() == Spec.LoopBegin(old(State()))
    {
      Push(Spec.Scope([], true, false, loopc + 1, false));
      loopc := loopc + 1;
    }

    /** The label is printed only when some break asked for it. */
    method LoopEnd(ls: Spec.Scope)
      modifies this`out
      ensures out == old(out) + Spec.LoopEnd(ls)
    {
      if ls.needsLabel { Line(CLabel(ls.loopId)); }
    }

    method While(s: VytoLang.Stmt)
      requires s.While? && scopes != []
      modifies this
      ensures Emitted(Spec.EmitWhile(s, rt, old(State())))
      decreases s, 0
    {
      hide Spec.RelCode, Spec.EmitScope, Spec.EmitCond, Spec.LoopEnd;
      var saved := out;
      LoopBegin();
      out := [];
      ghost var pre := Spec.EmitCond(s.cond, State()).0;
      var t := Condition(s.cond);
      assert [] + pre == pre;
      Line(CIf(t, [], [CBreak]));
      var b := Nested(s.body);
      out := out + b;
      var ls := scopes[0];
      Pop();
      assert out == pre + ([CIf(t, [], [CBreak])] + (b + Spec.RelCode(ls.names)));
      ghost var loop := [CForever(out)];
      out := saved + [CForever(out)];
      assert saved + loop + Spec.LoopEnd(ls) == saved + (loop + Spec.LoopEnd(ls));
      LoopEnd(ls);
    }

    method LoopHeader(x: nat, iter: Iter) returns (iv: Name, init: CExpr, bound: CExpr, ta: Name)
      requires scopes != []
      modifies this
      ensures var h := Spec.EmitHeader(x, iter, old(State()));
        && Emitted((h.code, h.cx)) && iv == h.iv && init == h.init && bound == h.bound && ta == h.ta
    {
      var wm := |temps|;
      match iter
      case Range(lo, hi) =>
        var tlo := NewTemp();
        ta := NewTemp();
        var a := Borrowed(lo);
        var b := Borrowed(hi);
        out := out + [CSet(tlo, a), CSet(ta, b)];
        FlushTemps(wm);
        iv, init, bound := L(x), CVar(tlo), CVar(ta);
      case Each(arr, _) =>
        ta := NewTemp();
        var a := Borrowed(arr);
        Line(CSet(ta, a));
        iv := NewTemp();
        init, bound := CLit(0), CLen(ta);
      case EnumVals(vals) =>
        iv := NewTemp();
        ta, init, bound := iv, CLit(0), CLit(|vals|);
      case Iterate(obj, lenF, _, held, index, _) =>
        var a := OwnedValue(obj);
        Line(CSet(L(held), a));
        Register(L(held), true);
        FlushTemps(wm);
        LenCall(lenF, held, State());
        bound := Borrowed(VytoLang.Call(lenF, [VytoLang.Var(held, true)], false));
        iv, init, ta := L(index), CLit(0), L(held);
    }

    /** The len() test of an object loop borrows the held container and spills nothing. */
    static lemma {:induction false} LenCall(f: int, held: nat, cx: Spec.Cx)
      ensures Spec.ExB(VytoLang.Call(f, [VytoLang.Var(held, true)], false), cx)
          == (CCall(f, [CVar(L(held))], false), cx)
    {
      var v := VytoLang.Var(held, true);
      assert [v][1..] == [];
      assert Spec.ExArgs([], cx) == ([], cx);
      assert Spec.ExB(v, cx) == (CVar(L(held)), cx);
      assert Spec.ExArgs([v], cx) == ([CVar(L(held))] + [], cx);
      assert [CVar(L(held))] + [] == [CVar(L(held))];
    }

    /** The inside of a counted loop: load the item, own it if it is a reference, run. */
    method LoopInside(s: VytoLang.Stmt, iv: Name, ta: Name) returns (code: seq<CStmt>, ls: Spec.Scope)
      requires s.For? && scopes != []
      modifies this
      ensures var (b, cx2) := Spec.EmitAll(s.body, rt,
          Spec.RegIf(Spec.LoopBegin(old(State())), L(s.x), Spec.ItemIsRef(s.iter)));
        && ls == cx2.scopes[0] && State() == Spec.Pop(cx2) && out == old(out)
        && code == Spec.LoadItem(s.x, s.iter, iv, ta) + (b + Spec.RelCode(ls.names))
      decreases s, 0
    {
      hide Spec.RelCode, Spec.LoadItem;
      var saved := out;
      LoopBegin();
      out := Spec.LoadItem(s.x, s.iter, iv, ta);
      ghost var load := out;
      Register(L(s.x), Spec.ItemIsRef(s.iter));
      ghost var b := Spec.EmitAll(s.body, rt, State()).0;
      Stmts(s.body);
      ls := scopes[0];
      Pop();
      assert load + b + Spec.RelCode(ls.names) == load + (b + Spec.RelCode(ls.names));
      code, out := out, saved;
    }

    method For(s: VytoLang.Stmt)
      requires s.For? && scopes != []
      modifies this
      ensures Emitted(Spec.EmitFor(s, rt, old(State())))
      decreases s, 1
    {
      hide Spec.RelCode, Spec.LoadItem, Spec.EmitAll, Spec.EmitHeader, Spec.LoopEnd;
      var wm, start := |temps|, out;
      ghost var h := Spec.EmitHeader(s.x, s.iter, State());
      var iv, init, bound, ta := LoopHeader(s.x, s.iter);
      var body, ls := LoopInside(s, iv, ta);
      Line(CFor(iv, init, bound, body));
      LoopEnd(ls);
      ghost var mid := [CFor(iv, init, bound, body)] + Spec.LoopEnd(ls);
      assert out == start + (h.code + mid);
      ghost var fl := Spec.RelCode(temps[wm..]);
      assert start + (h.code + mid) + fl == start + (h.code + mid + fl);
      FlushTemps(wm);
    }

    method Arms(arms: seq<Arm>, isStr: bool) returns (cases: seq<CCase>)
      requires scopes != []
      modifies this
      ensures (cases, State()) == Spec.EmitArms(arms, isStr, rt, old(State())) && out == old(out)
      decreases arms, 0
    {
      if arms == [] { return []; }
      if isStr && arms[0].isDefault {
        cases := Arms(arms[1..], isStr);
        return;
      }
      var b := Nested(arms[0].body);
      var rest := Arms(arms[1..], isStr);
      return [CCase(arms[0].values, arms[0].isDefault, if isStr then b else b + [CBreak])] + rest;
    }

    method Subject(subject: VytoLang.Expr, isStr: bool) returns (sv: Name)
      modifies this
      ensures sv == T(old(tempc)) && Emitted(Spec.SwitchHead(subject, isStr, old(State())))
    {
      var wm := |temps|;
      Push(Spec.PLAIN.(isSwitch := true));
      sv := NewTemp();
      var c := OwnedValue(subject);
      Line(CSet(sv, c));
      Register(sv, isStr);
      FlushTemps(wm);
    }

    method Switch(s: VytoLang.Stmt)
      requires s.Switch? && scopes != []
      modifies this
      ensures Emitted(Spec.EmitSwitch(s, rt, old(State())))
      decreases s, 0
    {
      hide Spec.SwitchHead, Spec.EmitArms, Spec.EmitScope, Spec.RelCode;
      var saved := out;
      out := [];
      ghost var pre := Spec.SwitchHead(s.subject, s.isStr, State()).0;
      var sv := Subject(s.subject, s.isStr);
      assert [] + pre == pre;
      var cases := Arms(s.arms, s.isStr);
      var els, d := [], FindDefault(s.arms);
      if s.isStr && d < |s.arms| { els := Nested(s.arms[d].body); }
      var body := if s.isStr then CTextChain(sv, cases, els) else CSwitch(sv, cases);
      Line(body);
      ghost var names := scopes[0].names;
      Pop();
      assert out == pre + ([body] + Spec.RelCode(names));
      out := saved + [CBlock(out)];
    }

    method Stmt(s: VytoLang.Stmt)
      requires scopes != []
      modifies this
      ensures Emitted(Spec.EmitS(s, rt, old(State())))
      decreases s, 2
    {
      hide Spec.EmitLet, Spec.EmitEval, Spec.EmitPanic, Spec.EmitAssign, Spec.EmitSetStrong, Spec.EmitSetPlain,
          Spec.EmitSetElem,
        Spec.EmitIf, Spec.EmitWhile, Spec.EmitFor, Spec.EmitSwitch, Spec.EmitReturn, Spec.EmitBreak, Spec.JumpCode,
            Spec.EmitScope;
      match s
      case Let(x, ref, init) => Let(x, ref, init);
      case Eval(e) => Discard(e);
      case Panic(e) => PanicWith(e);
      case Assign(x, ref, rhs) => Assign(x, ref, rhs);
      case SetField(obj, fld, kind, rhs) =>
        if kind.Strong? { SetStrong(obj, fld, rhs); } else { SetPlain(obj, fld, rhs); }
      case SetElem(arr, idx, ref, rhs) => SetElem(arr, idx, ref, rhs);
      case If(_, _, _, _) => If(s);
      case While(_, _) => While(s);
      case For(_, _, _) => For(s);
      case Switch(_, _, _, _) => Switch(s);
      case Return(ret) => Return(ret);
      case Break => Break();
      case Continue => Continue();
      case Block(body) =>
        var b := Nested(body);
        Line(CBlock(b));
    }

    method Stmts(ss: seq<VytoLang.Stmt>)
      requires scopes != []
      modifies this
      ensures Emitted(Spec.EmitAll(ss, rt, old(State())))
      decreases ss, 0
    {
      if ss == [] { return; }
      Stmt(ss[0]);
      Stmts(ss[1..]);
    }

    /** A parameter the body assigns gets a count of its own, released like a local's. */
    method RetainAssigned(ps: seq<Spec.Param>)
      requires |scopes| == 1 && scopes[0] == Spec.PLAIN && out == []
      modifies this`scopes, this`out
      ensures scopes == [Spec.PLAIN.(names := Spec.OwnedParams(ps, 0))]
      ensures out == Spec.RetainCode(Spec.OwnedParams(ps, 0))
    {
      hide Spec.OwnedParams, Spec.RetainCode;
      var i := 0;
      ghost var names: seq<Name> := [];
      RetainStep([]);
      while i < |ps|
        invariant 0 <= i <= |ps| && names + Spec.OwnedParams(ps, i) == Spec.OwnedParams(ps, 0)
        invariant scopes == [Spec.PLAIN.(names := names)] && out == Spec.RetainCode(names)
      {
        OwnedStep(ps, i);
        if ps[i].ref && ps[i].written {
          RetainMore(names, L(i));
          Line(CRetainVar(L(i)));
          Register(L(i), true);
          assert names + ([L(i)] + Spec.OwnedParams(ps, i + 1)) == names + [L(i)] + Spec.OwnedParams(ps, i + 1);
          names := names + [L(i)];
        } else {
          assert [] + Spec.OwnedParams(ps, i + 1) == Spec.OwnedParams(ps, i + 1);
        }
        i := i + 1;
      }
      OwnedEnd(ps);
      assert names + [] == names;
    }

    static lemma {:induction false} OwnedStep(ps: seq<Spec.Param>, i: nat)
      requires i < |ps|
      ensures Spec.OwnedParams(ps, i)
          == (if ps[i].ref && ps[i].written then [L(i)] else []) + Spec.OwnedParams(ps, i + 1)
    {
    }

    static lemma {:induction false} OwnedEnd(ps: seq<Spec.Param>)
      ensures Spec.OwnedParams(ps, |ps|) == []
    {
    }

    static lemma {:induction false} RetainStep(names: seq<Name>)
      ensures names == [] ==> Spec.RetainCode(names) == []
    {
    }

    static lemma {:induction false} RetainMore(names: seq<Name>, x: Name)
      ensures Spec.RetainCode(names + [x]) == Spec.RetainCode(names) + [CRetainVar(x)]
      decreases |names|
    {
      if names == [] {
        assert names + [x] == [x];
      } else {
        assert (names + [x])[1..] == names[1..] + [x];
        RetainMore(names[1..], x);
      }
    }
  }

  /** A whole function. */
  method EmitFunction(ps: seq<Spec.Param>, body: seq<VytoLang.Stmt>, rt: RetType) returns (code: seq<CStmt>)
    ensures code == Spec.EmitFn(ps, body, rt)
  {
    hide Spec.OwnedParams, Spec.RetainCode, Spec.RelCode, Spec.EmitAll;
    var em := new Em(rt);
    em.Push(Spec.PLAIN);
    em.RetainAssigned(ps);
    em.Stmts(body);
    em.ReleaseNames(em.scopes[0].names);
    if rt.Some? { em.Line(CReturn(None)); }
    code := em.out;
  }
}
