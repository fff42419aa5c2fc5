/** Every label of a function is placed once, so a goto has one place to go. */
module EmitLabels {
  import opened Basics
  import opened VytoLang
  import opened CTarget
  import opened EmitSpec
  import opened EmitShape

  /** All labels, nested ones included. */
  function Labels(cs: seq<CStmt>): seq<nat>
    decreases cs, 0
  {
    if cs == [] then [] else LabelsIn1(cs[0]) + Labels(cs[1..])
  }

  function LabelsIn1(c: CStmt): seq<nat>
    decreases c, 1
  {
    match c
    case CLabel(l) => [l]
    case CIf(_, thn, els) => Labels(thn) + Labels(els)
    case CForever(body) => Labels(body)
    case CFor(_, _, _, body) => Labels(body)
    case CSwitch(_, cases) => LabelsCases(cases)
    case CTextChain(_, cases, els) => LabelsCases(cases) + Labels(els)
    case CBlock(body) => Labels(body)
    case _ => []
  }

  function LabelsCases(cases: seq<CCase>): seq<nat>
    decreases cases, 0
  {
    if cases == [] then [] else Labels(cases[0].body) + LabelsCases(cases[1..])
  }

  /** Distinct and within lo+1..hi. */
  ghost predicate Once(ls: seq<nat>, lo: nat, hi: nat) {
    && lo <= hi
    && (forall i :: 0 <= i < |ls| ==> lo < ls[i] <= hi)
    && (forall i, j :: 0 <= i < j < |ls| ==> ls[i] != ls[j])
  }

  lemma {:induction false} OnceJoin(a: seq<nat>, b: seq<nat>, lo: nat, mid: nat, hi: nat)
    requires Once(a, lo, mid) && Once(b, mid, hi)
    ensures Once(a + b, lo, hi) && Once(b + a, lo, hi)
  {
  }

  lemma {:induction false} LabelsApp(a: seq<CStmt>, b: seq<CStmt>)
    ensures Labels(a + b) == Labels(a) + Labels(b)
    decreases |a|
  {
    if a == [] {
      assert a + b == b;
    } else {
      assert (a + b)[1..] == a[1..] + b;
      LabelsApp(a[1..], b);
    }
  }

  /** Code without blocks and labels. */
  ghost predicate Flat1(cs: seq<CStmt>) {
    forall i :: 0 <= i < |cs| ==> LabelsIn1(cs[i]) == []
  }

  lemma {:induction false} FlatNone(cs: seq<CStmt>)
    requires Flat1(cs)
    ensures Labels(cs) == []
  {
    if cs != [] { FlatNone(cs[1..]); }
  }

  lemma {:induction false} RelFlat(names: seq<Name>)
    ensures Flat1(RelCode(names))
  {
    if names != [] { RelFlat(names[1..]); }
  }

  lemma {:induction false} JumpFlat(scopes: seq<Scope>)
    ensures Flat1(JumpCode(scopes)) && Flat1(ReturnCode(scopes))
  {
    if scopes != [] {
      RelFlat(scopes[0].names);
      JumpFlat(scopes[1..]);
    }
  }

  lemma {:induction false} CondFlat(cond: Expr, cx: Cx)
    ensures Flat1(EmitCond(cond, cx).0) && EmitCond(cond, cx).1.loopc == cx.loopc
  {
    var cx1 := ExB(cond, NextT(cx)).1;
    RelFlat(cx1.temps[|cx.temps|..]);
  }

  /** The labels of emitted code are numbered from the loop counter before to the one after. */
  ghost predicate Numbered(code: seq<CStmt>, cx: Cx, cx1: Cx) {
    Once(Labels(code), cx.loopc, cx1.loopc)
  }

  lemma {:induction false} ScopeLabels(ss: seq<Stmt>, rt: RetType, cx: Cx, vis: View, n: nat, inLoop: bool)
    requires cx.scopes != [] && GoodAll(ss, vis, n, inLoop, rt)
    ensures var (code, cx1) := EmitScope(ss, rt, cx); Numbered(code, cx, cx1)
    decreases ss, 1
  {
    AllLabels(ss, rt, Push(cx, PLAIN), vis, n, inLoop);
    var (code, cx1) := EmitAll(ss, rt, Push(cx, PLAIN));
    RelFlat(cx1.scopes[0].names);
    FlatNone(RelCode(cx1.scopes[0].names));
    LabelsApp(code, RelCode(cx1.scopes[0].names));
    assert Labels(code) + [] == Labels(code);
  }

  lemma {:induction false} AllLabels(ss: seq<Stmt>, rt: RetType, cx: Cx, vis: View, n: nat, inLoop: bool)
    requires cx.scopes != [] && GoodAll(ss, vis, n, inLoop, rt)
    ensures var (code, cx1) := EmitAll(ss, rt, cx); Numbered(code, cx, cx1)
    decreases ss, 0
  {
    if ss != [] {
      var (a, cx1) := EmitS(ss[0], rt, cx);
      var (b, cx2) := EmitAll(ss[1..], rt, cx1);
      StmtLabels(ss[0], rt, cx, vis, n, inLoop);
      AllLabels(ss[1..], rt, cx1, ViewAfter(ss[0], vis), NextName(ss[0], n), inLoop);
      LabelsApp(a, b);
      OnceJoin(Labels(a), Labels(b), cx.loopc, cx1.loopc, cx2.loopc);
    }
  }

  lemma {:induction false} ArmsLabels(arms: seq<Arm>, isStr: bool, rt: RetType, cx: Cx, vis: View, n: nat, inLoop: bool)
    requires cx.scopes != [] && GoodArms(arms, vis, n, inLoop, rt)
    ensures var (cases, cx1) := EmitArms(arms, isStr, rt, cx); Once(LabelsCases(cases), cx.loopc, cx1.loopc)
    decreases arms, 0
  {
    hide EmitScope;
    if arms != [] {
      if isStr && arms[0].isDefault {
        ArmsLabels(arms[1..], isStr, rt, cx, vis, NextNames(arms[0].body, n), inLoop);
      } else {
        var (b, cx1) := EmitScope(arms[0].body, rt, cx);
        var (cs, cx2) := EmitArms(arms[1..], isStr, rt, cx1);
        ScopeLabels(arms[0].body, rt, cx, vis, n, inLoop);
        ArmsLabels(arms[1..], isStr, rt, cx1, vis, NextNames(arms[0].body, n), inLoop);
        LabelsApp(b, [CBreak]);
        FlatNone([CBreak]);
        assert Labels(b) + [] == Labels(b);
        OnceJoin(Labels(b), LabelsCases(cs), cx.loopc, cx1.loopc, cx2.loopc);
        var c := CCase(arms[0].values, arms[0].isDefault, if isStr then b else b + [CBreak]);
        assert ([c] + cs)[1..] == cs;
      }
    }
  }

  lemma {:induction false} StmtLabels(s: Stmt, rt: RetType, cx: Cx, vis: View, n: nat, inLoop: bool)
    requires cx.scopes != [] && Good(s, vis, n, inLoop, rt)
    ensures var (code, cx1) := EmitS(s, rt, cx); Numbered(code, cx, cx1)
    decreases s, 2
  {
    if s.If? { IfLabels(s, rt, cx, vis, n, inLoop); }
    else if s.While? { WhileLabels(s, rt, cx, vis, n, inLoop); }
    else if s.For? { ForLabels(s, rt, cx, vis, n, inLoop); }
    else if s.Switch? { SwitchLabels(s, rt, cx, vis, n, inLoop); }
    else if s.Block? {
      ScopeLabels(s.body, rt, cx, vis, n, inLoop);
      OneLabels(CBlock(EmitScope(s.body, rt, cx).0));
    } else {
      SimpleFlat(s, rt, cx);
      FlatNone(EmitS(s, rt, cx).0);
    }
  }

  lemma {:induction false} OneLabels(c: CStmt)
    ensures Labels([c]) == LabelsIn1(c)
  {
    assert [c][1..] == [] && LabelsIn1(c) + [] == LabelsIn1(c);
  }

  lemma {:induction false} FlushFlat(cs: seq<CStmt>, names: seq<Name>)
    requires Flat1(cs)
    ensures Flat1(cs + RelCode(names))
  {
    RelFlat(names);
  }

  lemma {:induction false} SimpleFlat(s: Stmt, rt: RetType, cx: Cx)
    requires cx.scopes != [] && !s.If? && !s.While? && !s.For? && !s.Switch? && !s.Block?
    ensures Flat1(EmitS(s, rt, cx).0) && EmitS(s, rt, cx).1.loopc == cx.loopc
  {
    hide ExB, ExO, ExFor, Ex, RelCode, JumpCode, ReturnCode, Mark, LoopOf, Crossed, HasLoop, Flat1, IsRef;
    if s.Return? {
      ReturnFlat(s.ret, rt, cx);
    } else if s.Break? || s.Continue? {
      LeaveFlat(cx);
    } else {
      StraightFlat(s, rt, cx);
    }
  }

  lemma {:induction false} ReturnFlat(ret: Option<Expr>, rt: RetType, cx: Cx)
    ensures Flat1(EmitReturn(ret, rt, cx).0) && EmitReturn(ret, rt, cx).1.loopc == cx.loopc
  {
    hide ExFor, RelCode, ReturnCode;
    JumpFlat(cx.scopes);
    forall names ensures Flat1(RelCode(names)) { RelFlat(names); }
  }

  lemma {:induction false} LeaveFlat(cx: Cx)
    ensures Flat1(EmitBreak(cx).0) && EmitBreak(cx).1.loopc == cx.loopc && Flat1(JumpCode(cx.scopes) + [CContinue])
  {
    hide JumpCode, Mark, LoopOf, Crossed, HasLoop;
    JumpFlat(cx.scopes);
  }

  lemma {:induction false} StraightFlat(s: Stmt, rt: RetType, cx: Cx)
    requires cx.scopes != [] && (s.Let? || s.Eval? || s.Panic? || s.Assign? || s.SetField? || s.SetElem?)
    ensures Flat1(EmitS(s, rt, cx).0) && EmitS(s, rt, cx).1.loopc == cx.loopc
  {
    hide ExB, ExO, ExFor, Ex, RelCode, IsRef;
    forall cs, names | Flat1(cs) ensures Flat1(cs + RelCode(names)) { FlushFlat(cs, names); }
  }

  lemma {:induction false} IfLabels(s: Stmt, rt: RetType, cx: Cx, vis: View, n: nat, inLoop: bool)
    requires s.If? && cx.scopes != [] && Good(s, vis, n, inLoop, rt)
    ensures var (code, cx1) := EmitIf(s, rt, cx); Numbered(code, cx, cx1)
    decreases s, 1
  {
    hide EmitScope, EmitCond;
    CondFlat(s.cond, cx);
    var (pre, cx2) := EmitCond(s.cond, cx);
    FlatNone(pre);
    var (a, cx3) := EmitScope(s.thn, rt, cx2);
    ScopeLabels(s.thn, rt, cx2, vis, n, inLoop);
    var (b, cx4) := if s.hasElse then EmitScope(s.els, rt, cx3) else ([], cx3);
    if s.hasElse { ScopeLabels(s.els, rt, cx3, vis, NextNames(s.thn, n), inLoop); }
    OnceJoin(Labels(a), Labels(b), cx2.loopc, cx3.loopc, cx4.loopc);
    OneLabels(CIf(T(cx.tempc), a, b));
    LabelsApp(pre, [CIf(T(cx.tempc), a, b)]);
  }

  /** A loop's own label comes after those of its body. */
  lemma {:induction false} LoopLabels(loop: CStmt, ls: Scope, lo: nat, hi: nat)
    requires Once(LabelsIn1(loop), lo + 1, hi) && ls.loopId == lo + 1
    ensures Once(Labels([loop] + LoopEnd(ls)), lo, hi)
  {
    LabelsApp([loop], LoopEnd(ls));
    OneLabels(loop);
    if ls.needsLabel {
      OneLabels(CLabel(ls.loopId));
      OnceJoin([lo + 1], LabelsIn1(loop), lo, lo + 1, hi);
    } else {
      assert LabelsIn1(loop) + [] == LabelsIn1(loop);
    }
  }

  lemma {:induction false} WhileLabels(s: Stmt, rt: RetType, cx: Cx, vis: View, n: nat, inLoop: bool)
    requires s.While? && cx.scopes != [] && Good(s, vis, n, inLoop, rt)
    ensures var (code, cx1) := EmitWhile(s, rt, cx); Numbered(code, cx, cx1)
    decreases s, 1
  {
    hide EmitScope, EmitCond;
    var cx0 := LoopBegin(cx);
    CondFlat(s.cond, cx0);
    CondShape(s.cond, cx0);
    var (pre, cx2) := EmitCond(s.cond, cx0);
    var (b, cx3) := EmitScope(s.body, rt, cx2);
    ScopeLabels(s.body, rt, cx2, vis, n, true);
    ScopeShape(s.body, rt, cx2, vis, n, true);
    var ls := cx3.scopes[0];
    var test := CIf(T(cx0.tempc), [], [CBreak]);
    RelFlat(ls.names);
    FlatNone(pre);
    FlatNone(RelCode(ls.names));
    FlatNone([CBreak]);
    OneLabels(test);
    LabelsApp(b, RelCode(ls.names));
    LabelsApp([test], b + RelCode(ls.names));
    LabelsApp(pre, [test] + (b + RelCode(ls.names)));
    assert [] + ([] + (Labels(b) + [])) == Labels(b);
    LoopLabels(CForever(pre + ([test] + (b + RelCode(ls.names)))), ls, cx.loopc, cx3.loopc);
  }

  lemma {:induction false} HeaderFlat(x: nat, iter: Iter, cx: Cx)
    requires cx.scopes != []
    ensures Flat1(EmitHeader(x, iter, cx).code)
  {
    forall names ensures Flat1(RelCode(names)) { RelFlat(names); }
  }

  lemma {:induction false} ForLabels(s: Stmt, rt: RetType, cx: Cx, vis: View, n: nat, inLoop: bool)
    requires s.For? && cx.scopes != [] && Good(s, vis, n, inLoop, rt)
    ensures var (code, cx1) := EmitFor(s, rt, cx); Numbered(code, cx, cx1)
    decreases s, 1
  {
    hide EmitHeader, EmitAll, LoadItem, RelCode;
    var h := EmitHeader(s.x, s.iter, cx);
    HeaderFlat(s.x, s.iter, cx);
    FlatNone(h.code);
    var cxr := RegIf(LoopBegin(h.cx), L(s.x), ItemIsRef(s.iter));
    AllLabels(s.body, rt, cxr, vis[s.x := LoopVarKind(s.iter)], s.x + 1, true);
    ForTop(s, rt, cx, vis, n, inLoop);
    var (b, cx2) := EmitAll(s.body, rt, cxr);
    var ls := cx2.scopes[0];
    var load, rel := LoadItem(s.x, s.iter, h.iv, h.ta), RelCode(ls.names);
    LoadFlat(s.x, s.iter, h.iv, h.ta);
    FlatNone(load);
    RelFlat(ls.names);
    FlatNone(rel);
    LabelsApp(b, rel);
    LabelsApp(load, b + rel);
    assert [] + (Labels(b) + []) == Labels(b);
    var loop := CFor(h.iv, h.init, h.bound, load + (b + rel));
    LoopLabels(loop, ls, cx.loopc, cx2.loopc);
    var fl := RelCode(Pop(cx2).temps[|cx.temps|..]);
    RelFlat(Pop(cx2).temps[|cx.temps|..]);
    FlatNone(fl);
    var mid := [loop] + LoopEnd(ls);
    LabelsApp(h.code, mid);
    LabelsApp(h.code + mid, fl);
    assert [] + Labels(mid) + [] == Labels(mid);
  }

  lemma {:induction false} LoadFlat(x: nat, iter: Iter, iv: Name, ta: Name)
    ensures Flat1(LoadItem(x, iter, iv, ta))
  {
  }

  lemma {:induction false} ForTop(s: Stmt, rt: RetType, cx: Cx, vis: View, n: nat, inLoop: bool)
    requires s.For? && cx.scopes != [] && Good(s, vis, n, inLoop, rt)
    ensures var h := EmitHeader(s.x, s.iter, cx);
            var cx2 := EmitAll(s.body, rt, RegIf(LoopBegin(h.cx), L(s.x), ItemIsRef(s.iter))).1;
            cx2.scopes[0].loopId == cx.loopc + 1
  {
    hide EmitHeader, EmitAll;
    var h := EmitHeader(s.x, s.iter, cx);
    ForBodyShape(s, rt, h.cx, vis, n);
  }

  lemma {:induction false} HeadFlat(subject: Expr, isStr: bool, cx: Cx)
    requires cx.scopes != []
    ensures Flat1(SwitchHead(subject, isStr, cx).0) && SwitchHead(subject, isStr, cx).1.loopc == cx.loopc
  {
    forall names ensures Flat1(RelCode(names)) { RelFlat(names); }
  }

  lemma {:induction false} SwitchLabels(s: Stmt, rt: RetType, cx: Cx, vis: View, n: nat, inLoop: bool)
    requires s.Switch? && cx.scopes != [] && Good(s, vis, n, inLoop, rt)
    ensures var (code, cx1) := EmitSwitch(s, rt, cx); Numbered(code, cx, cx1)
    decreases s, 1
  {
    hide EmitScope, EmitArms, SwitchHead, RelCode, Labels, LabelsIn1, LabelsCases, Flat1, Once;
    HeadFlat(s.subject, s.isStr, cx);
    var (pre, cx2) := SwitchHead(s.subject, s.isStr, cx);
    ArmsLabels(s.arms, s.isStr, rt, cx2, vis, n, inLoop);
    var (cases, cx3) := EmitArms(s.arms, s.isStr, rt, cx2);
    var d := FindDefault(s.arms);
    var sv := T(cx.tempc);
    if s.isStr && d < |s.arms| {
      var (els, cx4) := EmitScope(s.arms[d].body, rt, cx3);
      GoodArmAt(s.arms, d, vis, n, inLoop, rt);
      ScopeLabels(s.arms[d].body, rt, cx3, vis, ArmStart(s.arms, d, n), inLoop);
      RelFlat(cx4.scopes[0].names);
      BlockLabels(pre, CTextChain(sv, cases, els), RelCode(cx4.scopes[0].names));
      CasesLabels(sv, cases, els);
      OnceJoin(LabelsCases(cases), Labels(els), cx2.loopc, cx3.loopc, cx4.loopc);
    } else {
      RelFlat(cx3.scopes[0].names);
      BlockLabels(pre, if s.isStr then CTextChain(sv, cases, []) else CSwitch(sv, cases), RelCode(cx3.scopes[0].names));
      CasesLabels(sv, cases, []);
    }
  }

  lemma {:induction false} CasesLabels(sv: Name, cases: seq<CCase>, els: seq<CStmt>)
    ensures LabelsIn1(CTextChain(sv, cases, els)) == LabelsCases(cases) + Labels(els)
    ensures LabelsIn1(CTextChain(sv, cases, [])) == LabelsCases(cases) == LabelsIn1(CSwitch(sv, cases))
  {
    assert LabelsCases(cases) + [] == LabelsCases(cases);
  }

  lemma {:induction false} BlockLabels(pre: seq<CStmt>, body: CStmt, rel: seq<CStmt>)
    requires Flat1(pre) && Flat1(rel)
    ensures Labels([CBlock(pre + ([body] + rel))]) == LabelsIn1(body)
  {
    hide LabelsIn1, Flat1;
    OnlyMiddle(pre, [body], rel);
    assert pre + ([body] + rel) == pre + [body] + rel;
    OneLabels(body);
    OneLabels(CBlock(pre + ([body] + rel)));
    BlockIs(pre + ([body] + rel));
  }

  lemma {:induction false} BlockIs(cs: seq<CStmt>)
    ensures LabelsIn1(CBlock(cs)) == Labels(cs)
  {
  }

  /** Flat code around `mid` adds no label. */
  lemma {:induction false} OnlyMiddle(pre: seq<CStmt>, mid: seq<CStmt>, post: seq<CStmt>)
    requires Flat1(pre) && Flat1(post)
    ensures Labels(pre + mid + post) == Labels(mid)
  {
    hide Labels;
    FlatNone(pre);
    FlatNone(post);
    LabelsApp(pre, mid);
    LabelsApp(pre + mid, post);
  }
}
