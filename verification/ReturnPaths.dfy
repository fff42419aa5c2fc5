/** The checker's "returns on every path" analysis, against what statements do. */
module ReturnPaths {
  import opened Basics
  import opened VytoLang

  /** A break that would leave the enclosing loop: nested loops own theirs, a switch does not. */
  predicate HasBreak(ss: seq<Stmt>)
    decreases ss, 0
  {
    ss != [] && (BreakIn(ss[0]) || HasBreak(ss[1..]))
  }

  predicate BreakIn(s: Stmt)
    decreases s, 1
  {
    match s
    case Break => true
    case If(_, thn, hasElse, els) => HasBreak(thn) || (hasElse && HasBreak(els))
    case Block(body) => HasBreak(body)
    case Switch(_, _, arms, _) => BreakInArms(arms)
    case _ => false
  }

  predicate BreakInArms(arms: seq<Arm>)
    decreases arms, 0
  {
    arms != [] && (HasBreak(arms[0].body) || BreakInArms(arms[1..]))
  }

  /** The checker proved that an enum switch without a default lists every variant. */
  predicate SwitchTotal(arms: seq<Arm>, variants: Option<seq<int>>) {
    && variants.Some?
    && FindDefault(arms) == |arms|
    && forall i :: 0 <= i < |variants.value| ==> FindArm(arms, variants.value[i]) < |arms|
  }

  predicate StmtReturns(s: Stmt)
    decreases s, 1
  {
    match s
    case Return(_) => true
    case Panic(_) => true
    case If(_, thn, hasElse, els) => hasElse && StmtsReturn(thn) && StmtsReturn(els)
    case Block(body) => StmtsReturn(body)
    case While(cond, body) => cond == Bool(true) && !HasBreak(body)
    case Switch(_, isStr, arms, variants) =>
      ArmsReturn(arms) && (FindDefault(arms) < |arms| || (!isStr && SwitchTotal(arms, variants)))
    case _ => false
  }

  /** One returning statement is enough: the rest is unreachable. */
  predicate StmtsReturn(ss: seq<Stmt>)
    decreases ss, 0
  {
    ss != [] && (StmtReturns(ss[0]) || StmtsReturn(ss[1..]))
  }

  predicate ArmsReturn(arms: seq<Arm>)
    decreases arms, 0
  {
    arms == [] || (StmtsReturn(arms[0].body) && ArmsReturn(arms[1..]))
  }

  // ------------------------------------------------------------ control flow

  /** The statements of a body, inside its ifs, blocks and switches, but not inside its loops. */
  ghost function Parts(ss: seq<Stmt>): set<Stmt>
    decreases ss, 0
  {
    if ss == [] then {} else PartsOf(ss[0]) + Parts(ss[1..])
  }

  ghost function PartsOf(s: Stmt): set<Stmt>
    decreases s, 1
  {
    match s
    case If(_, thn, hasElse, els) => {s} + Parts(thn) + if hasElse then Parts(els) else {}
    case Block(body) => {s} + Parts(body)
    case Switch(_, _, arms, _) => {s} + PartsOfArms(arms)
    case _ => {s}
  }

  ghost function PartsOfArms(arms: seq<Arm>): set<Stmt>
    decreases arms, 0
  {
    if arms == [] then {} else Parts(arms[0].body) + PartsOfArms(arms[1..])
  }

  /** One decision: a condition, an arm, or a subject that no arm takes. */
  datatype Choice = Yes | No | To(arm: nat) | Miss(key: int)

  /** How a walk through the statements leaves them; `Stuck` is a walk whose choices do not fit. */
  datatype Way = Fell | Broke | Continued | Left | Stuck

  /** Control flow with every decision taken from `ch`, the test of `while (true)` excepted; the
      choices not used are handed on. */
  function Walk(s: Stmt, ch: seq<Choice>): (r: (Way, seq<Choice>))
    ensures |r.1| <= |ch|
    decreases |ch|, s, 1
  {
    match s
    case Return(_) => (Left, ch)
    case Panic(_) => (Left, ch)
    case Break => (Broke, ch)
    case Continue => (Continued, ch)
    case Block(body) => WalkAll(body, ch)
    case While(cond, body) => WalkLoop(cond == Bool(true), body, ch)
    case For(_, _, body) => WalkLoop(false, body, ch)
    case If(_, thn, hasElse, els) =>
      if ch == [] then (Stuck, ch)
      else if ch[0] == Yes then WalkAll(thn, ch[1..])
      else if hasElse then WalkAll(els, ch[1..])
      else (Fell, ch[1..])
    case Switch(_, isStr, arms, variants) =>
      if ch != [] && ch[0].To? && ch[0].arm < |arms| then WalkAll(arms[ch[0].arm].body, ch[1..])
      else if ch != [] && ch[0].Miss? && PickArm(arms, ch[0].key) == |arms| && Possible(isStr, variants, ch[0].key)
        then (Fell, ch[1..])
      else (Stuck, ch)
    case _ => (Fell, ch)
  }

  /** The subject of an enum switch is one of the variants. */
  predicate Possible(isStr: bool, variants: Option<seq<int>>, key: int) {
    variants.Some? && !isStr ==> key in variants.value
  }

  function WalkAll(ss: seq<Stmt>, ch: seq<Choice>): (r: (Way, seq<Choice>))
    ensures |r.1| <= |ch|
    decreases |ch|, ss, 0
  {
    if ss == [] then (Fell, ch) else
    var (way, ch1) := Walk(ss[0], ch);
    if way == Fell then WalkAll(ss[1..], ch1) else (way, ch1)
  }

  function WalkLoop(forever: bool, body: seq<Stmt>, ch: seq<Choice>): (r: (Way, seq<Choice>))
    ensures |r.1| <= |ch|
    decreases |ch|, body, 1
  {
    if ch == [] then (Stuck, ch)
    else if ch[0] != Yes && !forever then (Fell, ch[1..])
    else
      var (way, ch1) := WalkAll(body, ch[1..]);
      if way == Fell || way == Continued then WalkLoop(forever, body, ch1)
      else if way == Broke then (Fell, ch1)
      else (way, ch1)
  }

  lemma {:induction false} BreakIsPart(ss: seq<Stmt>)
    ensures HasBreak(ss) <==> Break in Parts(ss)
    decreases ss, 0
  {
    if ss != [] {
      BreakIsPart(ss[1..]);
      match ss[0]
      case If(_, thn, hasElse, els) =>
        BreakIsPart(thn);
        if hasElse { BreakIsPart(els); }
      case Block(body) => BreakIsPart(body);
      case Switch(_, _, arms, _) => BreakIsArmPart(arms);
      case _ =>
    }
  }

  lemma {:induction false} BreakIsArmPart(arms: seq<Arm>)
    ensures BreakInArms(arms) <==> Break in PartsOfArms(arms)
    decreases arms, 0
  {
    if arms != [] {
      BreakIsPart(arms[0].body);
      BreakIsArmPart(arms[1..]);
    }
  }

  lemma {:induction false} ArmParts(arms: seq<Arm>, k: nat)
    requires k < |arms|
    ensures Parts(arms[k].body) <= PartsOfArms(arms)
    decreases k
  {
    if k > 0 { ArmParts(arms[1..], k - 1); }
  }

  lemma {:induction false} ArmReturns(arms: seq<Arm>)
    ensures ArmsReturn(arms) <==> forall k :: 0 <= k < |arms| ==> StmtsReturn(arms[k].body)
    decreases arms
  {
    if arms != [] {
      ArmReturns(arms[1..]);
      assert forall k :: 0 < k < |arms| ==> arms[k] == arms[1..][k - 1];
    }
  }

  // ------------------------------------------------------------ accepted bodies

  /** Without a break of its own, a body is not left by one. */
  lemma {:induction false} NoBreakOut(ss: seq<Stmt>, ch: seq<Choice>)
    requires Break !in Parts(ss)
    ensures WalkAll(ss, ch).0 != Broke
    decreases |ch|, ss, 0
  {
    if ss != [] {
      NoBreakStmt(ss[0], ch);
      var (way, ch1) := Walk(ss[0], ch);
      if way == Fell { NoBreakOut(ss[1..], ch1); }
    }
  }

  lemma {:induction false} NoBreakStmt(s: Stmt, ch: seq<Choice>)
    requires Break !in PartsOf(s)
    ensures Walk(s, ch).0 != Broke
    decreases |ch|, s, 1
  {
    match s
    case Block(body) => NoBreakOut(body, ch);
    case While(cond, body) => LoopNoBreak(cond == Bool(true), body, ch);
    case For(_, _, body) => LoopNoBreak(false, body, ch);
    case If(_, thn, hasElse, els) =>
      if ch != [] {
        NoBreakOut(thn, ch[1..]);
        if hasElse { NoBreakOut(els, ch[1..]); }
      }
    case Switch(_, _, arms, _) =>
      if ch != [] && ch[0].To? && ch[0].arm < |arms| {
        ArmParts(arms, ch[0].arm);
        NoBreakOut(arms[ch[0].arm].body, ch[1..]);
      }
    case _ =>
  }

  lemma {:induction false} LoopNoBreak(forever: bool, body: seq<Stmt>, ch: seq<Choice>)
    ensures WalkLoop(forever, body, ch).0 != Broke
    decreases |ch|
  {
    if ch != [] && (ch[0] == Yes || forever) {
      var (way, ch1) := WalkAll(body, ch[1..]);
      if way == Fell || way == Continued { LoopNoBreak(forever, body, ch1); }
    }
  }

  lemma {:induction false} ForeverLoop(body: seq<Stmt>, ch: seq<Choice>)
    requires Break !in Parts(body)
    ensures WalkLoop(true, body, ch).0 != Fell
    decreases |ch|
  {
    if ch != [] {
      var (way, ch1) := WalkAll(body, ch[1..]);
      NoBreakOut(body, ch[1..]);
      if way == Fell || way == Continued { ForeverLoop(body, ch1); }
    }
  }

  /** No choice leads through an accepted body to its end. */
  lemma {:induction false} NoWayThrough(ss: seq<Stmt>, ch: seq<Choice>)
    requires StmtsReturn(ss)
    ensures WalkAll(ss, ch).0 != Fell
    decreases |ch|, ss, 0
  {
    if StmtReturns(ss[0]) {
      NoWayPast(ss[0], ch);
    } else {
      var (way, ch1) := Walk(ss[0], ch);
      if way == Fell { NoWayThrough(ss[1..], ch1); }
    }
  }

  lemma {:induction false} NoWayPast(s: Stmt, ch: seq<Choice>)
    requires StmtReturns(s)
    ensures Walk(s, ch).0 != Fell
    decreases |ch|, s, 1
  {
    match s
    case Block(body) => NoWayThrough(body, ch);
    case While(_, body) =>
      BreakIsPart(body);
      ForeverLoop(body, ch);
    case If(_, thn, _, els) =>
      if ch != [] {
        NoWayThrough(thn, ch[1..]);
        NoWayThrough(els, ch[1..]);
      }
    case Switch(_, isStr, arms, variants) =>
      ArmReturns(arms);
      if ch != [] && ch[0].To? && ch[0].arm < |arms| {
        NoWayThrough(arms[ch[0].arm].body, ch[1..]);
      } else if ch != [] && ch[0].Miss? && SwitchTotal(arms, variants) && ch[0].key in variants.value {
        Covered(arms, variants, ch[0].key);
      }
    case _ =>
  }

  lemma {:induction false} Covered(arms: seq<Arm>, variants: Option<seq<int>>, v: Val)
    requires SwitchTotal(arms, variants) && v in variants.value
    ensures FindArm(arms, v) < |arms|
  {
    var i :| 0 <= i < |variants.value| && variants.value[i] == v;
  }

  // ------------------------------------------------------------ rejected bodies

  /** Every `while (true)` of the body is without a break, and no break or continue is astray. */
  ghost predicate Plain(ss: seq<Stmt>) {
    Sound(Parts(ss))
  }

  ghost predicate Sound(parts: set<Stmt>) {
    && Break !in parts && Continue !in parts
    && forall s :: s in parts && s.While? && s.cond == Bool(true) ==> Break !in Parts(s.body)
  }

  /** A value none of the arms lists. */
  lemma {:induction false} FreshKey(arms: seq<Arm>) returns (key: int)
    ensures FindArm(arms, key) == |arms|
  {
    key := 0;
    for i := 0 to |arms|
      invariant forall j, v :: 0 <= j < i && v in arms[j].values ==> v < key
    {
      for k := 0 to |arms[i].values|
        invariant forall j, v :: 0 <= j < i && v in arms[j].values ==> v < key
        invariant forall m :: 0 <= m < k ==> arms[i].values[m] < key
      {
        if arms[i].values[k] >= key { key := arms[i].values[k] + 1; }
      }
    }
  }

  /** Some choice leads to the end of a rejected body. */
  lemma {:induction false} WayThrough(ss: seq<Stmt>, more: seq<Choice>) returns (ch: seq<Choice>)
    requires !StmtsReturn(ss) && Plain(ss)
    ensures WalkAll(ss, ch) == (Fell, more)
    decreases ss, 0
  {
    ch := more;
    if ss != [] {
      ch := WayThrough(ss[1..], more);
      ch := WayPast(ss[0], ch);
    }
  }

  lemma {:induction false} WayPast(s: Stmt, more: seq<Choice>) returns (ch: seq<Choice>)
    requires !StmtReturns(s) && Sound(PartsOf(s))
    ensures Walk(s, ch) == (Fell, more)
    decreases s, 1
  {
    ch := more;
    match s
    case Block(body) => ch := WayThrough(body, more);
    case While(cond, body) =>
      assert s in PartsOf(s);
      BreakIsPart(body);
      ch := [No] + more;
    case For(_, _, _) => ch := [No] + more;
    case If(_, thn, hasElse, els) =>
      if !StmtsReturn(thn) {
        ch := WayThrough(thn, more);
        ch := [Yes] + ch;
      } else {
        if hasElse { ch := WayThrough(els, more); }
        ch := [No] + ch;
      }
    case Switch(_, isStr, arms, variants) =>
      ArmReturns(arms);
      if !ArmsReturn(arms) {
        var k :| 0 <= k < |arms| && !StmtsReturn(arms[k].body);
        ArmParts(arms, k);
        ch := WayThrough(arms[k].body, more);
        ch := [To(k)] + ch;
      } else {
        var key;
        if variants.Some? && !isStr {
          var i :| 0 <= i < |variants.value| && FindArm(arms, variants.value[i]) == |arms|;
          key := variants.value[i];
        } else {
          key := FreshKey(arms);
        }
        ch := [Miss(key)] + more;
      }
    case _ =>
  }

  /** The analysis is exact: a body is accepted if and only if no choice leads to its end. */
  lemma {:induction false} AcceptedIffNoWayThrough(ss: seq<Stmt>)
    requires Plain(ss)
    ensures StmtsReturn(ss) <==> forall ch :: WalkAll(ss, ch).0 != Fell
  {
    if StmtsReturn(ss) {
      forall ch ensures WalkAll(ss, ch).0 != Fell { NoWayThrough(ss, ch); }
    } else {
      var ch := WayThrough(ss, []);
    }
  }

  /** Where a `while (true)` has a break it is not: `while (true) { return; break; }` is rejected,
      and nothing leads to its end. */
  lemma {:induction false} DeadBreakRejected(ch: seq<Choice>)
    ensures var ss := [While(Bool(true), [Return(None), Break])];
            !StmtsReturn(ss) && WalkAll(ss, ch).0 != Fell
  {
    var body := [Return(None), Break];
    assert body[1..] == [Break] && BreakIn(body[1..][0]);
    assert HasBreak(body);
    var ss := [While(Bool(true), body)];
    assert ss[1..] == [] && Walk(ss[0], ch) == WalkLoop(true, body, ch);
    if ch != [] { assert WalkAll(body, ch[1..]) == Walk(body[0], ch[1..]); }
  }

  // ------------------------------------------------------------ runs are walks

  function WayOf(out: Out): Way {
    match out
    case Norm(_, _) => Fell
    case Brk(_, _) => Broke
    case Cont(_, _) => Continued
    case Ret(_, _) => Left
    case Panicked(_) => Left
    case _ => Stuck
  }

  /** Whatever a run does, some choice does. */
  lemma {:induction false} RunIsWalk(w: World, fuel: nat, ss: seq<Stmt>, env: Env, tr: Trace, more: seq<Choice>)
      returns (ch: seq<Choice>)
    requires w.strict
    ensures var out := ExecAll(w, fuel, ss, env, tr);
            out.Timeout? || out.Stray? || WalkAll(ss, ch) == (WayOf(out), more)
    decreases fuel, ss, 0
  {
    ch := more;
    if ss != [] {
      var out := Exec(w, fuel, ss[0], env, tr);
      if out.Norm? { ch := RunIsWalk(w, fuel, ss[1..], out.env, out.tr, more); }
      ch := StmtIsWalk(w, fuel, ss[0], env, tr, ch);
    }
  }

  lemma {:induction false} StmtIsWalk(w: World, fuel: nat, s: Stmt, env: Env, tr: Trace, more: seq<Choice>)
      returns (ch: seq<Choice>)
    requires w.strict
    ensures var out := Exec(w, fuel, s, env, tr);
            out.Timeout? || out.Stray? || Walk(s, ch) == (WayOf(out), more)
    decreases fuel, s, 1
  {
    hide EvalE;
    ch := more;
    match s
    case Block(body) => ch := RunIsWalk(w, fuel, body, env, tr, more);
    case While(cond, body) => ch := LoopIsWalk(w, fuel, cond, body, env, tr, more);
    case For(x, iter, body) =>
      var (k, i, tr1) := LoopStart(w, iter, env, tr);
      ch := ForIsWalk(w, fuel, k, x, i, body, env, tr1, more);
    case If(cond, thn, hasElse, els) =>
      var (v, tr1) := EvalE(w, cond, env, tr);
      if v != 0 {
        ch := RunIsWalk(w, fuel, thn, env, tr1, more);
        ch := [Yes] + ch;
      } else {
        if hasElse { ch := RunIsWalk(w, fuel, els, env, tr1, more); }
        ch := [No] + ch;
      }
    case Switch(subject, isStr, arms, variants) =>
      var (v, tr1) := EvalE(w, subject, env, tr);
      var key := SwitchKey(w, isStr, v);
      var k := PickArm(arms, key);
      if k < |arms| {
        ch := RunIsWalk(w, fuel, arms[k].body, env, tr1, more);
        ch := [To(k)] + ch;
      } else {
        ch := [Miss(key)] + more;
      }
    case _ =>
  }

  lemma {:induction false} LoopIsWalk(w: World, fuel: nat, cond: Expr, body: seq<Stmt>, env: Env, tr: Trace,
          more: seq<Choice>) returns (ch: seq<Choice>)
    requires w.strict
    ensures var out := ExecWhile(w, fuel, cond, body, env, tr);
            out.Timeout? || out.Stray? || WalkLoop(cond == Bool(true), body, ch) == (WayOf(out), more)
    decreases fuel, body, 1
  {
    ch := [No] + more;
    if fuel > 0 {
      var (v, tr1) := EvalE(w, cond, env, tr);
      if v != 0 {
        var out := ExecAll(w, fuel - 1, body, env, tr1);
        if out.Norm? || out.Cont? {
          ch := LoopIsWalk(w, fuel - 1, cond, body, out.env, out.tr, more);
        } else {
          ch := more;
        }
        ch := RunIsWalk(w, fuel - 1, body, env, tr1, ch);
        ch := [Yes] + ch;
      }
    }
  }

  lemma {:induction false} ForIsWalk(w: World, fuel: nat, k: LoopSrc, x: nat, i: int, body: seq<Stmt>, env: Env,
          tr: Trace, more: seq<Choice>) returns (ch: seq<Choice>)
    requires w.strict
    ensures var out := ExecFor(w, fuel, k, x, i, body, env, tr);
            out.Timeout? || out.Stray? || WalkLoop(false, body, ch) == (WayOf(out), more)
    decreases fuel, body, 1
  {
    ch := [No] + more;
    if fuel > 0 {
      var (b, tr1) := Bound(w, k, tr);
      if i < b {
        var (v, tr2) := Item(w, k, i, tr1);
        var out := ExecAll(w, fuel - 1, body, env[x := v], tr2);
        if out.Norm? || out.Cont? {
          ch := ForIsWalk(w, fuel - 1, k, x, NextIndex(k, x, i, out.env), body, out.env, out.tr, more);
        } else {
          ch := more;
        }
        ch := RunIsWalk(w, fuel - 1, body, env[x := v], tr2, ch);
        ch := [Yes] + ch;
      }
    }
  }

  /** An accepted body never runs off its end: it returns, panics, goes on forever, or
      switches on a value that is no variant of its enum. */
  lemma {:induction false} AcceptedNeverFallsThrough(w: World, fuel: nat, ss: seq<Stmt>, env: Env, tr: Trace)
    requires w.strict && StmtsReturn(ss)
    ensures !ExecAll(w, fuel, ss, env, tr).Norm?
  {
    var ch := RunIsWalk(w, fuel, ss, env, tr, []);
    NoWayThrough(ss, ch);
  }

  // ------------------------------------------------------------ the unchecked run

  function Lax(w: World): World {
    w.(strict := false)
  }

  lemma {:induction false} EvalLax(w: World, e: Expr, env: Env, tr: Trace)
    ensures EvalE(Lax(w), e, env, tr) == EvalE(w, e, env, tr)
    decreases e
  {
    match e
    case Call(_, args, _) => ArgsLax(w, args, env, tr);
    case Field(obj, _, _) => EvalLax(w, obj, env, tr);
    case And(l, r) =>
      EvalLax(w, l, env, tr);
      EvalLax(w, r, env, EvalE(w, l, env, tr).1);
    case Or(l, r) =>
      EvalLax(w, l, env, tr);
      EvalLax(w, r, env, EvalE(w, l, env, tr).1);
    case Arith(_, l, r) =>
      EvalLax(w, l, env, tr);
      EvalLax(w, r, env, EvalE(w, l, env, tr).1);
    case _ =>
  }

  lemma {:induction false} ArgsLax(w: World, es: seq<Expr>, env: Env, tr: Trace)
    ensures EvalArgs(Lax(w), es, env, tr) == EvalArgs(w, es, env, tr)
    decreases es
  {
    if es != [] {
      EvalLax(w, es[0], env, tr);
      ArgsLax(w, es[1..], env, EvalE(w, es[0], env, tr).1);
    }
  }

  /** A run that meets no stray enum value is the same without the check. */
  lemma {:induction false} ExecLax(w: World, fuel: nat, ss: seq<Stmt>, env: Env, tr: Trace)
    requires !ExecAll(w, fuel, ss, env, tr).Stray?
    ensures ExecAll(Lax(w), fuel, ss, env, tr) == ExecAll(w, fuel, ss, env, tr)
    decreases fuel, ss, 0
  {
    if ss != [] {
      StmtLax(w, fuel, ss[0], env, tr);
      var out := Exec(w, fuel, ss[0], env, tr);
      if out.Norm? { ExecLax(w, fuel, ss[1..], out.env, out.tr); }
    }
  }

  lemma {:induction false} StmtLax(w: World, fuel: nat, s: Stmt, env: Env, tr: Trace)
    requires !Exec(w, fuel, s, env, tr).Stray?
    ensures Exec(Lax(w), fuel, s, env, tr) == Exec(w, fuel, s, env, tr)
    decreases fuel, s, 2
  {
    if s.If? || s.While? || s.For? || s.Switch? || s.Block? {
      CompoundLax(w, fuel, s, env, tr);
    } else {
      SimpleLax(w, fuel, s, env, tr);
    }
  }

  lemma {:induction false} SimpleLax(w: World, fuel: nat, s: Stmt, env: Env, tr: Trace)
    requires !s.If? && !s.While? && !s.For? && !s.Switch? && !s.Block?
    ensures Exec(Lax(w), fuel, s, env, tr) == Exec(w, fuel, s, env, tr)
  {
    hide EvalE;
    forall e, tr1 ensures EvalE(Lax(w), e, env, tr1) == EvalE(w, e, env, tr1) { EvalLax(w, e, env, tr1); }
  }

  lemma {:induction false} CompoundLax(w: World, fuel: nat, s: Stmt, env: Env, tr: Trace)
    requires s.If? || s.While? || s.For? || s.Switch? || s.Block?
    requires !Exec(w, fuel, s, env, tr).Stray?
    ensures Exec(Lax(w), fuel, s, env, tr) == Exec(w, fuel, s, env, tr)
    decreases fuel, s, 1
  {
    hide EvalE;
    forall e, tr1 ensures EvalE(Lax(w), e, env, tr1) == EvalE(w, e, env, tr1) { EvalLax(w, e, env, tr1); }
    match s
    case If(cond, thn, hasElse, els) =>
      var (v, tr1) := EvalE(w, cond, env, tr);
      if v != 0 { ExecLax(w, fuel, thn, env, tr1); } else if hasElse { ExecLax(w, fuel, els, env, tr1); }
    case Block(body) => ExecLax(w, fuel, body, env, tr);
    case While(cond, body) => WhileLax(w, fuel, cond, body, env, tr);
    case For(x, iter, body) =>
      var (k, i, tr1) := LoopStart(w, iter, env, tr);
      ForLax(w, fuel, k, x, i, body, env, tr1);
    case Switch(subject, isStr, arms, variants) =>
      var (v, tr1) := EvalE(w, subject, env, tr);
      var k := PickArm(arms, SwitchKey(w, isStr, v));
      if k < |arms| { ExecLax(w, fuel, arms[k].body, env, tr1); }
  }

  lemma {:induction false} WhileLax(w: World, fuel: nat, cond: Expr, body: seq<Stmt>, env: Env, tr: Trace)
    requires !ExecWhile(w, fuel, cond, body, env, tr).Stray?
    ensures ExecWhile(Lax(w), fuel, cond, body, env, tr) == ExecWhile(w, fuel, cond, body, env, tr)
    decreases fuel, body, 1
  {
    if fuel > 0 {
      EvalLax(w, cond, env, tr);
      var (v, tr1) := EvalE(w, cond, env, tr);
      if v != 0 {
        ExecLax(w, fuel - 1, body, env, tr1);
        var out := ExecAll(w, fuel - 1, body, env, tr1);
        if out.Norm? || out.Cont? { WhileLax(w, fuel - 1, cond, body, out.env, out.tr); }
      }
    }
  }

  lemma {:induction false} ForLax(w: World, fuel: nat, k: LoopSrc, x: nat, i: int, body: seq<Stmt>, env: Env, tr: Trace)
    requires !ExecFor(w, fuel, k, x, i, body, env, tr).Stray?
    ensures ExecFor(Lax(w), fuel, k, x, i, body, env, tr) == ExecFor(w, fuel, k, x, i, body, env, tr)
    decreases fuel, body, 1
  {
    if fuel > 0 {
      var (b, tr1) := Bound(w, k, tr);
      if i < b {
        var (v, tr2) := Item(w, k, i, tr1);
        ExecLax(w, fuel - 1, body, env[x := v], tr2);
        var out := ExecAll(w, fuel - 1, body, env[x := v], tr2);
        if out.Norm? || out.Cont? {
          ForLax(w, fuel - 1, k, x, NextIndex(k, x, i, out.env), body, out.env, out.tr);
        }
      }
    }
  }
}
