/** What the precedence table means for the tree a text is read as. The classes are listed here as sets
    of operators, and the statements are about token lists and trees alone. */
module Precedence {
  import opened Grammar
  import ParseRoundTrip

  /** The binary operators, the tightest class first. */
  const CLASSES: seq<set<Op>> := [
    {Star, Slash, Percent, Shl, Shr, Amp},
    {Plus, Minus, Pipe, Caret},
    {Lt, Le, Gt, Ge},
    {EqEq, NotEq},
    {AndAnd},
    {OrOr}]

  ghost predicate IsBinary(f: Op) {
    exists i :: 0 <= i < |CLASSES| && f in CLASSES[i]
  }

  /** `f` is of the class of `g` or of a tighter one. */
  ghost predicate AsTight(f: Op, g: Op) {
    exists i, j :: 0 <= i <= j < |CLASSES| && f in CLASSES[i] && g in CLASSES[j]
  }

  const PREFIX: set<Op> := {Not, Minus, Tilde, Amp}

  /** A number or a name. */
  predicate IsAtom(t: Tok) {
    t.TNum? || (t.TName? && t.name.Id?)
  }

  function Atom(t: Tok): Expr
    requires IsAtom(t)
  {
    if t.TNum? then Num(t.n) else Var(t.name.n)
  }

  /** A `<` behind a name may open type arguments instead. */
  predicate Joins(t: Tok, f: Op) {
    f == Lt ==> t.TNum?
  }

  lemma {:induction false} ClassOf(f: Op, i: nat)
    requires i < |CLASSES|
    ensures f in CLASSES[i] <==> Prec(f) == 6 - i
  {
    match i
    case 0 =>
    case 1 =>
    case 2 =>
    case 3 =>
    case 4 =>
    case _ =>
  }

  lemma {:induction false} Classes(f: Op, g: Op)
    ensures IsBinary(f) <==> Prec(f) > 0
    ensures IsBinary(f) && IsBinary(g) ==> (AsTight(f, g) <==> Prec(f) >= Prec(g))
  {
    hide Prec, CLASSES;
    InClass(f);
    InClass(g);
  }

  lemma {:induction false} InClass(f: Op)
    ensures forall i :: 0 <= i < |CLASSES| ==> (f in CLASSES[i] <==> Prec(f) == 6 - i)
    ensures Prec(f) > 0 ==> f in CLASSES[6 - Prec(f)]
    ensures |CLASSES| == 6
  {
    hide Prec;
    forall i: nat | i < |CLASSES| ensures f in CLASSES[i] <==> Prec(f) == 6 - i { ClassOf(f, i); }
  }

  // ---------------------------------------------------------------- reading operands

  /** What may stand behind an operand: an operator that is no `<`, or `as`, or nothing. */
  predicate Behind(t: Tok, rest: Toks) {
    rest == [] || (rest[0].TOp? && Joins(t, rest[0].op)) || rest[0].TAs? || rest[0].TAssign?
  }

  lemma {:induction false} AtomRead(scan: Toks -> bool, t: Tok, rest: Toks)
    requires IsAtom(t) && Behind(t, rest)
    ensures Unary(scan, [t] + rest) == Ok(Atom(t), rest)
  {
    var toks := [t] + rest;
    assert toks[0] == t && toks[1..] == rest;
    assert Primary(scan, toks) == Ok(Atom(t), rest);
    assert PostfixFrom(scan, Atom(t), rest) == Ok(Atom(t), rest);
  }

  /** An operand alone, behind a prefix operator, with a cast, or both. */
  datatype Operand = Operand(prefix: seq<Op>, atom: Tok, casts: seq<int>)

  predicate GoodOperand(x: Operand) {
    IsAtom(x.atom) && forall u :: u in x.prefix ==> u in PREFIX
  }

  function OperandToks(x: Operand): Toks {
    PrefixToks(x.prefix) + [x.atom] + CastToks(x.casts)
  }

  function PrefixToks(us: seq<Op>): Toks {
    if us == [] then [] else [TOp(us[0])] + PrefixToks(us[1..])
  }

  function CastToks(tys: seq<int>): Toks {
    if tys == [] then [] else [TAs, TName(Id(tys[0]))] + CastToks(tys[1..])
  }

  /** Prefix operators apply to the atom, the last one first; casts to what they make of it. */
  function OperandTree(x: Operand): Expr
    requires IsAtom(x.atom)
  {
    Casted(Prefixed(x.prefix, Atom(x.atom)), x.casts)
  }

  function Prefixed(us: seq<Op>, e: Expr): Expr {
    if us == [] then e else Un(us[0], Prefixed(us[1..], e))
  }

  function Casted(e: Expr, tys: seq<int>): Expr
    decreases |tys|
  {
    if tys == [] then e else Casted(As(e, Ty(false, tys[0], false, [])), tys[1..])
  }

  /** An operator may follow the operand: no `<` behind a name. */
  predicate Follows(x: Operand, f: Op) {
    f == Lt ==> x.atom.TNum? && x.casts == []
  }

  lemma {:induction false} PrefixRead(scan: Toks -> bool, us: seq<Op>, t: Tok, rest: Toks)
    requires IsAtom(t) && Behind(t, rest) && forall u :: u in us ==> u in PREFIX
    ensures Unary(scan, PrefixToks(us) + ([t] + rest)) == Ok(Prefixed(us, Atom(t)), rest)
  {
    hide Postfix;
    if us == [] {
      AtomRead(scan, t, rest);
      assert PrefixToks(us) + ([t] + rest) == [t] + rest;
    } else {
      PrefixRead(scan, us[1..], t, rest);
      var toks := PrefixToks(us) + ([t] + rest);
      assert us[0] in us && toks[0] == TOp(us[0]) && toks[1..] == PrefixToks(us[1..]) + ([t] + rest);
    }
  }

  lemma {:induction false} CastsRead(e: Expr, tys: seq<int>, rest: Toks)
    requires rest == [] || (rest[0].TOp? && (tys == [] || rest[0].op != Lt)) || rest[0].TAssign?
    ensures CastsFrom(e, CastToks(tys) + rest) == Ok(Casted(e, tys), rest)
    decreases |tys|
  {
    hide TypeAt;
    var toks := CastToks(tys) + rest;
    if tys == [] {
      assert toks == rest;
    } else {
      var ty := Ty(false, tys[0], false, []);
      var after := CastToks(tys[1..]) + rest;
      assert toks == [TAs, TName(Id(tys[0]))] + after;
      assert toks[1..] == [TName(Id(tys[0]))] + after;
      assert tys[1..] != [] ==> after[0] == TAs;
      assert tys[1..] == [] ==> after == rest;
      TypeNamed(tys[0], after);
      CastsRead(As(e, ty), tys[1..], rest);
    }
  }

  lemma {:induction false} TypeNamed(n: int, after: Toks)
    requires after == [] || (after[0] != LBracket && after[0] != Question && after[0] != TOp(Lt))
    ensures TypeAt([TName(Id(n))] + after) == TyOk(Ty(false, n, false, []), after)
  {
    var toks := [TName(Id(n))] + after;
    assert toks[0] == TName(Id(n)) && toks[1..] == after;
  }

  lemma {:induction false} OperandRead(scan: Toks -> bool, x: Operand, rest: Toks)
    requires GoodOperand(x) && (rest == [] || (rest[0].TOp? && Follows(x, rest[0].op)) || rest[0].TAssign?)
    ensures Casts(scan, OperandToks(x) + rest) == Ok(OperandTree(x), rest)
  {
    hide Unary, CastsFrom;
    var after := CastToks(x.casts) + rest;
    assert x.casts == [] ==> after == rest;
    assert OperandToks(x) + rest == PrefixToks(x.prefix) + ([x.atom] + after);
    PrefixRead(scan, x.prefix, x.atom, after);
    CastsRead(Prefixed(x.prefix, Atom(x.atom)), x.casts, rest);
  }

  // ---------------------------------------------------------------- how operators group

  /** The loop at an operator: it stops before a looser one, or takes it with its right operand. */
  lemma {:induction false} LoopStep(scan: Toks -> bool, l: Expr, f: Op, after: Toks, min: nat)
    ensures var t := [TOp(f)] + after;
      && (Prec(f) < min || Prec(f) == 0 ==> BinaryFrom(scan, l, t, min) == Ok(l, t))
      && (Prec(f) >= min && Prec(f) > 0 && Binary(scan, after, Prec(f) + 1).Ok? ==>
            var r := Binary(scan, after, Prec(f) + 1);
            BinaryFrom(scan, l, t, min) == BinaryFrom(scan, Bin(f, l, r.e), r.rest, min))
  {
    hide Binary;
    assert ([TOp(f)] + after)[1..] == after;
  }

  /** The last operand of a text. */
  lemma {:induction false} LastRead(scan: Toks -> bool, x: Operand, min: nat)
    requires GoodOperand(x)
    ensures Binary(scan, OperandToks(x), min) == Ok(OperandTree(x), [])
  {
    hide Casts;
    OperandRead(scan, x, []);
    assert OperandToks(x) + [] == OperandToks(x);
  }

  /** One operator between two operands. */
  lemma {:induction false} OneOperator(scan: Toks -> bool, x: Operand, f: Op, y: Operand, min: nat)
    requires GoodOperand(x) && GoodOperand(y) && Follows(x, f) && 0 < min <= Prec(f)
    ensures Binary(scan, OperandToks(x) + ([TOp(f)] + OperandToks(y)), min)
         == Ok(Bin(f, OperandTree(x), OperandTree(y)), [])
  {
    hide Casts, BinaryFrom, Prec;
    OperandRead(scan, x, [TOp(f)] + OperandToks(y));
    LoopStep(scan, OperandTree(x), f, OperandToks(y), min);
    LastRead(scan, y, Prec(f) + 1);
    EndStop(scan, Bin(f, OperandTree(x), OperandTree(y)), min);
  }

  lemma {:induction false} EndStop(scan: Toks -> bool, e: Expr, min: nat)
    ensures BinaryFrom(scan, e, [], min) == Ok(e, [])
  {
  }

  lemma {:induction false} TopIs(scan: Toks -> bool, toks: Toks, e: Expr)
    requires Binary(scan, toks, 1) == Ok(e, [])
    ensures Top(scan, toks) == Ok(e, [])
  {
  }

  /** `x f y g z`: the tighter operator takes `y`, and the left one of two equally tight. */
  lemma {:induction false} Grouping(scan: Toks -> bool, x: Operand, f: Op, y: Operand, g: Op, z: Operand)
    requires GoodOperand(x) && GoodOperand(y) && GoodOperand(z)
    requires IsBinary(f) && IsBinary(g) && Follows(x, f) && Follows(y, g)
    ensures Top(scan, OperandToks(x) + [TOp(f)] + OperandToks(y) + [TOp(g)] + OperandToks(z)) ==
            Ok(if AsTight(f, g) then Bin(g, Bin(f, OperandTree(x), OperandTree(y)), OperandTree(z))
               else Bin(f, OperandTree(x), Bin(g, OperandTree(y), OperandTree(z))), [])
  {
    hide Binary, Casts, BinaryFrom, Prec, AsTight, IsBinary;
    Classes(f, g);
    Classes(g, f);
    var a, b, c := OperandTree(x), OperandTree(y), OperandTree(z);
    var tail := [TOp(g)] + OperandToks(z);
    var t := OperandToks(x) + ([TOp(f)] + (OperandToks(y) + tail));
    if AsTight(f, g) {
      SecondStops(scan, y, g, z, Prec(f) + 1);
      FirstOperator(scan, x, f, y, tail);
      LoopStep(scan, Bin(f, a, b), g, OperandToks(z), 1);
      LastRead(scan, z, Prec(g) + 1);
      EndStop(scan, Bin(g, Bin(f, a, b), c), 1);
    } else {
      OneOperator(scan, y, g, z, Prec(f) + 1);
      FirstOperator(scan, x, f, y, tail);
      EndStop(scan, Bin(f, a, Bin(g, b, c)), 1);
    }
    TopIs(scan, t, if AsTight(f, g) then Bin(g, Bin(f, a, b), c) else Bin(f, a, Bin(g, b, c)));
    assert t == OperandToks(x) + [TOp(f)] + OperandToks(y) + [TOp(g)] + OperandToks(z);
  }

  lemma {:induction false} FirstOperator(scan: Toks -> bool, x: Operand, f: Op, y: Operand, tail: Toks)
    requires GoodOperand(x) && Follows(x, f) && Prec(f) > 0
    requires Binary(scan, OperandToks(y) + tail, Prec(f) + 1).Ok?
    ensures var r := Binary(scan, OperandToks(y) + tail, Prec(f) + 1);
            Binary(scan, OperandToks(x) + ([TOp(f)] + (OperandToks(y) + tail)), 1) ==
            BinaryFrom(scan, Bin(f, OperandTree(x), r.e), r.rest, 1)
  {
    hide Casts, BinaryFrom, Prec;
    OperandRead(scan, x, [TOp(f)] + (OperandToks(y) + tail));
    LoopStep(scan, OperandTree(x), f, OperandToks(y) + tail, 1);
  }

  lemma {:induction false} SecondStops(scan: Toks -> bool, y: Operand, g: Op, z: Operand, min: nat)
    requires GoodOperand(y) && Follows(y, g) && Prec(g) < min
    ensures var tail := [TOp(g)] + OperandToks(z);
            Binary(scan, OperandToks(y) + tail, min) == Ok(OperandTree(y), tail)
  {
    hide Casts, BinaryFrom, Prec;
    OperandRead(scan, y, [TOp(g)] + OperandToks(z));
    LoopStep(scan, OperandTree(y), g, OperandToks(z), min);
  }

  /** Said of three names. */
  lemma {:induction false} NamesGroup(scan: Toks -> bool, x: int, f: Op, y: int, g: Op, z: int)
    requires IsBinary(f) && IsBinary(g) && f != Lt && g != Lt
    ensures Top(scan, [TName(Id(x)), TOp(f), TName(Id(y)), TOp(g), TName(Id(z))]) ==
            Ok(if AsTight(f, g) then Bin(g, Bin(f, Var(x), Var(y)), Var(z)) else Bin(f, Var(x), Bin(g, Var(y), Var(z))),
               [])
  {
    hide Top, AsTight, IsBinary;
    var a, b, c := Operand([], TName(Id(x)), []), Operand([], TName(Id(y)), []), Operand([], TName(Id(z)), []);
    Grouping(scan, a, f, b, g, c);
    assert OperandToks(a) + [TOp(f)] + OperandToks(b) + [TOp(g)] + OperandToks(c)
        == [TName(Id(x)), TOp(f), TName(Id(y)), TOp(g), TName(Id(z))];
  }

  /** Prefix operators and casts bind tighter than every binary operator, and prefix operators tighter
      than casts: whatever an operand carries of them stays with it. */
  lemma {:induction false} OperandsFirst(scan: Toks -> bool, x: Operand, f: Op, y: Operand)
    requires GoodOperand(x) && GoodOperand(y) && IsBinary(f) && Follows(x, f)
    ensures Top(scan, OperandToks(x) + [TOp(f)] + OperandToks(y)) == Ok(Bin(f, OperandTree(x), OperandTree(y)), [])
  {
    hide Binary, Prec, IsBinary;
    Classes(f, f);
    OneOperator(scan, x, f, y, 1);
    TopIs(scan, OperandToks(x) + ([TOp(f)] + OperandToks(y)), Bin(f, OperandTree(x), OperandTree(y)));
    assert OperandToks(x) + ([TOp(f)] + OperandToks(y)) == OperandToks(x) + [TOp(f)] + OperandToks(y);
  }

  /** An operator of no class joins nothing: reading stops in front of it. */
  lemma {:induction false} NotBinary(scan: Toks -> bool, x: Operand, f: Op, rest: Toks)
    requires GoodOperand(x) && !IsBinary(f)
    ensures Top(scan, OperandToks(x) + ([TOp(f)] + rest)) == Ok(OperandTree(x), [TOp(f)] + rest)
  {
    hide Casts, IsBinary, Prec;
    Classes(f, f);
    Classes(Lt, Lt);
    LtIsBinary();
    OperandRead(scan, x, [TOp(f)] + rest);
    LoopStep(scan, OperandTree(x), f, rest, 1);
  }

  lemma {:induction false} LtIsBinary()
    ensures IsBinary(Lt) && !IsBinary(Not) && !IsBinary(Tilde)
  {
    assert Lt in CLASSES[2];
  }

  /** Nothing but the four prefix operators can open an expression. */
  lemma {:induction false} OnlyPrefix(scan: Toks -> bool, f: Op, rest: Toks)
    requires f !in PREFIX
    ensures Top(scan, [TOp(f)] + rest) == Fail
  {
    var toks := [TOp(f)] + rest;
    assert toks[0] == TOp(f);
    assert Postfix(scan, toks) == Fail;
    assert Casts(scan, toks) == Fail;
  }

  /** Assignment is looser than every operator, and groups to the right. */
  lemma {:induction false} AssignLast(scan: Toks -> bool, x: Operand, f: Op, y: Operand, n: int, after: Toks)
    requires GoodOperand(x) && GoodOperand(y) && IsBinary(f) && Follows(x, f)
    ensures var r := Top(scan, after);
            Top(scan, OperandToks(x) + ([TOp(f)] + (OperandToks(y) + ([TAssign(n)] + after)))) ==
            if r.Ok? then Ok(Assign(n, Bin(f, OperandTree(x), OperandTree(y)), r.e), r.rest) else Fail
  {
    hide Casts, Prec, IsBinary;
    Classes(f, f);
    var rest := [TAssign(n)] + after;
    OperandRead(scan, y, rest);
    assert rest[1..] == after;
    AssignStops(scan, OperandTree(y), n, after, Prec(f) + 1);
    FirstOperator(scan, x, f, y, rest);
    AssignStops(scan, Bin(f, OperandTree(x), OperandTree(y)), n, after, 1);
  }

  lemma {:induction false} AssignStops(scan: Toks -> bool, e: Expr, n: int, after: Toks, min: nat)
    ensures BinaryFrom(scan, e, [TAssign(n)] + after, min) == Ok(e, [TAssign(n)] + after)
  {
  }

  /** Calls, indexing and member access bind tighter than the prefix operators. */
  lemma {:induction false} PostfixFirst(scan: Toks -> bool, u: Op, t: Tok, i: Tok, m: Name)
    requires u in PREFIX && IsAtom(t) && IsAtom(i)
    ensures Top(scan, [TOp(u), t, LParen, RParen]) == Ok(Un(u, Call(Atom(t), [])), [])
    ensures Top(scan, [TOp(u), t, LBracket, i, RBracket]) == Ok(Un(u, Index(Atom(t), Atom(i))), [])
    ensures Top(scan, [TOp(u), t, Dot, TName(m)]) == Ok(Un(u, Member(Atom(t), m)), [])
  {
    hide Top;
    var a, b, c := Call(Atom(t), []), Index(Atom(t), Atom(i)), Member(Atom(t), m);
    PrefixPrinted(scan, u, a);
    PrefixPrinted(scan, u, b);
    PrefixPrinted(scan, u, c);
    assert Bare(Atom(t)) == [t] && Bare(Atom(i)) == [i];
    assert [TOp(u)] + Bare(a) == [TOp(u), t, LParen, RParen];
    assert [TOp(u)] + Bare(b) == [TOp(u), t, LBracket, i, RBracket];
    assert [TOp(u)] + Bare(c) == [TOp(u), t, Dot, TName(m)];
  }

  lemma {:induction false} PrefixPrinted(scan: Toks -> bool, u: Op, e: Expr)
    requires u in PREFIX && Printable(e) && Level(e) == 9
    ensures Top(scan, [TOp(u)] + Bare(e)) == Ok(Un(u, e), [])
  {
    hide Top;
    assert Print(e, 8) == Bare(e);
    assert Print(Un(u, e), 0) == Bare(Un(u, e));
    ParseRoundTrip.ParseInvertsPrint(scan, Un(u, e));
  }

  /** A weak type takes no mark, whatever follows. */
  lemma {:induction false} WeakTakesNoMark(n: int, rest: Toks)
    ensures TypeAt([TWeak, TName(Id(n)), Question] + rest) == TyFail
  {
    var toks := [TWeak, TName(Id(n)), Question] + rest;
    assert toks[0] == TWeak && toks[1..] == [TName(Id(n)), Question] + rest;
    assert toks[1..][1..] == [Question] + rest;
    assert BaseType(toks[1..]) == TyOk(Ty(false, n, false, []), [Question] + rest);
  }
}
