/** Parsing inverts printing: an expression printed with only the parentheses its precedences
    require is read back as the same tree, and nothing beyond it is consumed. */
module ParseRoundTrip {
  import opened Grammar

  /** What follows cannot extend a postfix chain, a type, or turn a parenthesis into an arrow. */
  predicate Stops(rest: Toks) {
    rest == [] || (rest[0] !in {LParen, LBracket, Dot, Question} && Plain(rest))
  }

  predicate Plain(rest: Toks) {
    rest == [] || (rest[0] != Arrow && rest[0] != TOp(Lt))
  }

  predicate NoAs(rest: Toks) {
    rest == [] || rest[0] != TAs
  }

  /** An operator after `e` does not bind tighter than the one `e` ends on. */
  predicate Loose(e: Expr, rest: Toks) {
    e.Bin? ==> PrecAt(rest) <= Prec(e.op)
  }

  /** What may follow a whole expression. */
  predicate Ends(rest: Toks) {
    Stops(rest) && NoAs(rest) && PrecAt(rest) == 0 && (rest == [] || !rest[0].TAssign?)
  }

  // ---------------------------------------------------------------- printed tokens

  predicate Tame(t: Tok) { t != Arrow && t != Colon && t != TOp(Lt) }

  lemma {:induction false} BareTame(e: Expr)
    requires Printable(e)
    ensures Bare(e) != [] && forall t :: t in Bare(e) ==> Tame(t)
    decreases e, 0
  {
    match e
    case Call(f, args) => PrintTame(f, 9); ArgsTame(args);
    case Index(a, i) => PrintTame(a, 9); PrintTame(i, 0);
    case Member(a, _) => PrintTame(a, 9);
    case Un(_, a) => PrintTame(a, 8);
    case As(a, ty) => PrintTame(a, 7); BracketsTame(ty.dims);
    case Bin(op, l, r) => PrintTame(l, Prec(op)); PrintTame(r, Prec(op) + 1);
    case Assign(_, l, r) => PrintTame(l, 1); PrintTame(r, 0);
    case _ =>
  }

  lemma {:induction false} PrintTame(e: Expr, q: nat)
    requires Printable(e)
    ensures Print(e, q) != [] && forall t :: t in Print(e, q) ==> Tame(t)
    decreases e, 1
  {
    BareTame(e);
  }

  lemma {:induction false} ArgsTame(args: seq<Expr>)
    requires PrintableAll(args)
    ensures forall t :: t in PrintArgs(args) ==> Tame(t)
    decreases args, 0
  {
    if args != [] {
      PrintTame(args[0], 0);
      ArgsTame(args[1..]);
    }
  }

  lemma {:induction false} BracketsTame(d: seq<bool>)
    ensures forall t :: t in Brackets(d) ==> t == LBracket || t == RBracket || t == Question
  {
    if d != [] { BracketsTame(d[1..]); }
  }

  /** An operand that binds like a postfix expression starts with a number, a name or a parenthesis. */
  lemma {:induction false} FirstToken(e: Expr)
    requires Level(e) >= 9
    ensures Bare(e) != [] && (Bare(e)[0].TNum? || Bare(e)[0].TName? || Bare(e)[0] == LParen)
  {
    match e
    case Call(f, _) => if Level(f) >= 9 { FirstToken(f); }
    case Index(a, _) => if Level(a) >= 9 { FirstToken(a); }
    case Member(a, _) => if Level(a) >= 9 { FirstToken(a); }
    case _ =>
  }

  lemma {:induction false} ArrowPlace(t: Toks) returns (j: nat)
    requires NamesThenArrow(t)
    ensures 0 < j < |t| && t[j] == Arrow && t[j - 1] == RParen && forall i :: 0 <= i < j - 1 ==> t[i] != RParen
    decreases |t|
  {
    if t[1] == Comma {
      j := ArrowPlace(t[2..]);
      j := j + 2;
      assert forall i :: 2 <= i < |t| ==> t[i] == t[2..][i - 2];
    } else {
      j := 2;
    }
  }

  /** A parenthesized expression is not taken for an arrow function's parameters. */
  lemma {:induction false} NoArrowAhead(e: Expr, rest: Toks)
    requires Printable(e) && (rest == [] || rest[0] != Arrow)
    ensures !ArrowAhead(Bare(e) + ([RParen] + rest))
  {
    hide Bare;
    var t, n := Bare(e) + ([RParen] + rest), |Bare(e)|;
    BareTame(e);
    assert forall i :: 0 <= i < n ==> t[i] == Bare(e)[i] && t[i] in Bare(e);
    assert t[n] == RParen;
    assert |t| > n + 1 ==> t[n + 1] == rest[0];
    if NamesThenArrow(t) {
      var j := ArrowPlace(t);
    }
  }

  lemma {:induction false} BracketsOpen(d: seq<bool>, rest: Toks)
    requires rest == [] || (rest[0] != LBracket && rest[0] != Question)
    ensures !At(Brackets(d) + rest, Question) && (d == [] ==> Brackets(d) + rest == rest)
  {
  }

  lemma {:induction false} DimsOne(q: bool, after: Toks)
    requires !At(after, Question)
    ensures Dims([LBracket, RBracket] + Mark(q) + after) == ([q] + Dims(after).0, Dims(after).1)
  {
    var t := [LBracket, RBracket] + Mark(q) + after;
    if q { assert t[3..] == after && t[2..][0] == Question; } else { assert t[2..] == after; }
  }

  lemma {:induction false} DimsBrackets(d: seq<bool>, rest: Toks)
    requires rest == [] || (rest[0] != LBracket && rest[0] != Question)
    ensures Dims(Brackets(d) + rest) == (d, rest)
    decreases |d|
  {
    BracketsOpen(d, rest);
    if d != [] {
      hide Dims;
      var after := Brackets(d[1..]) + rest;
      assert Brackets(d) + rest == [LBracket, RBracket] + Mark(d[0]) + after;
      BracketsOpen(d[1..], rest);
      DimsOne(d[0], after);
      DimsBrackets(d[1..], rest);
      assert [d[0]] + d[1..] == d;
    }
  }

  lemma {:induction false} BaseRead(weak: bool, name: int, after: Toks)
    requires !At(after, TOp(Lt))
    ensures BaseType((if weak then [TWeak] else []) + ([TName(Id(name))] + after))
        == TyOk(Ty(weak, name, false, []), after)
  {
    var named := [TName(Id(name))] + after;
    assert named[1..] == after;
    if weak { assert ([TWeak] + named)[1..] == named; } else { assert [] + named == named; }
  }

  lemma {:induction false} Regroup(a: Toks, b: Toks, c: Toks, d: Toks, e: Toks)
    ensures a + b + c + d + e == a + (b + (c + (d + e)))
  {
  }

  /** What stands behind the name. */
  lemma {:induction false} TypeFrom(t: Toks, weak: bool, name: int, q: bool, dims: seq<bool>, after: Toks, rest: Toks)
    requires BaseType(t) == TyOk(Ty(weak, name, false, []), Mark(q) + after) && !(weak && q)
    requires !At(after, Question) && Dims(after) == (dims, rest)
    ensures TypeAt(t) == TyOk(Ty(weak, name, q, dims), rest)
  {
    hide BaseType, Dims;
    assert if q then (Mark(q) + after)[1..] == after else Mark(q) + after == after;
  }

  /** A printed type is read back, and nothing beyond it. */
  lemma {:induction false} TypeRead(ty: Ty, rest: Toks)
    requires !(ty.weak && ty.nullable)
    requires rest == [] || (rest[0] != LBracket && rest[0] != Question && rest[0] != TOp(Lt))
    ensures TypeAt(PrintType(ty) + rest) == TyOk(ty, rest)
  {
    var after := Brackets(ty.dims) + rest;
    BracketsOpen(ty.dims, rest);
    assert !At(after, TOp(Lt));
    DimsBrackets(ty.dims, rest);
    var marked := Mark(ty.nullable) + after;
    assert !At(marked, TOp(Lt));
    BaseRead(ty.weak, ty.name, marked);
    hide Brackets, Dims, BaseType, Mark, TypeAt;
    Regroup(if ty.weak then [TWeak] else [], [TName(Id(ty.name))], Mark(ty.nullable), Brackets(ty.dims), rest);
    TypeFrom(PrintType(ty) + rest, ty.weak, ty.name, ty.nullable, ty.dims, after, rest);
  }

  // ---------------------------------------------------------------- the round trip

  lemma {:induction false} ParenRead(scan: Toks -> bool, e: Expr, rest: Toks)
    requires Printable(e) && (rest == [] || rest[0] != Arrow)
    ensures Primary(scan, [LParen] + Bare(e) + [RParen] + rest) == Ok(e, rest)
    decreases e, 7
  {
    hide Bare, Printable;
    var t := [LParen] + Bare(e) + [RParen] + rest;
    assert t[1..] == Bare(e) + ([RParen] + rest);
    NoArrowAhead(e, rest);
    TopRead(scan, e, [RParen] + rest);
  }

  /** A postfix expression's operand and what follows it. */
  lemma {:induction false} PostRead(scan: Toks -> bool, e: Expr, rest: Toks)
    requires Printable(e) && Plain(rest)
    ensures Postfix(scan, Print(e, 9) + rest) == PostfixFrom(scan, e, rest)
    decreases e, 8
  {
    hide PostfixFrom, Printable, Bare;
    if Level(e) >= 9 { BarePost(scan, e, rest); } else { ParenRead(scan, e, rest); }
  }

  lemma {:induction false} BarePost(scan: Toks -> bool, e: Expr, rest: Toks)
    requires Printable(e) && Plain(rest) && Level(e) >= 9
    ensures Postfix(scan, Bare(e) + rest) == PostfixFrom(scan, e, rest)
    decreases e, 2
  {
    hide Print, Arguments, Top, PrintArgs, Printable, PrintableAll, PostfixFrom;
    PrintableParts(e);
    match e
    case Call(f, args) =>
      var rest1 := [LParen] + (PrintArgs(args) + ([RParen] + rest));
      assert Bare(e) + rest == Print(f, 9) + rest1;
      PostRead(scan, f, rest1);
      ArgsRead(scan, args, rest);
      CallStep(scan, f, PrintArgs(args) + ([RParen] + rest), args, rest);
    case Index(a, i) =>
      var rest1 := [LBracket] + (Print(i, 0) + ([RBracket] + rest));
      assert Bare(e) + rest == Print(a, 9) + rest1;
      PostRead(scan, a, rest1);
      PrintTop(i);
      TopRead(scan, i, [RBracket] + rest);
      IndexStep(scan, a, Print(i, 0) + ([RBracket] + rest), i, rest);
    case Member(a, name) =>
      var rest1 := [Dot, TName(name)] + rest;
      assert Bare(e) + rest == Print(a, 9) + rest1;
      PostRead(scan, a, rest1);
      MemberStep(scan, a, name, rest);
    case Num(_) => assert (Bare(e) + rest)[1..] == rest;
    case Var(_) => assert (Bare(e) + rest)[1..] == rest;
  }

  lemma {:induction false} CallStep(scan: Toks -> bool, f: Expr, t: Toks, args: seq<Expr>, rest: Toks)
    requires Arguments(scan, t) == ArgsOk(args, rest)
    ensures PostfixFrom(scan, f, [LParen] + t) == PostfixFrom(scan, Call(f, args), rest)
  {
    hide Arguments, Top;
    assert ([LParen] + t)[1..] == t;
  }

  lemma {:induction false} IndexStep(scan: Toks -> bool, a: Expr, t: Toks, i: Expr, rest: Toks)
    requires Top(scan, t) == Ok(i, [RBracket] + rest)
    ensures PostfixFrom(scan, a, [LBracket] + t) == PostfixFrom(scan, Index(a, i), rest)
  {
    hide Arguments, Top;
    assert ([LBracket] + t)[1..] == t && ([RBracket] + rest)[1..] == rest;
  }

  lemma {:induction false} MemberStep(scan: Toks -> bool, a: Expr, name: Name, rest: Toks)
    ensures PostfixFrom(scan, a, [Dot, TName(name)] + rest) == PostfixFrom(scan, Member(a, name), rest)
  {
    hide Arguments, Top;
    assert ([Dot, TName(name)] + rest)[2..] == rest;
  }

  lemma {:induction false} PrintableParts(e: Expr)
    requires Printable(e)
    ensures match e
      case Call(f, args) => Printable(f) && PrintableAll(args)
      case Index(a, i) => Printable(a) && Printable(i)
      case Member(a, _) => Printable(a)
      case Un(op, a) => IsUnary(op) && Printable(a)
      case As(a, ty) => !(ty.weak && ty.nullable) && Printable(a)
      case Bin(op, l, r) => Prec(op) > 0 && op != Lt && Printable(l) && Printable(r)
      case Assign(_, l, r) => Printable(l) && Printable(r)
      case _ => true
  {
  }

  lemma {:induction false} PrintTop(e: Expr)
    ensures Print(e, 0) == Bare(e)
  {
  }

  lemma {:induction false} ArgsRead(scan: Toks -> bool, args: seq<Expr>, rest: Toks)
    requires PrintableAll(args)
    ensures Arguments(scan, PrintArgs(args) + ([RParen] + rest)) == ArgsOk(args, rest)
    decreases args, 9
  {
    hide Top, Bare, Printable, Tame, Arguments, Print;
    var end := [RParen] + rest;
    if args == [] {
      assert PrintArgs(args) + end == end;
      LastArgument(scan, rest);
    } else if |args| == 1 {
      PrintTop(args[0]);
      TopRead(scan, args[0], end);
      NotALabel(args[0], end);
      OneArgument(scan, Print(args[0], 0) + end, args[0], rest);
    } else {
      var after := PrintArgs(args[1..]) + end;
      assert PrintArgs(args) + end == Print(args[0], 0) + ([Comma] + after);
      PrintTop(args[0]);
      TopRead(scan, args[0], [Comma] + after);
      NotALabel(args[0], [Comma] + after);
      ArgsRead(scan, args[1..], rest);
      MoreArguments(scan, Print(args[0], 0) + ([Comma] + after), args[0], after, args[1..], rest);
    }
  }

  lemma {:induction false} LastArgument(scan: Toks -> bool, rest: Toks)
    ensures Arguments(scan, [RParen] + rest) == ArgsOk([], rest)
  {
    hide Top;
    assert ([RParen] + rest)[1..] == rest;
  }

  lemma {:induction false} OneArgument(scan: Toks -> bool, t: Toks, e: Expr, rest: Toks)
    requires t != [] && t[0] != RParen && !(|t| > 1 && t[0].TName? && t[1] == Colon)
    requires Top(scan, t) == Ok(e, [RParen] + rest)
    ensures Arguments(scan, t) == ArgsOk([e], rest)
  {
    hide Top;
    assert ([RParen] + rest)[1..] == rest;
  }

  lemma {:induction false} MoreArguments(scan: Toks -> bool, t: Toks, e: Expr, after: Toks, es: seq<Expr>, rest: Toks)
    requires t != [] && t[0] != RParen && !(|t| > 1 && t[0].TName? && t[1] == Colon)
    requires Top(scan, t) == Ok(e, [Comma] + after) && Arguments(scan, after) == ArgsOk(es, rest)
    ensures Arguments(scan, t) == ArgsOk([e] + es, rest)
  {
    hide Top;
    assert ([Comma] + after)[1..] == after;
  }

  /** A printed argument starts with neither a closing parenthesis nor a label. */
  lemma {:induction false} NotALabel(e: Expr, after: Toks)
    requires Printable(e) && after != [] && after[0] != Colon
    ensures var t := Print(e, 0) + after; t[0] != RParen && !(|t| > 1 && t[0].TName? && t[1] == Colon)
  {
    var t, n := Print(e, 0) + after, |Print(e, 0)|;
    PrintTame(e, 0);
    Opens(e);
    assert forall i :: 0 <= i < n ==> t[i] == Print(e, 0)[i] && t[i] in Print(e, 0);
    assert t[n] == after[0];
  }

  lemma {:induction false} Opens(e: Expr)
    ensures Bare(e) != [] && Bare(e)[0] != RParen
  {
    match e
    case Call(f, _) => Opens(f);
    case Index(a, _) => Opens(a);
    case Member(a, _) => Opens(a);
    case As(a, _) => Opens(a);
    case Bin(_, l, _) => Opens(l);
    case Assign(_, l, _) => Opens(l);
    case _ =>
  }

  lemma {:induction false} UnaryRead(scan: Toks -> bool, e: Expr, rest: Toks)
    requires Printable(e) && Stops(rest)
    ensures Unary(scan, Print(e, 8) + rest) == Ok(e, rest)
    decreases e, 9
  {
    hide Printable, Bare;
    if Level(e) >= 8 { BareUnary(scan, e, rest); } else { ParenUnary(scan, e, rest); }
  }

  lemma {:induction false} ParenUnary(scan: Toks -> bool, e: Expr, rest: Toks)
    requires Printable(e) && Stops(rest)
    ensures Unary(scan, [LParen] + Bare(e) + [RParen] + rest) == Ok(e, rest)
    decreases e, 8
  {
    hide Printable, Bare, Primary;
    ParenRead(scan, e, rest);
    var t := [LParen] + Bare(e) + [RParen] + rest;
    assert t[0] == LParen;
    assert Postfix(scan, t) == Ok(e, rest);
  }

  lemma {:induction false} BareUnary(scan: Toks -> bool, e: Expr, rest: Toks)
    requires Printable(e) && Stops(rest) && Level(e) >= 8
    ensures Unary(scan, Bare(e) + rest) == Ok(e, rest)
    decreases e, 3
  {
    hide Print, Printable;
    if e.Un? {
      PrintableParts(e);
      assert (Bare(e) + rest)[1..] == Print(e.e, 8) + rest;
      UnaryRead(scan, e.e, rest);
    } else {
      FirstToken(e);
      BarePost(scan, e, rest);
    }
  }

  lemma {:induction false} CastRead(scan: Toks -> bool, e: Expr, rest: Toks)
    requires Printable(e) && Stops(rest)
    ensures Casts(scan, Print(e, 7) + rest) == CastsFrom(e, rest)
    decreases e, 9
  {
    hide Printable, Bare, Unary, CastsFrom;
    if Level(e) >= 7 { BareCast(scan, e, rest); } else { ParenUnary(scan, e, rest); }
  }

  lemma {:induction false} BareCast(scan: Toks -> bool, e: Expr, rest: Toks)
    requires Printable(e) && Stops(rest) && Level(e) >= 7
    ensures Casts(scan, Bare(e) + rest) == CastsFrom(e, rest)
    decreases e, 4
  {
    hide Print, Printable, Unary, TypeAt, PrintType;
    if e.As? {
      PrintableParts(e);
      var rest1 := [TAs] + (PrintType(e.ty) + rest);
      assert Bare(e) + rest == Print(e.e, 7) + rest1;
      CastRead(scan, e.e, rest1);
      assert rest1[1..] == PrintType(e.ty) + rest;
      TypeRead(e.ty, rest);
    } else {
      BareUnary(scan, e, rest);
    }
  }

  /** Reading an operand leaves the loop with it in hand, whatever looser operators follow. */
  lemma {:induction false} BinaryRead(scan: Toks -> bool, e: Expr, q: nat, m: nat, rest: Toks)
    requires Printable(e) && Stops(rest) && NoAs(rest) && 1 <= m <= q <= 7 && (Level(e) >= q ==> Loose(e, rest))
    ensures Binary(scan, Print(e, q) + rest, m) == BinaryFrom(scan, e, rest, m)
    decreases e, 9
  {
    hide Printable, Bare, BinaryFrom, Unary;
    if Level(e) >= q { BareBinary(scan, e, m, rest); } else { ParenUnary(scan, e, rest); }
  }

  lemma {:induction false} BareBinary(scan: Toks -> bool, e: Expr, m: nat, rest: Toks)
    requires Printable(e) && Stops(rest) && NoAs(rest) && 1 <= m <= 7 && Level(e) >= m && Loose(e, rest)
    ensures Binary(scan, Bare(e) + rest, m) == BinaryFrom(scan, e, rest, m)
    decreases e, 5
  {
    hide Print, Printable, Casts;
    if e.Bin? {
      PrintableParts(e);
      var p := Prec(e.op);
      var rest1 := [TOp(e.op)] + (Print(e.r, p + 1) + rest);
      assert Bare(e) + rest == Print(e.l, p) + rest1;
      BinaryRead(scan, e.l, p, m, rest1);
      assert rest1[1..] == Print(e.r, p + 1) + rest;
      BinaryRead(scan, e.r, p + 1, p + 1, rest);
    } else {
      BareCast(scan, e, rest);
    }
  }

  /** Any printable expression, printed bare and followed by something that ends it, is read back. */
  lemma {:induction false} TopRead(scan: Toks -> bool, e: Expr, rest: Toks)
    requires Printable(e) && Ends(rest)
    ensures Top(scan, Bare(e) + rest) == Ok(e, rest)
    decreases e, 6
  {
    hide Print, Printable, Binary;
    if e.Assign? {
      PrintableParts(e);
      var rest1 := [TAssign(e.n)] + (Print(e.r, 0) + rest);
      assert Bare(e) + rest == Print(e.l, 1) + rest1;
      BinaryRead(scan, e.l, 1, 1, rest1);
      assert rest1[1..] == Print(e.r, 0) + rest;
      PrintTop(e.r);
      TopRead(scan, e.r, rest);
    } else {
      LevelPositive(e);
      BareBinary(scan, e, 1, rest);
    }
  }

  lemma {:induction false} LevelPositive(e: Expr)
    requires Printable(e) && !e.Assign?
    ensures Level(e) >= 1
  {
  }

  /** Parsing the printed form of an expression gives the expression back. */
  lemma {:induction false} ParseInvertsPrint(scan: Toks -> bool, e: Expr)
    requires Printable(e)
    ensures Top(scan, Print(e, 0)) == Ok(e, [])
  {
    TopRead(scan, e, []);
    PrintTop(e);
    assert Bare(e) + [] == Bare(e);
  }

  /** Hence printing loses nothing: different expressions are printed differently. */
  lemma {:induction false} PrintInjective(a: Expr, b: Expr)
    requires Printable(a) && Printable(b) && Print(a, 0) == Print(b, 0)
    ensures a == b
  {
    var scan := (t: Toks) => false;
    ParseInvertsPrint(scan, a);
    ParseInvertsPrint(scan, b);
  }

  // ---------------------------------------------------------------- nothing shorter

  function Most(a: nat, b: nat): nat { if a < b then b else a }

  lemma {:induction false} PrintGrows(e: Expr, q: nat, p: nat)
    requires q <= p
    ensures |Bare(e)| <= |Print(e, q)| <= |Print(e, p)| <= |Bare(e)| + 2
  {
    hide Bare;
  }

  lemma {:induction false} DimsLong(t: Toks)
    ensures |t| - |Dims(t).1| == |Brackets(Dims(t).0)|
    decreases |t|
  {
    if |t| > 1 && t[0] == LBracket && t[1] == RBracket {
      var q := At(t[2..], Question);
      var rest := if q then t[3..] else t[2..];
      DimsLong(rest);
      assert ([q] + Dims(rest).0)[1..] == Dims(rest).0;
    }
  }

  lemma {:induction false} BaseLong(t: Toks)
    requires BaseType(t).TyOk?
    ensures var r := BaseType(t); |t| - |r.rest| >= (if r.ty.weak then 2 else 1) && r.ty.dims == [] && !r.ty.nullable
  {
    if At(t, TWeak) { BaseLong(t[1..]); }
  }

  lemma {:induction false} TypeLong(t: Toks)
    requires TypeAt(t).TyOk?
    ensures |t| - |TypeAt(t).rest| >= |PrintType(TypeAt(t).ty)|
  {
    BaseLong(t);
    var rest := BaseType(t).rest;
    DimsLong(if At(rest, Question) then rest[1..] else rest);
  }

  lemma {:induction false} PrimaryLong(scan: Toks -> bool, t: Toks)
    requires Primary(scan, t).Ok?
    ensures |t| - |Primary(scan, t).rest| >= |Print(Primary(scan, t).e, 10)|
    decreases |t|, 1
  {
    hide Top;
    if t[0] == LParen {
      TopLong(scan, t[1..]);
      PrintGrows(Top(scan, t[1..]).e, 0, 10);
    }
  }

  lemma {:induction false} ArgumentsLong(scan: Toks -> bool, t: Toks)
    requires Arguments(scan, t).ArgsOk?
    ensures |t| - |Arguments(scan, t).rest| >= |PrintArgs(Arguments(scan, t).args)| + 1
    decreases |t|, 8
  {
    hide Top, Print;
    if t[0] != RParen {
      TopLong(scan, t);
      var e, rest := Top(scan, t).e, Top(scan, t).rest;
      if rest[0] == Comma {
        ArgumentsLong(scan, rest[1..]);
        var es := Arguments(scan, rest[1..]).args;
        ArgsGrow(e, es);
      }
    }
  }

  lemma {:induction false} ArgsGrow(e: Expr, es: seq<Expr>)
    ensures |PrintArgs([e] + es)| <= |Print(e, 0)| + 1 + |PrintArgs(es)|
  {
    hide Print;
    assert ([e] + es)[1..] == es;
  }

  /** From `e` on, a postfix chain reads at least what it adds to the printed form. */
  lemma {:induction false} PostfixFromLong(scan: Toks -> bool, e: Expr, t: Toks)
    requires PostfixFrom(scan, e, t).Ok?
    ensures |Print(e, 9)| + (|t| - |PostfixFrom(scan, e, t).rest|) >= |Print(PostfixFrom(scan, e, t).e, 9)|
    decreases |t|, 2
  {
    hide Top, Arguments, PrintArgs;
    if t != [] {
      match t[0]
      case LParen =>
        ArgumentsLong(scan, t[1..]);
        var r := Arguments(scan, t[1..]);
        PostfixFromLong(scan, Call(e, r.args), r.rest);
      case LBracket =>
        TopLong(scan, t[1..]);
        var r := Top(scan, t[1..]);
        PostfixFromLong(scan, Index(e, r.e), r.rest[1..]);
      case Dot => PostfixFromLong(scan, Member(e, t[1].name), t[2..]);
      case _ =>
    }
  }

  lemma {:induction false} PostfixLong(scan: Toks -> bool, t: Toks)
    requires Postfix(scan, t).Ok?
    ensures |t| - |Postfix(scan, t).rest| >= |Print(Postfix(scan, t).e, 9)|
    decreases |t|, 3
  {
    hide Primary, PostfixFrom, Print;
    PrimaryLong(scan, t);
    var r := Primary(scan, t);
    PrintGrows(r.e, 9, 10);
    PostfixFromLong(scan, r.e, r.rest);
  }

  lemma {:induction false} UnaryLong(scan: Toks -> bool, t: Toks)
    requires Unary(scan, t).Ok?
    ensures |t| - |Unary(scan, t).rest| >= |Print(Unary(scan, t).e, 8)|
    decreases |t|, 4
  {
    hide Postfix;
    if t != [] && t[0].TOp? && IsUnary(t[0].op) {
      UnaryLong(scan, t[1..]);
    } else {
      PostfixLong(scan, t);
      PrintGrows(Postfix(scan, t).e, 8, 9);
    }
  }

  lemma {:induction false} CastsFromLong(e: Expr, t: Toks)
    requires CastsFrom(e, t).Ok?
    ensures |Print(e, 7)| + (|t| - |CastsFrom(e, t).rest|) >= |Print(CastsFrom(e, t).e, 7)|
    decreases |t|
  {
    hide TypeAt, PrintType;
    if At(t, TAs) {
      TypeLong(t[1..]);
      CastsFromLong(As(e, TypeAt(t[1..]).ty), TypeAt(t[1..]).rest);
    }
  }

  lemma {:induction false} CastsLong(scan: Toks -> bool, t: Toks)
    requires Casts(scan, t).Ok?
    ensures |t| - |Casts(scan, t).rest| >= |Print(Casts(scan, t).e, 7)|
    decreases |t|, 5
  {
    hide Unary, CastsFrom, Print;
    UnaryLong(scan, t);
    var r := Unary(scan, t);
    PrintGrows(r.e, 7, 8);
    CastsFromLong(r.e, r.rest);
  }

  /** The operator loop stops only where nothing binds as tightly as it must. */
  lemma {:induction false} LoopStops(scan: Toks -> bool, lhs: Expr, t: Toks, min: nat)
    requires BinaryFrom(scan, lhs, t, min).Ok?
    ensures var p := PrecAt(BinaryFrom(scan, lhs, t, min).rest); p < min || p == 0
    decreases |t|
  {
    hide Binary;
    var p := PrecAt(t);
    if p >= min && p > 0 {
      var r := Binary(scan, t[1..], p + 1);
      LoopStops(scan, Bin(t[0].op, lhs, r.e), r.rest, min);
    }
  }

  /** `used` tokens were read for `lhs`, enough to print it where the next operator wants it. */
  lemma {:induction false} BinaryFromLong(scan: Toks -> bool, lhs: Expr, t: Toks, min: nat, used: nat)
    requires BinaryFrom(scan, lhs, t, min).Ok? && min <= 7 && used >= |Print(lhs, Most(min, PrecAt(t)))|
    ensures used + (|t| - |BinaryFrom(scan, lhs, t, min).rest|) >= |Print(BinaryFrom(scan, lhs, t, min).e, min)|
    decreases |t|, 0
  {
    hide Binary;
    var p := PrecAt(t);
    if p >= min && p > 0 {
      BinaryLong(scan, t[1..], p + 1);
      var r := Binary(scan, t[1..], p + 1);
      BinaryStops(scan, t[1..], p + 1);
      var b := Bin(t[0].op, lhs, r.e);
      assert |Bare(b)| == |Print(lhs, p)| + 1 + |Print(r.e, p + 1)|;
      BinaryFromLong(scan, b, r.rest, min, used + (|t| - |r.rest|));
    }
  }

  lemma {:induction false} BinaryStops(scan: Toks -> bool, t: Toks, min: nat)
    requires Binary(scan, t, min).Ok?
    ensures var p := PrecAt(Binary(scan, t, min).rest); p < min || p == 0
  {
    hide Casts;
    LoopStops(scan, Casts(scan, t).e, Casts(scan, t).rest, min);
  }

  lemma {:induction false} BinaryLong(scan: Toks -> bool, t: Toks, min: nat)
    requires Binary(scan, t, min).Ok? && min <= 7
    ensures |t| - |Binary(scan, t, min).rest| >= |Print(Binary(scan, t, min).e, min)|
    decreases |t|, 6
  {
    hide Casts, Print;
    CastsLong(scan, t);
    var r := Casts(scan, t);
    PrintGrows(r.e, Most(min, PrecAt(r.rest)), 7);
    BinaryFromLong(scan, r.e, r.rest, min, |t| - |r.rest|);
  }

  lemma {:induction false} TopLong(scan: Toks -> bool, t: Toks)
    requires Top(scan, t).Ok?
    ensures |t| - |Top(scan, t).rest| >= |Print(Top(scan, t).e, 0)|
    decreases |t|, 7
  {
    hide Binary;
    BinaryLong(scan, t, 1);
    var r := Binary(scan, t, 1);
    PrintGrows(r.e, 0, 1);
    if r.rest != [] && r.rest[0].TAssign? { TopLong(scan, r.rest[1..]); }
  }

  /** No shorter text parses to an expression than its printed form.  In particular none of the
      parentheses printed can be dropped: without a pair the text fails or means something else. */
  lemma {:induction false} PrintIsShortest(scan: Toks -> bool, e: Expr, t: Toks)
    requires |t| < |Print(e, 0)|
    ensures Top(scan, t) != Ok(e, [])
  {
    hide Top, Print;
    if Top(scan, t).Ok? { TopLong(scan, t); }
  }

  /** Said of the tokens: an opening and a closing parenthesis taken out. */
  lemma {:induction false} DroppedPair(scan: Toks -> bool, e: Expr, i: nat, j: nat)
    requires i < j < |Print(e, 0)| && Print(e, 0)[i] == LParen && Print(e, 0)[j] == RParen
    ensures var t := Print(e, 0); Top(scan, t[..i] + t[i + 1..j] + t[j + 1..]) != Ok(e, [])
  {
    var t := Print(e, 0);
    PrintIsShortest(scan, e, t[..i] + t[i + 1..j] + t[j + 1..]);
  }
}
