/** The expression grammar as the parser reads it, and the printer that writes an expression with
    only the parentheses its precedences require. */
module Grammar {

  datatype Op = Star | Slash | Percent | Shl | Shr | Amp | Plus | Minus | Pipe | Caret
    | Lt | Le | Gt | Ge | EqEq | NotEq | AndAnd | OrOr | Not | Tilde

  /** A member's name; `init` is a token of its own. */
  datatype Name = Id(n: int) | Init

  datatype Tok = TNum(n: int) | TName(name: Name) | TOp(op: Op) | TAssign(n: int)
    | LParen | RParen | LBracket | RBracket | Comma | Dot | TAs | Arrow | Colon | Question | TWeak | TOther(n: int)

  /** A named type: `weak` and `?` belong to the name, and each pair of brackets behind it may have
      its own `?`. */
  datatype Ty = Ty(weak: bool, name: int, nullable: bool, dims: seq<bool>)

  datatype Expr =
    | Num(n: int)
    | Var(n: int)
    | Call(f: Expr, args: seq<Expr>)
    | Index(e: Expr, i: Expr)
    | Member(e: Expr, name: Name)
    | Un(op: Op, e: Expr)
    | As(e: Expr, ty: Ty)
    | Bin(op: Op, l: Expr, r: Expr)
    | Assign(n: int, l: Expr, r: Expr)

  type Toks = seq<Tok>

  /** A node and the tokens left, or the fatal diagnostic. */
  datatype Res = Fail | Ok(e: Expr, rest: Toks)

  datatype TyRes = TyFail | TyOk(ty: Ty, rest: Toks)

  datatype ArgsRes = ArgsFail | ArgsOk(args: seq<Expr>, rest: Toks)

  predicate IsUnary(op: Op) { op.Not? || op.Minus? || op.Tilde? || op.Amp? }

  /** bin_prec, of an operator. */
  function Prec(op: Op): (p: nat)
    ensures p <= 6
  {
    match op
    case Star => 6 case Slash => 6 case Percent => 6 case Shl => 6 case Shr => 6 case Amp => 6
    case Plus => 5 case Minus => 5 case Pipe => 5 case Caret => 5
    case Lt => 4 case Le => 4 case Gt => 4 case Ge => 4
    case EqEq => 3 case NotEq => 3
    case AndAnd => 2
    case OrOr => 1
    case _ => 0
  }

  /** bin_prec, of the token at the cursor. */
  function PrecAt(toks: Toks): nat {
    if toks != [] && toks[0].TOp? then Prec(toks[0].op) else 0
  }

  /** looks_like_arrow, from behind the opening parenthesis: names, a closing one, an arrow. */
  predicate ArrowAhead(toks: Toks) {
    toks != [] &&
    if toks[0] == RParen then |toks| > 1 && toks[1] == Arrow
    else NamesThenArrow(toks)
  }

  predicate NamesThenArrow(toks: Toks) {
    |toks| > 1 && toks[0].TName? && toks[0].name.Id? &&
    if toks[1] == Comma then NamesThenArrow(toks[2..])
    else toks[1] == RParen && |toks| > 2 && toks[2] == Arrow
  }

  predicate At(toks: Toks, t: Tok) { toks != [] && toks[0] == t }

  /** parse_base_type, where it names a type. */
  function BaseType(toks: Toks): (r: TyRes)
    ensures r.TyOk? ==> |r.rest| < |toks|
  {
    if At(toks, TWeak) then
      match BaseType(toks[1..])
      case TyFail => TyFail
      case TyOk(ty, rest) => TyOk(ty.(weak := true), rest)
    else if toks != [] && toks[0].TName? && toks[0].name.Id? && !At(toks[1..], TOp(Lt)) then
      TyOk(Ty(false, toks[0].name.n, false, []), toks[1..])
    else TyFail
  }

  /** The array suffixes of a type: pairs of brackets, each with its mark. */
  function Dims(toks: Toks): (r: (seq<bool>, Toks))
    ensures |r.1| <= |toks|
  {
    if |toks| > 1 && toks[0] == LBracket && toks[1] == RBracket then
      var q := At(toks[2..], Question);
      var (d, rest) := Dims(if q then toks[3..] else toks[2..]);
      ([q] + d, rest)
    else ([], toks)
  }

  /** parse_type; a mark on a weak type is refused. */
  function TypeAt(toks: Toks): (r: TyRes)
    ensures r.TyOk? ==> |r.rest| < |toks|
  {
    match BaseType(toks)
    case TyFail => TyFail
    case TyOk(ty, rest) =>
      var q := At(rest, Question);
      if q && ty.weak then TyFail else
      var (d, rest1) := Dims(if q then rest[1..] else rest);
      TyOk(ty.(nullable := q, dims := d), rest1)
  }

  // ---------------------------------------------------------------- the parser's functions
  // `scan` stands for the structural scan that takes some `<` after a name for type arguments.
  // Generic calls, generic types, arrow functions and named arguments are not part of this model.

  function Primary(scan: Toks -> bool, toks: Toks): (r: Res)
    ensures r.Ok? ==> |r.rest| < |toks|
    decreases |toks|, 1
  {
    if toks == [] then Fail
    else match toks[0]
      case TNum(n) => Ok(Num(n), toks[1..])
      case TName(Id(n)) => Ok(Var(n), toks[1..])
      case LParen =>
        if ArrowAhead(toks[1..]) then Fail
        else (match Top(scan, toks[1..])
              case Fail => Fail
              case Ok(e, rest) => if rest != [] && rest[0] == RParen then Ok(e, rest[1..]) else Fail)
      case _ => Fail
  }

  function Arguments(scan: Toks -> bool, toks: Toks): (r: ArgsRes)
    ensures r.ArgsOk? ==> |r.rest| < |toks|
    decreases |toks|, 8
  {
    if toks == [] then ArgsFail
    else if toks[0] == RParen then ArgsOk([], toks[1..])
    else if |toks| > 1 && toks[0].TName? && toks[1] == Colon then ArgsFail
    else match Top(scan, toks)
      case Fail => ArgsFail
      case Ok(e, rest) =>
        if rest != [] && rest[0] == Comma then
          (match Arguments(scan, rest[1..])
           case ArgsFail => ArgsFail
           case ArgsOk(es, rest1) => ArgsOk([e] + es, rest1))
        else if rest != [] && rest[0] == RParen then ArgsOk([e], rest[1..])
        else ArgsFail
  }

  function Postfix(scan: Toks -> bool, toks: Toks): (r: Res)
    ensures r.Ok? ==> |r.rest| < |toks|
    decreases |toks|, 3
  {
    match Primary(scan, toks)
    case Fail => Fail
    case Ok(e, rest) => PostfixFrom(scan, e, rest)
  }

  function PostfixFrom(scan: Toks -> bool, e: Expr, toks: Toks): (r: Res)
    ensures r.Ok? ==> |r.rest| <= |toks|
    decreases |toks|, 2
  {
    if toks == [] then Ok(e, toks)
    else if e.Var? && toks[0] == TOp(Lt) && scan(toks) then Fail
    else match toks[0]
      case LParen =>
        (match Arguments(scan, toks[1..])
         case ArgsFail => Fail
         case ArgsOk(args, rest) => PostfixFrom(scan, Call(e, args), rest))
      case LBracket =>
        (match Top(scan, toks[1..])
         case Fail => Fail
         case Ok(i, rest) => if rest != []
             && rest[0] == RBracket then PostfixFrom(scan, Index(e, i), rest[1..]) else Fail)
      case Dot => if |toks| > 1 && toks[1].TName? then PostfixFrom(scan, Member(e, toks[1].name), toks[2..]) else Fail
      case _ => Ok(e, toks)
  }

  function Unary(scan: Toks -> bool, toks: Toks): (r: Res)
    ensures r.Ok? ==> |r.rest| < |toks|
    decreases |toks|, 4
  {
    if toks != [] && toks[0].TOp? && IsUnary(toks[0].op) then
      match Unary(scan, toks[1..])
      case Fail => Fail
      case Ok(e, rest) => Ok(Un(toks[0].op, e), rest)
    else Postfix(scan, toks)
  }

  function Casts(scan: Toks -> bool, toks: Toks): (r: Res)
    ensures r.Ok? ==> |r.rest| < |toks|
    decreases |toks|, 5
  {
    match Unary(scan, toks)
    case Fail => Fail
    case Ok(e, rest) => CastsFrom(e, rest)
  }

  function CastsFrom(e: Expr, toks: Toks): (r: Res)
    ensures r.Ok? ==> |r.rest| <= |toks|
    decreases |toks|
  {
    if !At(toks, TAs) then Ok(e, toks)
    else match TypeAt(toks[1..])
      case TyFail => Fail
      case TyOk(ty, rest) => CastsFrom(As(e, ty), rest)
  }

  function Binary(scan: Toks -> bool, toks: Toks, min: nat): (r: Res)
    ensures r.Ok? ==> |r.rest| < |toks|
    decreases |toks|, 6
  {
    match Casts(scan, toks)
    case Fail => Fail
    case Ok(e, rest) => BinaryFrom(scan, e, rest, min)
  }

  function BinaryFrom(scan: Toks -> bool, lhs: Expr, toks: Toks, min: nat): (r: Res)
    ensures r.Ok? ==> |r.rest| <= |toks|
    decreases |toks|, 0
  {
    var p := PrecAt(toks);
    if p < min || p == 0 then Ok(lhs, toks)
    else match Binary(scan, toks[1..], p + 1)
      case Fail => Fail
      case Ok(rhs, rest) => BinaryFrom(scan, Bin(toks[0].op, lhs, rhs), rest, min)
  }

  /** parse_expr. */
  function Top(scan: Toks -> bool, toks: Toks): (r: Res)
    ensures r.Ok? ==> |r.rest| < |toks|
    decreases |toks|, 7
  {
    match Binary(scan, toks, 1)
    case Fail => Fail
    case Ok(l, rest) =>
      if rest != [] && rest[0].TAssign? then
        match Top(scan, rest[1..])
        case Fail => Fail
        case Ok(r, rest1) => Ok(Assign(rest[0].n, l, r), rest1)
      else Ok(l, rest)
  }

  // ---------------------------------------------------------------- the printer

  /** How tightly an expression's outermost construct binds. */
  function Level(e: Expr): (k: nat)
    ensures k <= 10
  {
    match e
    case Assign(_, _, _) => 0
    case Bin(op, _, _) => Prec(op)
    case As(_, _) => 7
    case Un(_, _) => 8
    case Call(_, _) => 9
    case Index(_, _) => 9
    case Member(_, _) => 9
    case _ => 10
  }

  function Mark(q: bool): Toks {
    if q then [Question] else []
  }

  function Brackets(d: seq<bool>): Toks {
    if d == [] then [] else [LBracket, RBracket] + Mark(d[0]) + Brackets(d[1..])
  }

  function PrintType(ty: Ty): Toks {
    (if ty.weak then [TWeak] else []) + [TName(Id(ty.name))] + Mark(ty.nullable) + Brackets(ty.dims)
  }

  /** In a place that wants level `q`: bare when the expression binds that tightly. */
  function Print(e: Expr, q: nat): Toks
    decreases e, 1
  {
    if Level(e) >= q then Bare(e) else [LParen] + Bare(e) + [RParen]
  }

  function Bare(e: Expr): Toks
    decreases e, 0
  {
    match e
    case Num(n) => [TNum(n)]
    case Var(n) => [TName(Id(n))]
    case Call(f, args) => Print(f, 9) + [LParen] + PrintArgs(args) + [RParen]
    case Index(a, i) => Print(a, 9) + [LBracket] + Print(i, 0) + [RBracket]
    case Member(a, name) => Print(a, 9) + [Dot, TName(name)]
    case Un(op, a) => [TOp(op)] + Print(a, 8)
    case As(a, ty) => Print(a, 7) + [TAs] + PrintType(ty)
    case Bin(op, l, r) => Print(l, Prec(op)) + [TOp(op)] + Print(r, Prec(op) + 1)
    case Assign(n, l, r) => Print(l, 1) + [TAssign(n)] + Print(r, 0)
  }

  function PrintArgs(args: seq<Expr>): Toks
    decreases args, 0
  {
    if args == [] then []
    else if |args| == 1 then Print(args[0], 0)
    else Print(args[0], 0) + [Comma] + PrintArgs(args[1..])
  }

  /** Built from unary and binary operators, each in its own role, none of them `<`, and types that
      can be written. */
  predicate Printable(e: Expr)
    decreases e, 1
  {
    match e
    case Call(f, args) => Printable(f) && PrintableAll(args)
    case Index(a, i) => Printable(a) && Printable(i)
    case Member(a, _) => Printable(a)
    case Un(op, a) => IsUnary(op) && Printable(a)
    case As(a, ty) => !(ty.weak && ty.nullable) && Printable(a)
    case Bin(op, l, r) => Prec(op) > 0 && op != Lt && Printable(l) && Printable(r)
    case Assign(_, l, r) => Printable(l) && Printable(r)
    case _ => true
  }

  predicate PrintableAll(es: seq<Expr>)
    decreases es, 0
  {
    es == [] || (Printable(es[0]) && PrintableAll(es[1..]))
  }
}
