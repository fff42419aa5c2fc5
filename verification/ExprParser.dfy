/** The recursive-descent parser with its token cursor: each method advances the cursor over what
    it reads and builds the node that the grammar's function of the same tokens builds. */
module ExprParser {
  import opened Grammar

  /** A node, or the fatal diagnostic that ends the parse. */
  datatype Out = Fatal | Node(e: Expr)

  datatype OutTy = FatalTy | TypeNode(ty: Ty)

  datatype OutArgs = FatalArgs | Nodes(args: seq<Expr>)

  class Parser {
    const toks: Toks
    const scan: Toks -> bool
    var pos: nat

    ghost predicate Valid()
      reads this
    {
      pos <= |toks|
    }

    ghost function Left(): Toks
      reads this
      requires Valid()
    {
      toks[pos..]
    }

    constructor (toks: Toks, scan: Toks -> bool)
      ensures Valid() && Left() == toks && this.toks == toks && this.scan == scan
    {
      this.toks, this.scan, pos := toks, scan, 0;
    }

    function Cur(): Tok
      reads this
    {
      if pos < |toks| then toks[pos] else TOther(0)
    }

    /** A method's outcome is a function's: the same node, the cursor at what is left. */
    ghost predicate Reads(out: Out, want: Res)
      reads this
    {
      Valid() && match out
      case Fatal => want.Fail?
      case Node(e) => want == Ok(e, Left())
    }

    ghost predicate ReadsArgs(out: OutArgs, want: ArgsRes)
      reads this
    {
      Valid() && match out
      case FatalArgs => want.ArgsFail?
      case Nodes(args) => want == ArgsOk(args, Left())
    }

    ghost predicate ReadsType(out: OutTy, want: TyRes)
      reads this
    {
      Valid() && match out
      case FatalTy => want.TyFail?
      case TypeNode(ty) => want == TyOk(ty, Left())
    }

    method ParsePrimary() returns (out: Out)
      requires Valid()
      modifies `pos
      ensures Reads(out, Primary(scan, old(Left())))
      decreases |toks| - pos, 1
    {
      match Cur() {
        case TNum(n) =>
          pos := pos + 1;
          return Node(Num(n));
        case TName(Id(n)) =>
          pos := pos + 1;
          return Node(Var(n));
        case LParen =>
          ghost var t := Left();
          pos := pos + 1;
          assert t[1..] == Left();
          if ArrowAhead(toks[pos..]) { return Fatal; }
          out := ParseExpr();
          if out.Fatal? || Cur() != RParen { return Fatal; }
          pos := pos + 1;
        case _ => return Fatal;
      }
    }

    /** The loop over arguments, from behind the opening parenthesis. */
    method ParseArgs() returns (out: OutArgs)
      requires Valid()
      modifies `pos
      ensures ReadsArgs(out, Arguments(scan, old(Left())))
      decreases |toks| - pos, 8
    {
      hide Top, Arguments;
      ghost var want := Arguments(scan, Left());
      PrependNone(want);
      var args: seq<Expr> := [];
      while Cur() != RParen
        invariant Valid() && old(pos) <= pos
        invariant Prepended(args, Arguments(scan, Left())) == want
        decreases |toks| - pos
      {
        ghost var t := Left();
        ArgumentsStep(scan, t);
        if pos + 1 < |toks| && toks[pos].TName? && toks[pos + 1] == Colon { return FatalArgs; }
        if pos == |toks| { return FatalArgs; }
        var e := ParseExpr();
        if e.Fatal? { return FatalArgs; }
        ghost var rest := Left();
        if rest != [] { PrependTwice(args, e.e, Arguments(scan, rest[1..])); }
        args := args + [e.e];
        if Cur() != Comma {
          if Cur() != RParen { return FatalArgs; }
          pos := pos + 1;
          assert rest[1..] == Left();
          return Nodes(args);
        }
        pos := pos + 1;
        assert rest[1..] == Left();
      }
      ArgumentsStep(scan, Left());
      ghost var t := Left();
      pos := pos + 1;
      assert t[1..] == Left() && args + [] == args;
      return Nodes(args);
    }

    method ParsePostfix() returns (out: Out)
      requires Valid()
      modifies `pos
      ensures Reads(out, Postfix(scan, old(Left())))
      decreases |toks| - pos, 3
    {
      hide Arguments, Top, Primary;
      ghost var want := Postfix(scan, Left());
      out := ParsePrimary();
      if out.Fatal? { return; }
      var e := out.e;
      while Cur() == LParen || Cur() == LBracket || Cur() == Dot || Cur() == TOp(Lt)
        invariant Valid() && pos > old(pos) && PostfixFrom(scan, e, Left()) == want
        decreases |toks| - pos
      {
        ghost var t := Left();
        if Cur() == TOp(Lt) {
          return if e.Var? && scan(toks[pos..]) then Fatal else Node(e);
        }
        var opener := Cur();
        pos := pos + 1;
        assert t[1..] == Left();
        if opener == LParen {
          var args := ParseArgs();
          if args.FatalArgs? { return Fatal; }
          e := Call(e, args.args);
        } else if opener == LBracket {
          var i := ParseExpr();
          if i.Fatal? || Cur() != RBracket { return Fatal; }
          ghost var t1 := Left();
          pos := pos + 1;
          assert t1[1..] == Left();
          e := Index(e, i.e);
        } else {
          if !Cur().TName? { return Fatal; }
          e := Member(e, Cur().name);
          pos := pos + 1;
          assert t[2..] == Left();
        }
      }
      return Node(e);
    }

    method ParseUnary() returns (out: Out)
      requires Valid()
      modifies `pos
      ensures Reads(out, Unary(scan, old(Left())))
      decreases |toks| - pos, 4
    {
      hide Postfix;
      if Cur().TOp? && IsUnary(Cur().op) {
        var op := Cur().op;
        ghost var t := Left();
        pos := pos + 1;
        assert t[1..] == Left();
        out := ParseUnary();
        return if out.Fatal? then Fatal else Node(Un(op, out.e));
      }
      out := ParsePostfix();
    }

    method ParseAs() returns (out: Out)
      requires Valid()
      modifies `pos
      ensures Reads(out, Casts(scan, old(Left())))
      decreases |toks| - pos, 5
    {
      hide Unary;
      ghost var want := Casts(scan, Left());
      out := ParseUnary();
      if out.Fatal? { return; }
      var e := out.e;
      while Cur() == TAs
        invariant Valid() && CastsFrom(e, Left()) == want
        decreases |toks| - pos
      {
        ghost var t := Left();
        pos := pos + 1;
        assert t[1..] == Left();
        var ty := ParseType();
        if ty.FatalTy? { return Fatal; }
        e := As(e, ty.ty);
      }
      return Node(e);
    }

    method ParseBaseType() returns (out: OutTy)
      requires Valid()
      modifies `pos
      ensures ReadsType(out, BaseType(old(Left())))
      decreases |toks| - pos
    {
      ghost var t := Left();
      if Cur() == TWeak {
        pos := pos + 1;
        assert t[1..] == Left();
        out := ParseBaseType();
        return if out.FatalTy? then FatalTy else TypeNode(out.ty.(weak := true));
      }
      if !(Cur().TName? && Cur().name.Id?) { return FatalTy; }
      var name := Cur().name.n;
      pos := pos + 1;
      assert t[1..] == Left();
      if Cur() == TOp(Lt) { return FatalTy; }
      return TypeNode(Ty(false, name, false, []));
    }

    method ParseType() returns (out: OutTy)
      requires Valid()
      modifies `pos
      ensures ReadsType(out, TypeAt(old(Left())))
    {
      out := ParseBaseType();
      if out.FatalTy? { return; }
      ghost var t := Left();
      var q := Cur() == Question;
      if q {
        if out.ty.weak { return FatalTy; }
        pos := pos + 1;
        assert t[1..] == Left();
      }
      var d := ParseDims();
      return TypeNode(out.ty.(nullable := q, dims := d));
    }

    /** The array suffixes of a type, each with its mark. */
    method ParseDims() returns (d: seq<bool>)
      requires Valid()
      modifies `pos
      ensures Valid() && Dims(old(Left())) == (d, Left())
    {
      ghost var want := Dims(Left());
      assert [] + want.0 == want.0;
      d := [];
      while Cur() == LBracket && pos + 1 < |toks| && toks[pos + 1] == RBracket
        invariant Valid() && (d + Dims(Left()).0, Dims(Left()).1) == want
        decreases |toks| - pos
      {
        ghost var t := Left();
        pos := pos + 2;
        assert t[2..] == Left();
        var q := Cur() == Question;
        if q {
          pos := pos + 1;
          assert t[3..] == Left();
        }
        DimsStep(d, q, t, Left());
        d := d + [q];
      }
      assert d + [] == d;
    }

    method ParseBin(min: nat) returns (out: Out)
      requires Valid()
      modifies `pos
      ensures Reads(out, Binary(scan, old(Left()), min))
      decreases |toks| - pos, 6
    {
      hide Casts;
      ghost var want := Binary(scan, Left(), min);
      out := ParseAs();
      if out.Fatal? { return; }
      var lhs := out.e;
      while true
        invariant Valid() && pos > old(pos) && BinaryFrom(scan, lhs, Left(), min) == want
        decreases |toks| - pos
      {
        var prec := if Cur().TOp? then Prec(Cur().op) else 0;
        if prec < min || prec == 0 { return Node(lhs); }
        var op := Cur().op;
        ghost var t := Left();
        pos := pos + 1;
        assert t[1..] == Left();
        var rhs := ParseBin(prec + 1);
        if rhs.Fatal? { return Fatal; }
        lhs := Bin(op, lhs, rhs.e);
      }
    }

    method ParseExpr() returns (out: Out)
      requires Valid()
      modifies `pos
      ensures Reads(out, Top(scan, old(Left())))
      decreases |toks| - pos, 7
    {
      hide Binary;
      out := ParseBin(1);
      if out.Fatal? { return; }
      if Cur().TAssign? {
        var n := Cur().n;
        ghost var t := Left();
        pos := pos + 1;
        assert t[1..] == Left();
        var r := ParseExpr();
        return if r.Fatal? then Fatal else Node(Assign(n, out.e, r.e));
      }
    }
  }

  lemma {:induction false} DimsStep(d: seq<bool>, q: bool, t: Toks, rest: Toks)
    requires |t| > 1 && t[0] == LBracket && t[1] == RBracket && q == At(t[2..], Question)
    requires rest == if q then t[3..] else t[2..]
    ensures d + Dims(t).0 == d + [q] + Dims(rest).0 && Dims(t).1 == Dims(rest).1
  {
  }

  /** Arguments read before the others. */
  function Prepended(args: seq<Expr>, r: ArgsRes): ArgsRes {
    match r
    case ArgsFail => ArgsFail
    case ArgsOk(es, rest) => ArgsOk(args + es, rest)
  }

  lemma {:induction false} PrependNone(r: ArgsRes)
    ensures Prepended([], r) == r
  {
    if r.ArgsOk? { assert [] + r.args == r.args; }
  }

  lemma {:induction false} PrependTwice(args: seq<Expr>, e: Expr, r: ArgsRes)
    ensures Prepended(args, Prepended([e], r)) == Prepended(args + [e], r)
  {
    if r.ArgsOk? { assert args + ([e] + r.args) == args + [e] + r.args; }
  }

  /** One argument and what must follow it. */
  lemma {:induction false} ArgumentsStep(scan: Toks -> bool, t: Toks)
    ensures t == [] ==> Arguments(scan, t) == ArgsFail
    ensures t != [] && t[0] == RParen ==> Arguments(scan, t) == ArgsOk([], t[1..])
    ensures t != [] && t[0] != RParen ==> (Arguments(scan, t) ==
      if |t| > 1 && t[0].TName? && t[1] == Colon then ArgsFail
      else if Top(scan, t).Fail? then ArgsFail
      else
        var (e, rest) := (Top(scan, t).e, Top(scan, t).rest);
        if rest != [] && rest[0] == Comma then Prepended([e], Arguments(scan, rest[1..]))
        else if rest != [] && rest[0] == RParen then ArgsOk([e], rest[1..])
        else ArgsFail)
  {
    hide Top;
  }
}
