/** Integer power by squaring with overflow traps, and the greatest common divisor, on 64-bit
    signed integers. */
module IntPow {

  const MIN: int := -0x8000_0000_0000_0000
  const MAX: int := 0x7fff_ffff_ffff_ffff

  predicate Fits(x: int) { MIN <= x <= MAX }

  /** A result, or the panic on overflow. */
  datatype Checked = Value(v: int) | Overflow

  function Pow(b: int, e: nat): int {
    if e == 0 then 1 else b * Pow(b, e - 1)
  }

  /** int_pow_mul. */
  function Mul(a: int, b: int): Checked {
    if Fits(a * b) then Value(a * b) else Overflow
  }

  lemma {:induction false} PowSquare(b: int, k: nat)
    ensures Pow(b, 2 * k) == Pow(b * b, k)
  {
    if k > 0 {
      PowSquare(b, k - 1);
      var x := Pow(b, 2 * (k - 1));
      assert Pow(b, 2 * k) == b * Pow(b, 2 * k - 1) && Pow(b, 2 * k - 1) == b * x;
      assert b * (b * x) == (b * b) * x;
    }
  }

  lemma {:induction false} PowPositive(b: int, k: nat)
    requires b > 0
    ensures Pow(b, k) >= 1 && (k > 0 ==> Pow(b, k) >= b)
  {
    if k > 0 {
      PowPositive(b, k - 1);
      var x := Pow(b, k - 1);
      assert b * x >= b by { assert b * (x - 1) >= 0; assert b * x == b * (x - 1) + b; }
    }
  }

  lemma {:induction false} Grows(x: int, m: int)
    requires m >= 1
    ensures x >= 0 ==> x * m >= x
    ensures x <= 0 ==> x * m <= x
  {
    assert x * m == x + x * (m - 1);
    if x >= 0 { assert x * (m - 1) >= 0; } else { assert x * (m - 1) <= 0; }
  }

  /** No square is 2 to the 63. */
  lemma {:induction false} NotASquare(b: int)
    requires !Fits(b * b)
    ensures b * b > -MIN && b != 0
  {
    var n := if b < 0 then -b else b;
    assert n * n == b * b;
    if n <= 3037000499 {
      assert n * n <= 3037000499 * 3037000499 by { Monotone(n, 3037000499); }
    } else {
      Monotone(3037000500, n);
    }
  }

  lemma {:induction false} Monotone(x: int, y: int)
    requires 0 <= x <= y
    ensures x * x <= y * y
  {
    assert y * y == x * x + (y - x) * (y + x);
    assert (y - x) * (y + x) >= 0;
  }

  lemma {:induction false} SquarePositive(b: int)
    requires b != 0
    ensures b * b > 0
  {
    if b > 0 { assert b * b > 0; } else { assert (-b) * (-b) > 0; }
  }

  /** A trap while multiplying into the result: the power is out of range too. */
  lemma {:induction false} TrapInResult(r: int, b: int, e: nat)
    requires !Fits(r * b) && e % 2 == 1
    ensures !Fits(r * Pow(b, e))
  {
    var k := e / 2;
    assert b == 0 ==> r * b == 0 && Fits(0);
    SquarePositive(b);
    PowSquare(b, k);
    PowPositive(b * b, k);
    var x := Pow(b, 2 * k);
    assert Pow(b, e) == b * x;
    assert r * (b * x) == (r * b) * x;
    Grows(r * b, x);
  }

  /** A trap while squaring, with something left to multiply: the power is out of range too. */
  lemma {:induction false} TrapInSquare(r: int, b: int, k: nat)
    requires !Fits(b * b) && k > 0 && r != 0
    ensures !Fits(r * Pow(b * b, k))
  {
    NotASquare(b);
    PowPositive(b * b, k);
    var m := Pow(b * b, k);
    if r > 0 {
      Grows(m, r);
      assert r * m == m * r;
    } else {
      Grows(m, -r);
      assert r * m == -(m * -r);
    }
  }

  lemma {:induction false} PowStep(r: int, b: int, e: nat)
    requires e > 0
    ensures r * Pow(b, e) == (if e % 2 == 1 then r * b else r) * Pow(b * b, e / 2)
  {
    var k := e / 2;
    PowSquare(b, k);
    if e % 2 == 1 {
      assert Pow(b, e) == b * Pow(b, 2 * k);
      assert r * (b * Pow(b, 2 * k)) == (r * b) * Pow(b, 2 * k);
    }
  }

  /** vt_int_pow: it panics exactly when the power does not fit, and is right otherwise. */
  method IntegerPower(base: int, exp: int) returns (out: Checked)
    requires Fits(base)
    ensures out == if exp < 0 then Value(0) else if Fits(Pow(base, exp)) then Value(Pow(base, exp)) else Overflow
  {
    hide Pow;
    if exp < 0 { return Value(0); }
    var r, b, e := 1, base, exp;
    while e > 0
      invariant e >= 0 && r * Pow(b, e) == Pow(base, exp)
      invariant Fits(r) && (b != 0 ==> r != 0)
    {
      PowStep(r, b, e);
      if e % 2 == 1 {
        var m := Mul(r, b);
        if m.Overflow? {
          TrapInResult(r, b, e);
          return Overflow;
        }
        NonZero(r, b);
        r := m.v;
      }
      e := e / 2;
      if e > 0 {
        var m := Mul(b, b);
        if m.Overflow? {
          NotASquare(b);
          TrapInSquare(r, b, e);
          return Overflow;
        }
        if b == 0 { assert b * b == 0; }
        b := m.v;
      } else {
        PowZero(b * b);
        PowZero(b);
      }
    }
    PowZero(b);
    return Value(r);
  }

  lemma {:induction false} NonZero(r: int, b: int)
    ensures r != 0 && b != 0 ==> r * b != 0
  {
  }

  lemma {:induction false} PowZero(b: int)
    ensures Pow(b, 0) == 1
  {
  }

  // ---------------------------------------------------------------- gcd

  ghost predicate Divides(d: int, n: int) {
    exists k: int :: n == d * k
  }

  lemma {:induction false} DividesStep(d: int, a: int, b: int)
    requires b != 0
    ensures Divides(d, a) && Divides(d, b) <==> Divides(d, b) && Divides(d, a % b)
  {
    var q := a / b;
    assert a == b * q + a % b;
    if Divides(d, b) {
      var y: int :| b == d * y;
      if Divides(d, a) {
        var x: int :| a == d * x;
        assert a % b == d * x - (d * y) * q == d * (x - y * q);
      }
      if Divides(d, a % b) {
        var x: int :| a % b == d * x;
        assert a == (d * y) * q + d * x == d * (y * q + x);
      }
    }
  }

  lemma {:induction false} DividesNegated(d: int, n: int)
    ensures Divides(d, n) <==> Divides(d, -n)
  {
    if Divides(d, n) { var k: int :| n == d * k; assert -n == d * -k; }
    if Divides(d, -n) { var k: int :| -n == d * k; assert n == d * -k; }
  }

  lemma {:induction false} DividesSmall(d: int, n: int)
    requires d > 0 && 0 <= n <= d && Divides(d, n)
    ensures n == 0 || n == d
  {
    var k: int :| n == d * k;
    Multiple(d, k);
  }

  lemma {:induction false} Multiple(d: int, k: int)
    requires d > 0
    ensures (k < 0 ==> d * k < 0) && (k == 0 ==> d * k == 0) && (k == 1 ==> d * k == d) && (k > 1 ==> d * k > d)
  {
    if k > 1 {
      assert d * k == d + d * (k - 1);
      assert d * (k - 1) > 0;
    }
  }

  lemma {:induction false} DividesSelf(d: int)
    ensures Divides(d, d) && Divides(d, 0)
  {
    assert d == d * 1 && 0 == d * 0;
  }

  /** vt_int_gcd: a common divisor that every common divisor divides; it panics exactly when that
      is 2 to the 63, the one value out of range. */
  method GreatestCommonDivisor(a: int, b: int) returns (out: Checked)
    requires Fits(a) && Fits(b)
    ensures out.Value? ==> out.v >= 0 && Fits(out.v) && forall d: int :: Divides(d, out.v) <==>
        Divides(d, a) && Divides(d, b)
    ensures out.Overflow? <==> (a == MIN || b == MIN) && (a == MIN || a == 0) && (b == MIN || b == 0)
  {
    hide Divides;
    var ua, ub := if a < 0 then -(a + 1) + 1 else a, if b < 0 then -(b + 1) + 1 else b;
    ghost var u, v := ua, ub;
    forall d: int ensures (Divides(d, u) <==> Divides(d, a)) && (Divides(d, v) <==> Divides(d, b)) {
      DividesNegated(d, a);
      DividesNegated(d, b);
    }
    while ub != 0
      invariant ua >= 0 && ub >= 0
      invariant forall d: int :: Divides(d, ua) && Divides(d, ub) <==> Divides(d, u) && Divides(d, v)
      invariant u <= -MIN && v <= -MIN && ua <= -MIN && ub <= -MIN
      decreases ub
    {
      forall d: int ensures Divides(d, ua) && Divides(d, ub) <==>
          Divides(d, ub) && Divides(d, ua % ub) { DividesStep(d, ua, ub); }
      var t := ua % ub;
      ua := ub;
      ub := t;
    }
    forall d: int ensures Divides(d, 0) { DividesZero(d); }
    DividesSelf(ua);
    assert Divides(ua, u) && Divides(ua, v);
    if ua > MAX {
      DividesSmall(ua, u);
      DividesSmall(ua, v);
      DividesUp(ua + 1, ua);
      return Overflow;
    }
    if (a == MIN || b == MIN) && (a == MIN || a == 0) && (b == MIN || b == 0) {
      DividesSelf(-MIN);
      assert Divides(-MIN, ua);
      DividesUp(-MIN, ua);
      if ua == 0 { ZeroDivides(u); ZeroDivides(v); }
    }
    return Value(ua);
  }

  lemma {:induction false} DividesZero(d: int)
    ensures Divides(d, 0)
  {
    assert 0 == d * 0;
  }

  lemma {:induction false} DividesUp(d: int, n: int)
    requires n >= 0 && d > 0
    ensures Divides(d, n) ==> n == 0 || n >= d
  {
    forall k: int | n == d * k ensures n == 0 || n >= d { Multiple(d, k); }
  }

  lemma {:induction false} ZeroDivides(n: int)
    requires Divides(0, n)
    ensures n == 0
  {
    var k: int :| n == 0 * k;
  }
}
