/** The numeric conversions the analyzer applies to its results:
    `round(x, d)` on numpy floats (round half to even at `d` decimals) and
    `int(x)` (truncation toward zero). Binary floating point itself is not
    modelled: values are exact reals. */
module Rounding {

  function Pow10(n: nat): (r: nat)
    ensures r >= 1
  {
    if n == 0 then 1 else 10 * Pow10(n - 1)
  }

  /** The integer nearest to `x`, ties to the even neighbour (numpy `rint`). */
  function RoundHalfEven(x: real): (r: int)
    ensures x - 0.5 <= r as real <= x + 0.5
    ensures x == x.Floor as real ==> r == x.Floor
  {
    var f := x.Floor;
    var frac := x - f as real;
    if frac < 0.5 then f
    else if frac > 0.5 then f + 1
    else if f % 2 == 0 then f
    else f + 1
  }

  /** Rounding to a multiple of `1 / scale`. */
  function RoundAt(x: real, scale: real): real
    requires scale >= 1.0
  {
    RoundHalfEven(x * scale) as real / scale
  }

  /** `round(x, digits)`: scale, round half to even, scale back. */
  function Round(x: real, digits: nat): real {
    RoundAt(x, Pow10(digits) as real)
  }

  /** Dividing by a positive number keeps the order. */
  lemma DivMonotone(a: real, b: real, s: real)
    requires s > 0.0 && a <= b
    ensures a / s <= b / s
  {
    var q := (b - a) / s;
    assert q * s == b - a;
    assert b / s - a / s == q;
  }

  lemma DivSub(a: real, b: real, s: real)
    requires s > 0.0
    ensures (a - b * s) / s == a / s - b
  {
  }

  lemma RoundAtError(x: real, scale: real)
    requires scale >= 1.0
    ensures -0.5 / scale <= RoundAt(x, scale) - x <= 0.5 / scale
  {
    var y := x * scale;
    var n := RoundHalfEven(y);
    assert y - 0.5 <= n as real <= y + 0.5;
    DivSub(n as real, x, scale);
    assert RoundAt(x, scale) - x == (n as real - y) / scale;
    DivMonotone(n as real - y, 0.5, scale);
    DivMonotone(-0.5, n as real - y, scale);
  }

  /** `x` lies within `eps` of `y`. */
  predicate Within(x: real, y: real, eps: real) {
    -eps <= x - y <= eps
  }

  /** A rounded value is within half a unit of the last kept decimal. */
  lemma RoundError(x: real, digits: nat)
    ensures -0.5 / Pow10(digits) as real <= Round(x, digits) - x <= 0.5 / Pow10(digits) as real
  {
    RoundAtError(x, Pow10(digits) as real);
  }

  lemma RoundAtMultiple(r: real, n: int, scale: real)
    requires scale >= 1.0
    requires r * scale == n as real
    ensures RoundAt(r, scale) == r
  {
    assert (n as real).Floor == n;
    assert RoundHalfEven(r * scale) == n;
    assert n as real / scale == r;
  }

  lemma RoundAtIdempotent(x: real, scale: real)
    requires scale >= 1.0
    ensures RoundAt(RoundAt(x, scale), scale) == RoundAt(x, scale)
  {
    var n := RoundHalfEven(x * scale);
    var r := RoundAt(x, scale);
    assert r == n as real / scale;
    assert r * scale == n as real;
    RoundAtMultiple(r, n, scale);
  }

  /** Rounding twice to the same precision changes nothing the second time. */
  lemma RoundIdempotent(x: real, digits: nat)
    ensures Round(Round(x, digits), digits) == Round(x, digits)
  {
    RoundAtIdempotent(x, Pow10(digits) as real);
  }

  lemma RoundHalfEvenWithin(y: real, a: int, b: int)
    requires a as real <= y <= b as real
    ensures a <= RoundHalfEven(y) <= b
  {
    assert a <= y.Floor <= b;
    if y.Floor == b {
      assert y == b as real;
    }
  }

  /** A percentage rounded to two decimals is still a percentage. */
  lemma RoundPercent(x: real)
    requires 0.0 <= x <= 100.0
    ensures 0.0 <= Round(x, 2) <= 100.0
  {
    assert Pow10(2) == 100;
    var y := x * 100.0;
    RoundHalfEvenWithin(y, 0, 10000);
    assert Round(x, 2) == RoundHalfEven(y) as real / 100.0;
  }

  lemma RoundAtSign(x: real, scale: real)
    requires scale >= 1.0
    ensures x >= 0.0 ==> RoundAt(x, scale) >= 0.0
    ensures x <= 0.0 ==> RoundAt(x, scale) <= 0.0
  {
    var n := RoundHalfEven(x * scale);
    if x >= 0.0 {
      assert x * scale >= 0.0;
      assert n >= 0;
    } else {
      assert x * scale <= 0.0;
      assert n <= 0;
    }
  }

  /** Rounding never flips the sign of a value (it may round it to zero). */
  lemma RoundSign(x: real, digits: nat)
    ensures x >= 0.0 ==> Round(x, digits) >= 0.0
    ensures x <= 0.0 ==> Round(x, digits) <= 0.0
  {
    RoundAtSign(x, Pow10(digits) as real);
  }

  /** Python `int(x)` on a float: truncation toward zero. */
  function Trunc(x: real): (r: int)
    ensures x >= 0.0 ==> 0 <= r && r as real <= x < r as real + 1.0
    ensures x < 0.0 ==> r <= 0 && r as real - 1.0 < x <= r as real
  {
    if x >= 0.0 then x.Floor else -((-x).Floor)
  }

  /** The model's two readings of the analyzer's arithmetic: `Rounded` applies
      every `round(...)` as written; `Exact` reads each as the identity, the
      reading under which the analyzer's algebraic identities hold. */
  datatype Arith = Exact | Rounded

  function Rnd(mode: Arith, x: real, digits: nat): real {
    match mode
    case Exact => x
    case Rounded => Round(x, digits)
  }

  lemma RndZero(mode: Arith, digits: nat)
    ensures Rnd(mode, 0.0, digits) == 0.0
  {
    RoundSign(0.0, digits);
  }

  /** A whole number: what the truncation `int(...)` leaves unchanged. */
  predicate Whole(x: real) {
    x == x.Floor as real
  }

  lemma WholeTrunc(x: real)
    requires Whole(x)
    ensures Trunc(x) as real == x
  {
    if x < 0.0 {
      assert -x == (-x.Floor) as real;
      assert (-x).Floor == -x.Floor;
    }
  }

  lemma WholeAdd(x: real, y: real)
    requires Whole(x) && Whole(y)
    ensures Whole(x + y)
  {
    assert x + y == (x.Floor + y.Floor) as real;
  }
}
