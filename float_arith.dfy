/**
 * The float64 arithmetic the index computations rely on: NaN and the two
 * infinities produced by division, with finite values kept as exact reals,
 * and numpy's `round(x, 1)` (scale by ten, round half to even, scale back).
 */
module FloatArith {

  /** A float64 value; finite values are exact reals, zero is always +0. */
  datatype Float = Num(x: real) | NaN | Inf(positive: bool)

  /**
   * IEEE 754 division, as numpy divides arrays (no exception on a zero
   * divisor); the sign of an infinite result follows the signs of the operands.
   */
  function Div(a: Float, b: Float): (r: Float)
    ensures r.NaN? <==> a.NaN? || b.NaN? || (a.Inf? && b.Inf?) || (a == Num(0.0) && b == Num(0.0))
    ensures r.Inf? <==> (a.Inf? && b.Num?) || (a.Num? && a.x != 0.0 && b == Num(0.0))
    ensures r.Num? && b.Num? && b.x != 0.0 ==> r.x * b.x == a.x
    ensures a.Num? && b.Inf? ==> r == Num(0.0)
    ensures r.Inf? && a.Num? ==> r.positive == (a.x > 0.0)
    ensures r.Inf? && a.Inf? ==> r.positive == (a.positive == (b.x >= 0.0))
  {
    match (a, b)
    case (NaN, _) => NaN
    case (_, NaN) => NaN
    case (Inf(_), Inf(_)) => NaN
    case (Inf(p), Num(y)) => Inf(if y >= 0.0 then p else !p)
    case (Num(_), Inf(_)) => Num(0.0)
    case (Num(x), Num(y)) =>
      if y != 0.0 then Num(x / y)
      else if x > 0.0 then Inf(true)
      else if x < 0.0 then Inf(false)
      else NaN
  }

  /** Multiplication by a positive constant (the unit and percent factors). */
  function Scale(a: Float, c: real): (r: Float)
    requires c > 0.0
    ensures r.NaN? == a.NaN? && r.Inf? == a.Inf? && (r.Inf? ==> r.positive == a.positive)
    ensures r.Num? ==> r.x == c * a.x
  {
    match a
    case Num(x) => Num(c * x)
    case _ => a
  }

  /** The integer nearest y, ties to the even one (`numpy.rint`). */
  function RoundHalfEven(y: real): (n: int)
    ensures -0.5 <= y - n as real <= 0.5
    ensures (y - n as real == 0.5 || y - n as real == -0.5) ==> n % 2 == 0
  {
    var f := y.Floor;
    var frac := y - f as real;
    if frac < 0.5 then f
    else if frac > 0.5 then f + 1
    else if f % 2 == 0 then f
    else f + 1
  }

  /** No integer is nearer to y than the rounded value. */
  lemma RoundHalfEvenIsNearest(y: real, m: int)
    ensures var n := RoundHalfEven(y);
      (if y >= n as real then y - n as real else n as real - y)
      <= (if y >= m as real then y - m as real else m as real - y)
  {
    var n := RoundHalfEven(y);
    if m > n {
      assert m as real >= n as real + 1.0;
    } else if m < n {
      assert m as real <= n as real - 1.0;
    }
  }

  /** An integer rounds to itself. */
  lemma RoundHalfEvenOfInteger(m: int)
    ensures RoundHalfEven(m as real) == m
  {
  }

  /**
   * `numpy.round(x, 1)`: moves a value by at most 0.05 and lands on a
   * multiple of 0.1.
   */
  function Round1(x: real): (r: real)
    ensures -0.05 <= r - x <= 0.05
    ensures (r * 10.0).Floor as real == r * 10.0
  {
    var n := RoundHalfEven(x * 10.0);
    var r := n as real / 10.0;
    assert r * 10.0 == n as real;
    assert -0.5 <= x * 10.0 - n as real <= 0.5;
    assert r * 10.0 - x * 10.0 == (r - x) * 10.0;
    r
  }

  /** Ten times a value rounded to one decimal is the rounded integer. */
  lemma Round1Scaled(x: real)
    ensures Round1(x) * 10.0 == RoundHalfEven(x * 10.0) as real
  {
  }

  /** Rounding a rounded value changes nothing. */
  lemma Round1Idempotent(x: real)
    ensures Round1(Round1(x)) == Round1(x)
  {
    var n := RoundHalfEven(x * 10.0);
    Round1Scaled(x);
    RoundHalfEvenOfInteger(n);
  }

  /** `numpy.round(a, 1)` on one element: NaN and infinities pass through. */
  function RoundFloat1(a: Float): (r: Float)
    ensures r.NaN? == a.NaN? && r.Inf? == a.Inf? && (r.Inf? ==> r == a)
    ensures r.Num? ==> -0.05 <= r.x - a.x <= 0.05
    ensures a.Num? ==> r == Num(Round1(a.x))
  {
    match a
    case Num(x) => Num(Round1(x))
    case _ => a
  }
}
