/** JavaScript's `%` on numbers: the remainder of a division whose quotient
    is truncated toward zero, modelled on exact reals. */
module JsArith {

  /** The quotient rounded toward zero (Math.trunc). */
  function Trunc(q: real): int {
    if q >= 0.0 then q.Floor else -((-q).Floor)
  }

  /** What truncation drops from q: the fractional part, with q's sign. */
  function Frac(q: real): real {
    q - Trunc(q) as real
  }

  /** `x % m` for m > 0: the divisor times the dropped fraction of x / m. */
  function TruncRem(x: real, m: real): real
    requires m > 0.0
  {
    m * Frac(x / m)
  }

  predicate IsWhole(q: real) {
    q.Floor as real == q
  }

  /** TruncRem is the usual x - m * trunc(x / m). */
  lemma TruncRemIsDividendMinusTruncated(x: real, m: real)
    requires m > 0.0
    ensures TruncRem(x, m) == x - m * Trunc(x / m) as real
  {
    var q := x / m;
    var t := Trunc(q) as real;
    assert m * q == x;
    assert m * (q - t) == m * q - m * t;
  }

  /** The dropped fraction is less than one in size and has q's sign; it is
      zero exactly for whole q, and q itself for |q| < 1. */
  lemma FracBounds(q: real)
    ensures q >= 0.0 ==> 0.0 <= Frac(q) < 1.0
    ensures q <= 0.0 ==> -1.0 < Frac(q) <= 0.0
    ensures Frac(q) == 0.0 <==> IsWhole(q)
    ensures -1.0 < q < 1.0 ==> Frac(q) == q
  {
    if q < 0.0 && IsWhole(q) {
      assert (-q).Floor == -(q.Floor);
    }
  }

  /** Multiplying by a positive number keeps an order, strict or not. */
  lemma ScaleOrder(m: real, a: real, b: real)
    requires m > 0.0
    ensures a <= b ==> m * a <= m * b
    ensures a < b ==> m * a < m * b
  {
    assert m * b - m * a == m * (b - a);
  }

  /** The quotient by a positive divisor has the dividend's sign. */
  lemma QuotientSign(x: real, m: real)
    requires m > 0.0
    ensures x >= 0.0 ==> x / m >= 0.0
    ensures x <= 0.0 ==> x / m <= 0.0
  {
    var q := x / m;
    assert x == m * q;
    ScaleOrder(m, q, 0.0);
    ScaleOrder(m, 0.0, q);
  }

  /** A dividend within one divisor of zero has a quotient within one of zero. */
  lemma SmallQuotient(x: real, m: real)
    requires m > 0.0 && -m < x < m
    ensures -1.0 < x / m < 1.0
  {
    var q := x / m;
    assert x == m * q;
    ScaleOrder(m, 1.0, q);
    assert m * 1.0 == m;
    ScaleOrder(m, q, -1.0);
    assert m * -1.0 == -m;
  }

  /** A fraction of a positive divisor stays within one divisor of zero, on
      the fraction's side. */
  lemma ScaledFraction(m: real, f: real)
    requires m > 0.0 && -1.0 < f < 1.0
    ensures f >= 0.0 ==> 0.0 <= m * f < m
    ensures f <= 0.0 ==> -m < m * f <= 0.0
  {
    ScaleOrder(m, 0.0, f);
    ScaleOrder(m, f, 1.0);
    assert m * 1.0 == m;
    ScaleOrder(m, -1.0, f);
    assert m * -1.0 == -m;
    ScaleOrder(m, f, 0.0);
  }

  lemma TruncRemNonneg(x: real, m: real)
    requires m > 0.0 && x >= 0.0
    ensures 0.0 <= TruncRem(x, m) < m
  {
    var q := x / m;
    assert q >= 0.0 by { QuotientSign(x, m); }
    assert 0.0 <= Frac(q) < 1.0 by { FracBounds(q); }
    ScaledFraction(m, Frac(q));
    assert 0.0 <= m * Frac(q) < m;
    assert TruncRem(x, m) == m * Frac(q);
  }

  lemma TruncRemNonpos(x: real, m: real)
    requires m > 0.0 && x <= 0.0
    ensures -m < TruncRem(x, m) <= 0.0
  {
    var q := x / m;
    assert q <= 0.0 by { QuotientSign(x, m); }
    assert -1.0 < Frac(q) <= 0.0 by { FracBounds(q); }
    ScaledFraction(m, Frac(q));
    assert -m < m * Frac(q) <= 0.0;
    assert TruncRem(x, m) == m * Frac(q);
  }

  lemma TruncRemSmall(x: real, m: real)
    requires m > 0.0 && -m < x < m
    ensures TruncRem(x, m) == x
  {
    SmallQuotient(x, m);
    FracBounds(x / m);
    assert m * (x / m) == x;
  }

  /** The remainder lies strictly within one divisor of zero, keeps the sign
      of x, and leaves x alone when |x| < m. */
  lemma TruncRemBounds(x: real, m: real)
    requires m > 0.0
    ensures x >= 0.0 ==> 0.0 <= TruncRem(x, m) < m
    ensures x <= 0.0 ==> -m < TruncRem(x, m) <= 0.0
    ensures -m < x < m ==> TruncRem(x, m) == x
  {
    if x >= 0.0 { TruncRemNonneg(x, m); }
    if x <= 0.0 { TruncRemNonpos(x, m); }
    if -m < x < m { TruncRemSmall(x, m); }
  }

  /** The remainder differs from x by a whole number of divisors. */
  lemma TruncRemWholeTurns(x: real, m: real)
    requires m > 0.0
    ensures IsWhole((x - TruncRem(x, m)) / m)
  {
    var t := Trunc(x / m) as real;
    TruncRemIsDividendMinusTruncated(x, m);
    assert x - TruncRem(x, m) == m * t;
    assert (m * t) / m == t;
  }

  /** `x % m === 0` holds exactly when x is a whole multiple of m. */
  lemma TruncRemZeroIff(x: real, m: real)
    requires m > 0.0
    ensures TruncRem(x, m) == 0.0 <==> IsWhole(x / m)
  {
    FracBounds(x / m);
    if TruncRem(x, m) == 0.0 {
      assert Frac(x / m) == 0.0;
    }
  }
}
