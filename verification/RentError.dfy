/** contracts/DecentralizedKV.sol: the integer prices against the discounted rent in real numbers. */
module RentError {
  import opened Words
  import opened BinaryRelated
  import opened PowError
  import opened Rent

  /** What x wei's worth of data costs from t seconds on, for ever, without rounding. */
  ghost function RealRent(dcf: nat, x: nat, t: nat): real {
    x as real * RealPow(Fraction(dcf), t)
  }

  /** A floored product by 2^128, in reals. */
  lemma FloorInReals(x: nat, p: nat)
    ensures TWO_128 as real * (x * p / TWO_128) as real <= x as real * p as real
    ensures x as real * p as real < TWO_128 as real * (x * p / TWO_128) as real + TWO_128 as real
  {
    var a := x * p;
    var q, r := a / TWO_128, a % TWO_128;
    assert a == TWO_128 * q + r;
    assert a as real == x as real * p as real;
  }

  lemma ScaledRent(u: real, x: real, r: real, p: real, loss: real)
    requires 0.0 <= x && u * r - loss <= p <= u * r
    ensures u * (x * r) - x * loss <= x * p <= u * (x * r)
  {
    Swap(u, x, r);
    DistributeLeft(x, u * r, loss);
    Scale(x, u * r - loss, p);
    Scale(x, p, u * r);
  }

  /** A floored amount q against an exact one that the amount before flooring, a, misses by at
      most above and below. */
  lemma Deviation(u: real, q: real, exact: real, a: real, above: real, below: real)
    requires u * q <= a < u * q + u && u * exact - below <= a <= u * exact + above
    ensures u * (q - exact) <= above && u * (exact - q) < below + u
  {
    DistributeLeft(u, q, exact);
    DistributeLeft(u, exact, q);
  }

  lemma NotAbove(u: real, d: real)
    requires u > 0.0 && u * d <= 0.0
    ensures d <= 0.0
  {
  }

  /** The product before flooring, against the real rent. */
  lemma RentProduct(dcf: nat, x: nat, t: nat)
    requires dcf < TWO_128
    ensures var u, a := TWO_128 as real, x as real * Pow(dcf, t) as real;
            u * RealRent(dcf, x, t) - x as real * t as real <= a <= u * RealRent(dcf, x, t)
  {
    hide Pow, RealPow, Fraction;
    PowErrorBound(dcf, t);
    ScaledRent(TWO_128 as real, x as real, RealPow(Fraction(dcf), t), Pow(dcf, t) as real, t as real);
  }

  /** The price is the real rent, less at most x * t / 2^128 wei for the truncated power and less
      than one wei for the final rounding; it never exceeds it. */
  lemma PaymentInfError(dcf: nat, x: nat, t: nat)
    requires dcf < TWO_128
    ensures var q, exact := PaymentInf(dcf, x, t) as real, RealRent(dcf, x, t);
            q <= exact
            && TWO_128 as real * (exact - q) < x as real * t as real + TWO_128 as real
  {
    hide Pow, RealRent;
    var q, exact, a := PaymentInf(dcf, x, t) as real, RealRent(dcf, x, t), x as real * Pow(dcf, t) as real;
    assert TWO_128 as real * q <= a < TWO_128 as real * q + TWO_128 as real by { FloorInReals(x, Pow(dcf, t)); }
    RentProduct(dcf, x, t);
    Deviation(TWO_128 as real, q, exact, a, 0.0, x as real * t as real);
    NotAbove(TWO_128 as real, q - exact);
  }

  lemma Difference(u: real, r0: real, r1: real, x: real, p0: real, p1: real, l0: real, l1: real)
    requires u * r0 - l0 <= x * p0 <= u * r0 && u * r1 - l1 <= x * p1 <= u * r1
    ensures u * (r0 - r1) - l0 <= x * (p0 - p1) <= u * (r0 - r1) + l1
  {
    DistributeLeft(x, p0, p1);
    DistributeLeft(u, r0, r1);
  }

  lemma IntervalFloor(dcf: nat, x: nat, t0: nat, t1: nat)
    requires dcf < TWO_128 && t0 <= t1
    ensures PaymentInInterval(dcf, x, t0, t1).Some?
    ensures var u, q := TWO_128 as real, PaymentInInterval(dcf, x, t0, t1).value as real;
            u * q <= x as real * (Pow(dcf, t0) as real - Pow(dcf, t1) as real) < u * q + u
  {
    hide Pow;
    PowNonIncreasing(dcf, t0, t1);
    FloorInReals(x, Pow(dcf, t0) - Pow(dcf, t1));
    assert (Pow(dcf, t0) - Pow(dcf, t1)) as real == Pow(dcf, t0) as real - Pow(dcf, t1) as real;
  }

  /** What mining over [t0, t1) pays is the real rent of the interval, up to x * t1 / 2^128 above
      it, and below it by less than x * t0 / 2^128 and one wei. */
  lemma IntervalError(dcf: nat, x: nat, t0: nat, t1: nat)
    requires dcf < TWO_128 && t0 <= t1
    ensures PaymentInInterval(dcf, x, t0, t1).Some?
    ensures var q := PaymentInInterval(dcf, x, t0, t1).value as real;
            var exact := RealRent(dcf, x, t0) - RealRent(dcf, x, t1);
            TWO_128 as real * (q - exact) <= x as real * t1 as real
            && TWO_128 as real * (exact - q) < x as real * t0 as real + TWO_128 as real
  {
    hide Pow, RealRent, PaymentInInterval;
    var p0, p1, l0, l1 := Pow(dcf, t0) as real, Pow(dcf, t1) as real, x as real * t0 as real, x as real * t1 as real;
    RentProduct(dcf, x, t0);
    RentProduct(dcf, x, t1);
    Difference(TWO_128 as real, RealRent(dcf, x, t0), RealRent(dcf, x, t1), x as real, p0, p1, l0, l1);
    IntervalFloor(dcf, x, t0, t1);
    Deviation(TWO_128 as real, PaymentInInterval(dcf, x, t0, t1).value as real,
              RealRent(dcf, x, t0) - RealRent(dcf, x, t1), x as real * (p0 - p1), l1, l0);
  }
}
