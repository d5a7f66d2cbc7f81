/** How far the truncating power of contracts/BinaryRelated.sol is from the real power. */
module PowError {
  import opened Words
  import opened BinaryRelated

  ghost function RealPow(x: real, n: nat): real {
    if n == 0 then 1.0 else x * RealPow(x, n - 1)
  }

  /** The fraction that a Q128.128 word stands for. */
  ghost function Fraction(fp: nat): real {
    fp as real / TWO_128 as real
  }

  // ---------------------------------------------------------------- small facts on reals

  lemma Scale(k: real, a: real, b: real)
    requires 0.0 <= k && a <= b
    ensures k * a <= k * b
  {
  }

  lemma ScaleUnit(a: real, b: real)
    requires 0.0 <= a <= 1.0 && 0.0 <= b
    ensures 0.0 <= a * b <= b
  {
  }

  lemma Swap(a: real, b: real, c: real)
    ensures a * (b * c) == b * (a * c)
  {
  }

  lemma Reassociate(a: real, b: real, c: real)
    ensures a * (b * c) == (a * b) * c
  {
  }

  lemma DistributeLeft(a: real, b: real, c: real)
    ensures a * (b - c) == a * b - a * c
  {
  }

  lemma DistributeRight(a: real, b: real, c: real)
    ensures (a + b) * c == a * c + b * c
  {
  }

  lemma AddInequalities(a: real, b: real, c: real, d: real)
    requires a <= b && c <= d
    ensures a + c <= b + d
  {
  }

  // ---------------------------------------------------------------- the real power

  lemma RealPowZero(x: real)
    ensures RealPow(x, 0) == 1.0
  {
  }

  lemma RealPowStep(x: real, n: nat)
    requires n > 0
    ensures RealPow(x, n) == x * RealPow(x, n - 1)
  {
  }

  lemma {:induction false} RealPowUnit(x: real, n: nat)
    requires 0.0 <= x <= 1.0
    ensures 0.0 <= RealPow(x, n) <= 1.0
  {
    if n > 0 {
      RealPowUnit(x, n - 1);
      ScaleUnit(x, RealPow(x, n - 1));
    }
  }

  lemma {:induction false} RealPowMonotone(x: real, y: real, n: nat)
    requires 0.0 <= x <= y
    ensures 0.0 <= RealPow(x, n) <= RealPow(y, n)
  {
    if n > 0 {
      RealPowMonotone(x, y, n - 1);
      var p, q := RealPow(x, n - 1), RealPow(y, n - 1);
      Scale(x, 0.0, p);
      Scale(p, x, y);
      Scale(y, p, q);
    }
  }

  lemma {:induction false} RealPowSquare(x: real, n: nat)
    ensures RealPow(x * x, n) == RealPow(x, 2 * n)
  {
    if n > 0 {
      RealPowSquare(x, n - 1);
      var p := RealPow(x, 2 * (n - 1));
      assert RealPow(x, 2 * n) == x * RealPow(x, 2 * n - 1);
      assert RealPow(x, 2 * n - 1) == x * p;
      Reassociate(x, x, p);
    }
  }

  /** On [0, 1] the n-th power is n-Lipschitz. */
  lemma {:induction false} RealPowLipschitz(x: real, y: real, n: nat)
    requires 0.0 <= x <= y <= 1.0
    ensures RealPow(y, n) - RealPow(x, n) <= n as real * (y - x)
  {
    hide RealPow;
    if n == 0 {
      assert RealPow(x, 0) == RealPow(y, 0) by { RealPowZero(x); RealPowZero(y); }
      Scale(0.0, x, y);
    } else {
      RealPowStep(x, n);
      RealPowStep(y, n);
      var p, q := RealPow(x, n - 1), RealPow(y, n - 1);
      assert 0.0 <= p <= 1.0 && p <= q by {
        RealPowUnit(x, n - 1);
        RealPowMonotone(x, y, n - 1);
      }
      assert q - p <= (n - 1) as real * (y - x) by { RealPowLipschitz(x, y, n - 1); }
      assert n as real == (n - 1) as real + 1.0;
      LipschitzStep(x, y, p, q, RealPow(x, n), RealPow(y, n), (n - 1) as real, n as real);
    }
  }

  lemma LipschitzStep(x: real, y: real, p: real, q: real, xp: real, yq: real, m: real, k: real)
    requires 0.0 <= x <= y <= 1.0 && 0.0 <= p <= 1.0 && p <= q && k == m + 1.0
    requires xp == x * p && yq == y * q
    requires q - p <= m * (y - x)
    ensures yq - xp <= k * (y - x)
  {
    var d, e := y - x, q - p;
    assert y * q - x * p == y * e + p * d by {
      DistributeLeft(y, q, p);
      DistributeLeft(p, y, x);
    }
    ScaleUnit(y, e);
    ScaleUnit(p, d);
    DistributeRight(m, 1.0, d);
    AddInequalities(y * e, m * d, p * d, d);
  }

  // ---------------------------------------------------------------- one truncating step

  /** x is the fraction fp / 2^128, written without a division. */
  ghost predicate Reads(x: real, fp: nat) {
    x * TWO_128 as real == fp as real
  }

  lemma Reading(fp: nat) returns (x: real)
    ensures Reads(x, fp)
  {
    x := Fraction(fp);
  }

  /** One truncating product loses less than one unit. */
  lemma MulFpError(a: nat, b: nat, y: real)
    requires Reads(y, b)
    ensures a as real * y - 1.0 <= MulFp(a, b) as real <= a as real * y
  {
    var q, r := a * b / TWO_128, a * b % TWO_128;
    assert a * b == q * TWO_128 + r;
    assert (a * b) as real == a as real * b as real;
    Reassociate(a as real, y, TWO_128 as real);
  }

  /** Squaring the base loses at most one unit in the last place, u = 2^-128. */
  lemma SquareError(fp: nat, x: real, z: real, u: real)
    requires Reads(x, fp) && Reads(z, MulFp(fp, fp)) && u * TWO_128 as real == 1.0
    ensures x * x - u <= z <= x * x
  {
    MulFpError(fp, fp, x);
    Swap(x, x, TWO_128 as real);
    assert fp as real * x == x * x * TWO_128 as real;
  }

  /** The loss in the base, carried to the m-th power, is at most m times as large. */
  lemma SquaredBaseLowerBound(x: real, z: real, u: real, m: nat)
    requires 0.0 <= x <= 1.0 && 0.0 <= z && x * x - u <= z <= x * x
    ensures RealPow(z, m) >= RealPow(x, 2 * m) - m as real * u
  {
    var y := x * x;
    ScaleUnit(x, x);
    RealPowLipschitz(z, y, m);
    RealPowSquare(x, m);
    Scale(m as real, y - z, u);
  }

  // ---------------------------------------------------------------- the lower bound

  lemma ScaledLoss(v: real, p: real, q: real, m: real, u: real)
    requires 0.0 <= v && v * u <= 1.0 && 0.0 <= m && q >= p - m * u
    ensures v * q >= v * p - m
  {
    Scale(v, p - m * u, q);
    DistributeLeft(v, p, m * u);
    Swap(v, m, u);
    Scale(m, v * u, 1.0);
  }

  lemma Chain(qw: real, qt: real, tp: real, q: real, m: real)
    requires qt - q <= qw && tp - m <= qt && q <= 1.0
    ensures qw >= tp - m - 1.0
  {
  }

  lemma OddLoss(t: real, p: real, q: real, w: real, m: real, u: real)
    requires 0.0 <= t && t * u <= 1.0 && 0.0 <= q <= 1.0 && 0.0 <= m
    requires t - 1.0 <= w
    requires q >= p - m * u
    ensures w * q >= t * p - m - 1.0
  {
    Scale(q, t - 1.0, w);
    DistributeLeft(q, t, 1.0);
    ScaledLoss(t, p, q, m, u);
    Chain(w * q, t * q, t * p, q, m);
  }

  lemma OddLowerLoss(v: real, x: real, p: real, xp: real, q: real, w: real, m: real, u: real, r: real)
    requires 0.0 <= v && v * u <= 1.0 && 0.0 <= u && 0.0 <= x <= 1.0 && 0.0 <= q <= 1.0 && 0.0 <= m
    requires v * x - 1.0 <= w && q >= p - m * u && xp == x * p
    requires r >= w * q - m
    ensures r >= v * xp - (m + m + 1.0)
  {
    ScaleUnit(x, v);
    Scale(u, v * x, v);
    OddLoss(v * x, p, q, w, m, u);
    Reassociate(v, x, p);
  }

  lemma UnitFraction(fp: nat, x: real, u: real)
    requires fp < TWO_128 && Reads(x, fp) && u * TWO_128 as real == 1.0
    ensures 0.0 <= x <= 1.0 && 0.0 <= u
  {
  }

  lemma OddLowerStep(v: nat, fp: nat, n: nat, x: real, z: real, u: real, r: real)
    requires v <= TWO_128 && fp < TWO_128 && u * TWO_128 as real == 1.0 && n % 2 == 1
    requires Reads(x, fp) && Reads(z, MulFp(fp, fp))
    requires r >= MulFp(v, fp) as real * RealPow(z, n / 2) - (n / 2) as real
    ensures r >= v as real * RealPow(x, n) - n as real
  {
    hide RealPow, MulFp;
    RealPowStep(x, n);
    var m, p, q, w := n / 2, RealPow(x, n - 1), RealPow(z, n / 2), MulFp(v, fp) as real;
    assert q >= p - m as real * u && 0.0 <= q <= 1.0 by {
      assert n - 1 == 2 * m;
      SquareError(fp, x, z, u);
      SquaredBaseLowerBound(x, z, u, m);
      MulFpBelow(fp, fp);
      RealPowUnit(z, m);
    }
    assert v as real * x - 1.0 <= w by { MulFpError(v, fp, x); }
    assert 0.0 <= x <= 1.0 && 0.0 <= u by { UnitFraction(fp, x, u); }
    assert v as real * u <= 1.0 by { Scale(u, v as real, TWO_128 as real); }
    assert n as real == m as real + m as real + 1.0;
    OddLowerLoss(v as real, x, p, RealPow(x, n), q, w, m as real, u, r);
  }

  lemma EvenLowerStep(v: nat, fp: nat, n: nat, x: real, z: real, u: real, r: real)
    requires v <= TWO_128 && fp < TWO_128 && u * TWO_128 as real == 1.0 && n % 2 == 0
    requires Reads(x, fp) && Reads(z, MulFp(fp, fp))
    requires r >= v as real * RealPow(z, n / 2) - (n / 2) as real
    ensures r >= v as real * RealPow(x, n) - n as real
  {
    var m := n / 2;
    SquareError(fp, x, z, u);
    SquaredBaseLowerBound(x, z, u, m);
    Scale(u, v as real, TWO_128 as real);
    ScaledLoss(v as real, RealPow(x, 2 * m), RealPow(z, m), m as real, u);
    assert n == 2 * m;
  }

  /** The accumulator may lag by one unit for each unit of the exponent, never more. */
  lemma {:induction false} PowFromLowerBound(v: nat, fp: nat, n: nat, x: real, u: real)
    requires v <= TWO_128 && fp < TWO_128 && Reads(x, fp) && u * TWO_128 as real == 1.0
    ensures PowFrom(v, fp, n) as real >= v as real * RealPow(x, n) - n as real
    decreases n
  {
    hide RealPow, MulFp, Reads;
    if n == 0 {
      RealPowZero(x);
    } else {
      var z := Reading(MulFp(fp, fp));
      MulFpBelow(fp, fp);
      if n % 2 == 1 {
        MulFpBelow(v, fp);
        PowFromLowerBound(MulFp(v, fp), MulFp(fp, fp), n / 2, z, u);
        OddLowerStep(v, fp, n, x, z, u, PowFrom(v, fp, n) as real);
      } else {
        PowFromLowerBound(v, MulFp(fp, fp), n / 2, z, u);
        EvenLowerStep(v, fp, n, x, z, u, PowFrom(v, fp, n) as real);
      }
    }
  }

  // ---------------------------------------------------------------- the upper bound

  lemma SquaredBaseUpperBound(w: real, fp: nat, m: nat, x: real, z: real, u: real)
    requires 0.0 <= w && Reads(x, fp) && Reads(z, MulFp(fp, fp)) && u * TWO_128 as real == 1.0
    ensures w * RealPow(z, m) <= w * RealPow(x, 2 * m)
  {
    SquareError(fp, x, z, u);
    RealPowMonotone(z, x * x, m);
    RealPowSquare(x, m);
    Scale(w, RealPow(z, m), RealPow(x, 2 * m));
  }

  lemma EvenUpperStep(v: nat, fp: nat, n: nat, x: real, z: real, u: real, r: real)
    requires Reads(x, fp) && Reads(z, MulFp(fp, fp)) && u * TWO_128 as real == 1.0 && n % 2 == 0
    requires r <= v as real * RealPow(z, n / 2)
    ensures r <= v as real * RealPow(x, n)
  {
    SquaredBaseUpperBound(v as real, fp, n / 2, x, z, u);
    assert n == 2 * (n / 2);
  }

  lemma OddUpperStep(v: nat, fp: nat, n: nat, x: real, z: real, u: real, r: real)
    requires Reads(x, fp) && Reads(z, MulFp(fp, fp)) && u * TWO_128 as real == 1.0 && n % 2 == 1
    requires r <= MulFp(v, fp) as real * RealPow(z, n / 2)
    ensures r <= v as real * RealPow(x, n)
  {
    hide RealPow, MulFp;
    RealPowStep(x, n);
    var p, w := RealPow(x, n - 1), MulFp(v, fp) as real;
    SquaredBaseUpperBound(w, fp, n / 2, x, z, u);
    assert n - 1 == 2 * (n / 2);
    MulFpError(v, fp, x);
    RealPowMonotone(x, x, n - 1);
    Scale(p, w, v as real * x);
    Reassociate(v as real, x, p);
  }

  lemma {:induction false} PowFromUpperBound(v: nat, fp: nat, n: nat, x: real, u: real)
    requires Reads(x, fp) && u * TWO_128 as real == 1.0
    ensures PowFrom(v, fp, n) as real <= v as real * RealPow(x, n)
    decreases n
  {
    if n == 0 {
    } else {
      var z := Reading(MulFp(fp, fp));
      if n % 2 == 1 {
        PowFromUpperBound(MulFp(v, fp), MulFp(fp, fp), n / 2, z, u);
        OddUpperStep(v, fp, n, x, z, u, PowFrom(v, fp, n) as real);
      } else {
        PowFromUpperBound(v, MulFp(fp, fp), n / 2, z, u);
        EvenUpperStep(v, fp, n, x, z, u, PowFrom(v, fp, n) as real);
      }
    }
  }

  // ---------------------------------------------------------------- the main result

  /** The Q128.128 power is the real power rounded down by at most n units in the last place. */
  lemma PowErrorBound(fp: nat, n: nat)
    requires fp < TWO_128
    ensures TWO_128 as real * RealPow(Fraction(fp), n) - n as real
            <= Pow(fp, n) as real
            <= TWO_128 as real * RealPow(Fraction(fp), n)
  {
    PowFromLowerBound(TWO_128, fp, n, Fraction(fp), Fraction(1));
    PowFromUpperBound(TWO_128, fp, n, Fraction(fp), Fraction(1));
  }
}
