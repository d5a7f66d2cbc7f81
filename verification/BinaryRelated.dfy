/** contracts/BinaryRelated.sol: the Q128.128 power and the next power of two. */
module BinaryRelated {
  import opened Words
  import opened Arithmetic

  /** A truncating fixed-point product: (a * b) >> 128. */
  function MulFp(a: nat, b: nat): nat {
    a * b / TWO_128
  }

  /** What the square-and-multiply loop returns from accumulator v, base fp and exponent n. */
  function PowFrom(v: nat, fp: nat, n: nat): nat
    decreases n
  {
    if n == 0 then v
    else PowFrom(if n % 2 == 1 then MulFp(v, fp) else v, MulFp(fp, fp), n / 2)
  }

  function Pow(fp: nat, n: nat): nat {
    PowFrom(TWO_128, fp, n)
  }

  // ---------------------------------------------------------------- the loop itself

  /** Products of fractions stay fractions. */
  lemma MulFpBelow(a: nat, b: nat)
    requires b <= TWO_128
    ensures MulFp(a, b) <= a
    ensures a < TWO_128 ==> MulFp(a, b) < TWO_128
  {
    MulMonotone(a, b, a, TWO_128);
  }

  lemma MulFpMonotone(a: nat, b: nat, c: nat, d: nat)
    requires a <= c && b <= d
    ensures MulFp(a, b) <= MulFp(c, d)
  {
    MulMonotone(a, b, c, d);
  }

  lemma ProductFits(a: nat, b: nat)
    requires a <= TWO_128 && b < TWO_128
    ensures a * b < TWO_256
  {
    MulMonotone(a, b, TWO_128, TWO_128 - 1);
  }

  lemma SquareOverflows(a: nat)
    requires a >= TWO_128
    ensures a * a >= TWO_256
  {
    MulMonotone(TWO_128, TWO_128, a, a);
  }

  /** The loop with uint256's checked products. It reverts on every fp of at least 1.0,
      even at n = 1, because the base is squared once more than it is used. */
  method PowLoop(fp: nat, n: nat) returns (r: Option<nat>)
    ensures r.Some? <==> n == 0 || fp < TWO_128
    ensures r.Some? ==> r.value == Pow(fp, n)
  {
    var v: nat, f: nat, k: nat := TWO_128, fp, n;
    while k != 0
      invariant fp < TWO_128 ==> f < TWO_128 && v <= TWO_128
      invariant fp >= TWO_128 ==> k == n && f == fp
      invariant PowFrom(v, f, k) == Pow(fp, n)
    {
      if f < TWO_128 {
        ProductFits(v, f);
        ProductFits(f, f);
        MulFpBelow(v, f);
        MulFpBelow(f, f);
      } else {
        SquareOverflows(f);
      }
      if k % 2 == 1 {
        if v * f >= TWO_256 {
          return None;
        }
        v := v * f / TWO_128;
      }
      if f * f >= TWO_256 {
        return None;
      }
      f := f * f / TWO_128;
      k := k / 2;
    }
    return Some(v);
  }

  // ---------------------------------------------------------------- monotone in the exponent

  lemma {:induction false} PowFromMonotoneInAccumulator(v: nat, w: nat, fp: nat, n: nat)
    requires v <= w
    ensures PowFrom(v, fp, n) <= PowFrom(w, fp, n)
    decreases n
  {
    if n == 0 {
    } else {
      MulFpMonotone(v, fp, w, fp);
      PowFromMonotoneInAccumulator(if n % 2 == 1 then MulFp(v, fp) else v,
                                   if n % 2 == 1 then MulFp(w, fp) else w,
                                   MulFp(fp, fp), n / 2);
    }
  }

  /** Passing from n to n + 1 replaces a run of trailing ones by one higher bit. Along the run
      the accumulator of n stays at least the base that n + 1 will multiply by. */
  lemma {:induction false} CarryNeverGains(v: nat, fp: nat, n: nat)
    requires fp <= v <= TWO_128
    ensures PowFrom(TWO_128, fp, n + 1) <= PowFrom(v, fp, n)
    decreases n
  {
    var f2 := MulFp(fp, fp);
    if n % 2 == 0 {
      assert MulFp(TWO_128, fp) == fp;
      assert (n + 1) / 2 == n / 2;
      PowFromMonotoneInAccumulator(fp, v, f2, n / 2);
      assert PowFrom(v, fp, n) == PowFrom(v, f2, n / 2) by {
        if n == 0 {}
      }
    } else {
      assert (n + 1) / 2 == n / 2 + 1;
      MulFpMonotone(fp, fp, v, fp);
      MulFpBelow(v, fp);
      CarryNeverGains(MulFp(v, fp), f2, n / 2);
    }
  }

  /** Truncation at every step does not disturb monotonicity: the price never rises. */
  lemma {:induction false} PowNonIncreasing(fp: nat, m: nat, n: nat)
    requires fp < TWO_128 && m <= n
    ensures Pow(fp, n) <= Pow(fp, m)
    decreases n - m
  {
    if m < n {
      CarryNeverGains(TWO_128, fp, n - 1);
      PowNonIncreasing(fp, m, n - 1);
    }
  }
}
