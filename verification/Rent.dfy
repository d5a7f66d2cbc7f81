/** contracts/DecentralizedKV.sol: the price of storing x wei's worth of data from a time on. */
module Rent {
  import opened Words
  import opened Arithmetic
  import opened BinaryRelated

  /** Payment from t0 on, for ever: (x * pow(dcfFactor, t0)) >> 128. */
  function PaymentInf(dcf: nat, x: nat, t0: nat): nat {
    x * Pow(dcf, t0) / TWO_128
  }

  /** Payment over [t0, t1); the checked subtraction of the two powers may revert. */
  function PaymentInInterval(dcf: nat, x: nat, t0: nat, t1: nat): Option<nat> {
    if Pow(dcf, t0) < Pow(dcf, t1) then None
    else Some(x * (Pow(dcf, t0) - Pow(dcf, t1)) / TWO_128)
  }

  // ---------------------------------------------------------------- floors

  lemma FloorOfSum(a: nat, b: nat)
    ensures a / TWO_128 + b / TWO_128 <= (a + b) / TWO_128 <= a / TWO_128 + b / TWO_128 + 1
  {
  }

  /** Scaling a floor by e loses exactly the scaled remainder, which is below e. */
  lemma FloorOfMultiple(e: nat, a: nat)
    ensures e * a / TWO_128 == e * (a / TWO_128) + e * (a % TWO_128) / TWO_128
    ensures e > 0 ==> e * (a % TWO_128) / TWO_128 <= e - 1
  {
    var q, r := a / TWO_128, a % TWO_128;
    assert e * a == e * q * TWO_128 + e * r by {
      assert a == q * TWO_128 + r;
      ThreeFactors(e, q, r);
    }
    MultipleOut(e * q, e * r);
    if e > 0 {
      MulMonotone(e, r, e, TWO_128 - 1);
    }
  }

  lemma ThreeFactors(e: nat, q: nat, r: nat)
    ensures e * (q * TWO_128 + r) == e * q * TWO_128 + e * r
  {
  }

  lemma MultipleOut(m: nat, r: nat)
    ensures (m * TWO_128 + r) / TWO_128 == m + r / TWO_128
  {
  }

  // ---------------------------------------------------------------- payments

  lemma PowAtMostOne(dcf: nat, t: nat)
    requires dcf < TWO_128
    ensures Pow(dcf, t) <= TWO_128
  {
    PowNonIncreasing(dcf, 0, t);
  }

  /** No product in a payment reaches 2^256, and no payment exceeds its principal. */
  lemma PaymentFits(dcf: nat, x: nat, t: nat)
    requires dcf < TWO_128 && x < TWO_128
    ensures x * Pow(dcf, t) < TWO_256 && PaymentInf(dcf, x, t) <= x
  {
    PowAtMostOne(dcf, t);
    MulMonotone(x, Pow(dcf, t), x, TWO_128);
    MulMonotone(x, TWO_128, TWO_128 - 1, TWO_128);
  }

  lemma PaymentAtStart(dcf: nat, x: nat)
    ensures PaymentInf(dcf, x, 0) == x
  {
  }

  /** Prices only fall. */
  lemma PaymentNonIncreasing(dcf: nat, x: nat, t0: nat, t1: nat)
    requires dcf < TWO_128 && t0 <= t1
    ensures PaymentInf(dcf, x, t1) <= PaymentInf(dcf, x, t0)
  {
    PowNonIncreasing(dcf, t0, t1);
    MulMonotone(x, Pow(dcf, t1), x, Pow(dcf, t0));
  }

  lemma SplitProduct(x: nat, a: nat, b: nat, c: nat)
    requires a >= b >= c
    ensures x * (a - c) == x * (a - b) + x * (b - c)
  {
  }

  /** The interval payment never reverts, and what is paid for [t0, t1) and what is still owed
      from t1 on make up what was owed from t0 on, or fall short of it by one wei. */
  lemma IntervalLeavesRest(dcf: nat, x: nat, t0: nat, t1: nat)
    requires dcf < TWO_128 && t0 <= t1
    ensures PaymentInInterval(dcf, x, t0, t1).Some?
    ensures PaymentInInterval(dcf, x, t0, t1).value + PaymentInf(dcf, x, t1) <= PaymentInf(dcf, x, t0)
    ensures PaymentInf(dcf, x, t0) <= PaymentInInterval(dcf, x, t0, t1).value + PaymentInf(dcf, x, t1) + 1
  {
    PowNonIncreasing(dcf, t0, t1);
    var a, b := Pow(dcf, t0), Pow(dcf, t1);
    SplitProduct(x, a, b, 0);
    FloorOfSum(x * (a - b), x * b);
  }

  /** Cutting an interval in two loses at most one wei. */
  lemma IntervalSplits(dcf: nat, x: nat, t0: nat, t1: nat, t2: nat)
    requires dcf < TWO_128 && t0 <= t1 <= t2
    ensures PaymentInInterval(dcf, x, t0, t1).Some? && PaymentInInterval(dcf, x, t1, t2).Some?
         && PaymentInInterval(dcf, x, t0, t2).Some?
    ensures var parts := PaymentInInterval(dcf, x, t0, t1).value + PaymentInInterval(dcf, x, t1, t2).value;
            parts <= PaymentInInterval(dcf, x, t0, t2).value <= parts + 1
  {
    PowNonIncreasing(dcf, t0, t1);
    PowNonIncreasing(dcf, t1, t2);
    var a, b, c := Pow(dcf, t0), Pow(dcf, t1), Pow(dcf, t2);
    SplitProduct(x, a, b, c);
    FloorOfSum(x * (a - b), x * (b - c));
  }

  ghost predicate Ascending(ts: seq<nat>) {
    forall i, j :: 0 <= i < j < |ts| ==> ts[i] <= ts[j]
  }

  /** The rent collected at the successive times ts. */
  ghost function PaidAlong(dcf: nat, x: nat, ts: seq<nat>): nat {
    if |ts| < 2 then 0
    else
      var last := PaymentInInterval(dcf, x, ts[|ts| - 2], ts[|ts| - 1]);
      PaidAlong(dcf, x, ts[..|ts| - 1]) + (if last.Some? then last.value else 0)
  }

  /** Collecting over k consecutive intervals yields at most the rent over their union, and
      falls short of it by at most k - 1 wei. */
  lemma {:induction false} PaidAlongBounds(dcf: nat, x: nat, ts: seq<nat>)
    requires dcf < TWO_128 && |ts| >= 2 && Ascending(ts)
    ensures PaymentInInterval(dcf, x, ts[0], ts[|ts| - 1]).Some?
    ensures var whole := PaymentInInterval(dcf, x, ts[0], ts[|ts| - 1]).value;
            PaidAlong(dcf, x, ts) <= whole <= PaidAlong(dcf, x, ts) + |ts| - 2
    decreases |ts|
  {
    hide Pow, PaymentInInterval;
    var n := |ts| - 1;
    if n == 1 {
      IntervalLeavesRest(dcf, x, ts[0], ts[1]);
      assert PaidAlong(dcf, x, ts[..1]) == 0;
    } else {
      PaidAlongBounds(dcf, x, ts[..n]);
      IntervalSplits(dcf, x, ts[0], ts[n - 1], ts[n]);
    }
  }

  /** e separate prices fall short of the price of e entries at once by exactly the carried
      remainder: less than e, and nothing exactly when e times the lost fraction is below 1. */
  lemma BulkPrice(dcf: nat, x: nat, e: nat, t: nat)
    requires e > 0
    ensures PaymentInf(dcf, e * x, t) == e * PaymentInf(dcf, x, t) + e * (x * Pow(dcf, t) % TWO_128) / TWO_128
    ensures e * PaymentInf(dcf, x, t) <= PaymentInf(dcf, e * x, t) <= e * PaymentInf(dcf, x, t) + e - 1
  {
    hide Pow;
    var p := Pow(dcf, t);
    assert e * x * p == e * (x * p);
    FloorOfMultiple(e, x * p);
  }
}
