/** contracts/MiningLib.sol: the mining record of a shard and its difficulty rule. */
module MiningLib {
  import opened Words
  import opened Arithmetic

  datatype MiningInfo = MiningInfo(miningHash: Word, lastMineTime: nat, difficulty: nat, blockMined: nat)

  /** The contents of a mapping slot that was never written. */
  const NEVER_MINED := MiningInfo(ZERO_WORD, 0, 0, 0)

  datatype Tuning = Tuning(targetIntervalSec: nat, cutoff: nat, diffAdjDivisor: nat, minimumDiff: nat)

  /** The next difficulty, or the arithmetic panic that reverts the transaction. */
  datatype Outcome = Diff(value: nat) | Underflow | Overflow | DivisionByZero

  function ExpectedDiff(info: MiningInfo, mineTime: nat, t: Tuning): Outcome {
    if mineTime < info.lastMineTime then Underflow
    else if t.cutoff == 0 then DivisionByZero
    else
      var interval, diff := mineTime - info.lastMineTime, info.difficulty;
      var periods := interval / t.cutoff;
      if interval < t.targetIntervalSec then
        if periods > 1 then Underflow else Raised(diff, Times(1 - periods, diff), t)
      else
        if periods < 1 then Underflow else Lowered(diff, Times(periods - 1, diff), t)
  }

  function Times(k: nat, d: nat): nat {
    k * d
  }

  /** The branch for a block that came in faster than the target. */
  function Raised(diff: nat, change: nat, t: Tuning): Outcome {
    if change >= TWO_256 then Overflow
    else if t.diffAdjDivisor == 0 then DivisionByZero
    else
      var raised := diff + change / t.diffAdjDivisor;
      if raised >= TWO_256 then Overflow
      else if raised < t.minimumDiff then Diff(t.minimumDiff) else Diff(raised)
  }

  /** The branch for a block that came in slower. */
  function Lowered(diff: nat, change: nat, t: Tuning): Outcome {
    if change >= TWO_256 then Overflow
    else if t.diffAdjDivisor == 0 then DivisionByZero
    else
      var dec := change / t.diffAdjDivisor;
      if dec + t.minimumDiff >= TWO_256 then Overflow
      else if dec + t.minimumDiff > diff then Diff(t.minimumDiff) else Diff(diff - dec)
  }

  function Update(info: MiningInfo, mineTime: nat, diff: nat, miningHash: Word): MiningInfo {
    MiningInfo(miningHash, mineTime, diff, info.blockMined + 1)
  }

  /** The unsigned subtractions 1 - interval / cutoff and interval / cutoff - 1 never go below
      zero, whatever the interval, exactly when cutoff <= target <= 2 * cutoff. */
  lemma NeverUnderflowsIff(t: Tuning)
    requires t.cutoff > 0
    ensures (forall info: MiningInfo, mineTime: nat ::
               mineTime >= info.lastMineTime ==> ExpectedDiff(info, mineTime, t) != Underflow)
            <==> t.cutoff <= t.targetIntervalSec <= 2 * t.cutoff
  {
    if t.targetIntervalSec < t.cutoff {
      QuotientAtLeast(t.targetIntervalSec, 1, t.cutoff);
      assert ExpectedDiff(NEVER_MINED, t.targetIntervalSec, t) == Underflow;
    } else if t.targetIntervalSec > 2 * t.cutoff {
      QuotientAtLeast(2 * t.cutoff, 2, t.cutoff);
      assert ExpectedDiff(NEVER_MINED, 2 * t.cutoff, t) == Underflow;
    } else {
      forall info: MiningInfo, mineTime: nat | mineTime >= info.lastMineTime
        ensures ExpectedDiff(info, mineTime, t) != Underflow
      {
        QuotientAtLeast(mineTime - info.lastMineTime, 1, t.cutoff);
        QuotientAtLeast(mineTime - info.lastMineTime, 2, t.cutoff);
      }
    }
  }

  lemma RaisedBounds(diff: nat, change: nat, t: Tuning)
    requires Raised(diff, change, t).Diff?
    ensures Raised(diff, change, t).value >= diff && Raised(diff, change, t).value >= t.minimumDiff
  {
  }

  lemma LoweredBounds(diff: nat, change: nat, t: Tuning)
    requires Lowered(diff, change, t).Diff?
    ensures Lowered(diff, change, t).value >= t.minimumDiff
    ensures Lowered(diff, change, t).value <= diff || Lowered(diff, change, t).value == t.minimumDiff
  {
  }

  /** The difficulty stays at or above the minimum; it never falls when a block came in faster
      than the target, and never rises (above the minimum) when it came slower. */
  lemma DifficultyDirection(info: MiningInfo, mineTime: nat, t: Tuning)
    requires ExpectedDiff(info, mineTime, t).Diff?
    ensures mineTime >= info.lastMineTime && ExpectedDiff(info, mineTime, t).value >= t.minimumDiff
    ensures mineTime - info.lastMineTime < t.targetIntervalSec ==>
              ExpectedDiff(info, mineTime, t).value >= info.difficulty
    ensures mineTime - info.lastMineTime >= t.targetIntervalSec ==>
              ExpectedDiff(info, mineTime, t).value <= info.difficulty
              || ExpectedDiff(info, mineTime, t).value == t.minimumDiff
  {
    hide Raised, Lowered;
    var p, diff := (mineTime - info.lastMineTime) / t.cutoff, info.difficulty;
    if mineTime - info.lastMineTime < t.targetIntervalSec {
      RaisedBounds(diff, Times(1 - p, diff), t);
    } else {
      LoweredBounds(diff, Times(p - 1, diff), t);
    }
  }

  lemma RaisedOrder(diff: nat, less: nat, more: nat, t: Tuning)
    requires less <= more && Raised(diff, less, t).Diff? && Raised(diff, more, t).Diff?
    ensures Raised(diff, less, t).value <= Raised(diff, more, t).value
  {
    QuotientOrder(less, more, t.diffAdjDivisor);
  }

  lemma LoweredOrder(diff: nat, less: nat, more: nat, t: Tuning)
    requires less <= more && Lowered(diff, less, t).Diff? && Lowered(diff, more, t).Diff?
    ensures Lowered(diff, more, t).value <= Lowered(diff, less, t).value
  {
    QuotientOrder(less, more, t.diffAdjDivisor);
  }

  lemma ScaleOrder(j: nat, k: nat, d: nat)
    requires j <= k
    ensures Times(j, d) <= Times(k, d)
  {
  }

  /** Waiting longer never makes the next block harder. */
  lemma LaterIsNotHarder(info: MiningInfo, early: nat, late: nat, t: Tuning)
    requires early <= late
    requires ExpectedDiff(info, early, t).Diff? && ExpectedDiff(info, late, t).Diff?
    ensures ExpectedDiff(info, late, t).value <= ExpectedDiff(info, early, t).value
  {
    hide Raised, Lowered;
    var i, j, d := early - info.lastMineTime, late - info.lastMineTime, info.difficulty;
    var p, q := i / t.cutoff, j / t.cutoff;
    QuotientOrder(i, j, t.cutoff);
    if j < t.targetIntervalSec {
      ScaleOrder(1 - q, 1 - p, d);
      RaisedOrder(d, Times(1 - q, d), Times(1 - p, d), t);
    } else if i >= t.targetIntervalSec {
      ScaleOrder(p - 1, q - 1, d);
      LoweredOrder(d, Times(p - 1, d), Times(q - 1, d), t);
    } else {
      RaisedBounds(d, Times(1 - p, d), t);
      LoweredBounds(d, Times(q - 1, d), t);
    }
  }

  // ---------------------------------------------------------------- the size of the change

  /** q is the quotient of n by d, rounded down. */
  ghost predicate Floors(q: int, n: nat, d: nat) {
    d * q <= n < d * q + d
  }

  lemma FloorsDiv(n: nat, d: nat)
    requires d > 0
    ensures Floors(n / d, n, d)
  {
    Recompose(n, d);
  }

  /** A block within the first cutoff period raises the difficulty by d / divisor, one in the
      second period of a fast block leaves it; the minimum holds in both cases. */
  lemma FastBlock(info: MiningInfo, mineTime: nat, t: Tuning)
    requires ExpectedDiff(info, mineTime, t).Diff? && mineTime - info.lastMineTime < t.targetIntervalSec
    ensures t.cutoff > 0 && t.diffAdjDivisor > 0 && mineTime - info.lastMineTime < 2 * t.cutoff
    ensures var d, v, interval := info.difficulty, ExpectedDiff(info, mineTime, t).value, mineTime - info.lastMineTime;
            if interval >= t.cutoff then v == (if d < t.minimumDiff then t.minimumDiff else d)
            else if v > t.minimumDiff then Floors(v - d, d, t.diffAdjDivisor)
            else v == t.minimumDiff && d < t.diffAdjDivisor * (v - d) + t.diffAdjDivisor
  {
    hide Raised, Lowered;
    var d, interval := info.difficulty, mineTime - info.lastMineTime;
    QuotientAtLeast(interval, 1, t.cutoff);
    QuotientAtLeast(interval, 2, t.cutoff);
    if interval >= t.cutoff {
      assert Times(1 - interval / t.cutoff, d) == 0;
      RaisedByNothing(d, t);
    } else {
      assert Times(1 - interval / t.cutoff, d) == d;
      RaisedByShare(d, t);
    }
  }

  lemma RaisedByNothing(d: nat, t: Tuning)
    requires Raised(d, 0, t).Diff?
    ensures t.diffAdjDivisor > 0 && Raised(d, 0, t).value == if d < t.minimumDiff then t.minimumDiff else d
  {
    QuotientIs(0, t.diffAdjDivisor, 0, 0);
  }

  lemma RaisedByShare(d: nat, t: Tuning)
    requires Raised(d, d, t).Diff?
    ensures t.diffAdjDivisor > 0
    ensures var v := Raised(d, d, t).value;
            if v > t.minimumDiff then Floors(v - d, d, t.diffAdjDivisor)
            else v == t.minimumDiff && d < t.diffAdjDivisor * (v - d) + t.diffAdjDivisor
  {
    var v := Raised(d, d, t).value;
    FloorsDiv(d, t.diffAdjDivisor);
    if v == t.minimumDiff { MulOrder(d / t.diffAdjDivisor, v - d, t.diffAdjDivisor); }
  }

  /** A fast block makes the next one strictly harder once the difficulty reaches the divisor. */
  lemma FastBlockRaises(info: MiningInfo, mineTime: nat, t: Tuning)
    requires ExpectedDiff(info, mineTime, t).Diff? && mineTime - info.lastMineTime < t.targetIntervalSec
    requires mineTime - info.lastMineTime < t.cutoff && info.difficulty >= t.diffAdjDivisor
    ensures ExpectedDiff(info, mineTime, t).value > info.difficulty
  {
    hide ExpectedDiff;
    FastBlock(info, mineTime, t);
    DifficultyDirection(info, mineTime, t);
  }

  /** A slow block, mined in cutoff period k, lowers the difficulty by (k - 1) * d / divisor, down
      to the minimum. */
  lemma SlowBlock(info: MiningInfo, mineTime: nat, t: Tuning, k: nat)
    requires ExpectedDiff(info, mineTime, t).Diff? && mineTime - info.lastMineTime >= t.targetIntervalSec
    requires k * t.cutoff <= mineTime - info.lastMineTime < k * t.cutoff + t.cutoff
    ensures t.diffAdjDivisor > 0 && k >= 1
    ensures var d, v, m := info.difficulty, ExpectedDiff(info, mineTime, t).value, t.minimumDiff;
            if v > m then Floors(d - v, (k - 1) * d, t.diffAdjDivisor)
            else v == m && (d < m || t.diffAdjDivisor * (d - m) <= (k - 1) * d)
  {
    var d, interval, v, m := info.difficulty, mineTime - info.lastMineTime, ExpectedDiff(info, mineTime, t).value,
                             t.minimumDiff;
    QuotientIs(interval, t.cutoff, k, interval - k * t.cutoff);
    assert Times(k - 1, d) == (k - 1) * d;
    var dec := (k - 1) * d / t.diffAdjDivisor;
    FloorsDiv((k - 1) * d, t.diffAdjDivisor);
    if v == m && d >= m { MulOrder(d - m, dec, t.diffAdjDivisor); }
  }

  /** With a sound tuning, only a difficulty near the end of uint256 makes the rule revert. */
  lemma DifficultyDefined(info: MiningInfo, mineTime: nat, t: Tuning)
    requires info.lastMineTime <= mineTime && 0 < t.cutoff <= t.targetIntervalSec <= 2 * t.cutoff
    requires t.diffAdjDivisor > 0 && t.minimumDiff < TWO_256 / 2
    requires (mineTime - info.lastMineTime + 1) * info.difficulty < TWO_256 / 2
    ensures ExpectedDiff(info, mineTime, t).Diff?
  {
    hide Raised, Lowered, Times;
    var d, interval := info.difficulty, mineTime - info.lastMineTime;
    var p := interval / t.cutoff;
    QuotientAtLeast(interval, 1, t.cutoff);
    QuotientAtLeast(interval, 2, t.cutoff);
    QuotientAtMost(interval, t.cutoff);
    ScaleOrder(1, interval + 1, d);
    TimesIs(1, d);
    TimesIs(interval + 1, d);
    if interval < t.targetIntervalSec {
      ScaleOrder(1 - p, interval + 1, d);
      RaisedDefined(d, Times(1 - p, d), t);
    } else {
      ScaleOrder(p - 1, interval + 1, d);
      LoweredDefined(d, Times(p - 1, d), t);
    }
  }

  lemma QuotientAtMost(n: nat, d: nat)
    requires d > 0
    ensures n / d <= n
  {
    Recompose(n, d);
    MulOrder(1, d, n / d);
  }

  lemma TimesIs(k: nat, d: nat)
    ensures Times(k, d) == k * d
  {
  }

  lemma RaisedDefined(diff: nat, change: nat, t: Tuning)
    requires t.diffAdjDivisor > 0 && diff < TWO_256 / 2 && change < TWO_256 / 2
    ensures Raised(diff, change, t).Diff?
  {
    QuotientAtMost(change, t.diffAdjDivisor);
  }

  lemma LoweredDefined(diff: nat, change: nat, t: Tuning)
    requires t.diffAdjDivisor > 0 && change < TWO_256 / 2 && t.minimumDiff < TWO_256 / 2
    ensures Lowered(diff, change, t).Diff?
  {
    QuotientAtMost(change, t.diffAdjDivisor);
  }
}
