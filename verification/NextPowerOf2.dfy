/** contracts/BinaryRelated.sol: findNextPowerOf2, which clears low bits until one is left. */
module NextPowerOf2 {
  import opened Words

  /** The bitwise and of two naturals, bit by bit. */
  function And(a: nat, b: nat): (r: nat)
    ensures r <= a
    decreases a
  {
    if a == 0 then 0 else (if a % 2 == 1 && b % 2 == 1 then 1 else 0) + 2 * And(a / 2, b / 2)
  }

  lemma {:induction false} AndSelf(a: nat)
    ensures And(a, a) == a
    decreases a
  {
    if a > 0 {
      AndSelf(a / 2);
    }
  }

  /** n & (n - 1) clears the lowest set bit: it is smaller than n, and either n was a power of
      two or the highest set bit survives. */
  lemma {:induction false} ClearLowestBit(n: nat, k: nat)
    requires Pow2(k) <= n < Pow2(k + 1)
    ensures And(n, n - 1) < n
    ensures And(n, n - 1) == 0 <==> n == Pow2(k)
    ensures n != Pow2(k) ==> Pow2(k) <= And(n, n - 1)
    decreases n
  {
    if n == 1 {
      assert k == 0;
    } else {
      assert k > 0;
      if n % 2 == 1 {
        OddLoses1(n);
      } else {
        EvenKeepsZero(n);
        ClearLowestBit(n / 2, k - 1);
      }
    }
  }

  lemma OddLoses1(n: nat)
    requires n % 2 == 1
    ensures And(n, n - 1) == n - 1
  {
    assert (n - 1) / 2 == n / 2;
    AndSelf(n / 2);
  }

  lemma EvenKeepsZero(n: nat)
    requires n > 0 && n % 2 == 0
    ensures And(n, n - 1) == 2 * And(n / 2, n / 2 - 1)
  {
    assert (n - 1) / 2 == n / 2 - 1;
  }

  lemma {:induction false} HighestBit(n: nat) returns (k: nat)
    requires n > 0
    ensures Pow2(k) <= n < Pow2(k + 1)
  {
    if n == 1 {
      k := 0;
    } else {
      k := HighestBit(n / 2);
      k := k + 1;
    }
  }

  ghost predicate IsPowerOf2(p: nat) {
    exists k: nat :: p == Pow2(k)
  }

  /** p is the least power of two that is at least n. */
  ghost predicate LeastPowerOf2(p: nat, n: nat) {
    IsPowerOf2(p) && n <= p && forall k: nat :: n <= Pow2(k) ==> p <= Pow2(k)
  }

  lemma LeastPowerOf2Unique(p: nat, q: nat, n: nat)
    requires LeastPowerOf2(p, n) && LeastPowerOf2(q, n)
    ensures p == q
  {
    var i: nat :| p == Pow2(i);
    var j: nat :| q == Pow2(j);
    assert q <= Pow2(i) && p <= Pow2(j);
  }

  lemma Doubled(k: nat)
    ensures Pow2(k + 1) == 2 * Pow2(k)
  {
  }

  lemma NextAfter(n: nat, k: nat)
    requires n >= 2 && Pow2(k) <= n - 1 < Pow2(k + 1)
    ensures LeastPowerOf2(2 * Pow2(k), n)
    ensures 2 * Pow2(k) < 2 * n
  {
    hide Pow2;
    Doubled(k);
    forall j: nat | n <= Pow2(j) ensures 2 * Pow2(k) <= Pow2(j) {
      if j <= k { Pow2Monotone(j, k); } else { Pow2Monotone(k + 1, j); }
    }
  }

  /** The loop on uint256. n = 0 and n = 1 revert, because n - 1 or the following decrement
      goes below zero. Above 2^255 the final shift pushes the only bit off the word. */
  method FindNextPowerOf2(n0: nat) returns (r: Option<nat>)
    requires n0 < TWO_256
    ensures r.Some? <==> n0 >= 2
    ensures 2 <= n0 <= TWO_256 / 2 ==> LeastPowerOf2(r.value, n0) && r.value < 2 * n0
    ensures n0 > TWO_256 / 2 ==> r.value == 0
  {
    hide And, Pow2, LeastPowerOf2;
    if n0 < 2 {
      return None;
    }
    var n: nat := n0 - 1;
    ghost var k := HighestBit(n);
    while And(n, n - 1) != 0
      invariant Pow2(k) <= n <= n0 - 1 < Pow2(k + 1)
      decreases n
    {
      ClearLowestBit(n, k);
      n := And(n, n - 1);
    }
    ClearLowestBit(n, k);
    NextAfter(n0, k);
    ShiftedOut(n0, k);
    return Some(2 * n % TWO_256);
  }

  /** The doubled bit leaves the word exactly when n is above 2^255. */
  lemma ShiftedOut(n: nat, k: nat)
    requires 2 <= n < TWO_256 && Pow2(k) <= n - 1 < Pow2(k + 1)
    ensures n <= TWO_256 / 2 ==> 2 * Pow2(k) < TWO_256
    ensures n > TWO_256 / 2 ==> 2 * Pow2(k) == TWO_256
  {
    hide Pow2;
    Pow2Of256();
    if k < 255 { Pow2Monotone(k + 1, 255); }
    if k > 255 { Pow2Monotone(256, k); }
  }
}
