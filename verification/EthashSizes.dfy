/** scripts/dagger/golang/ethash.go: the cache and dataset sizes of an epoch. */
module EthashSizes {
  import opened Words
  import opened Arithmetic
  import opened Primes
  import opened FnvMix
  import opened Ethash

  /** big.Int.ProbablyPrime, which decides primality for every uint64; here by trial division. */
  method Prime(n: nat) returns (p: bool)
    ensures p <==> IsPrime(n)
  {
    if n < 2 {
      return false;
    }
    var d: nat := 2;
    while d < n
      invariant 2 <= d <= n
      invariant forall k: nat :: 2 <= k < d ==> !Divides(k, n)
    {
      if n % d == 0 {
        assert Divides(d, n);
        return false;
      }
      d := d + 1;
    }
    return true;
  }

  lemma ThreeIsPrime()
    ensures IsPrime(3)
  {
    assert 3 % 2 == 1;
  }

  /** The search both functions run: from an odd number of units downwards in steps of two. It
      ends at the greatest prime number of units up to the start, because the even numbers it
      skips are not prime. */
  method SearchDown(start: nat, unit: nat, ghost n: nat) returns (size: nat, ghost m: nat)
    requires unit > 0 && start == n * unit && n % 2 == 1 && n >= 3
    ensures size == m * unit && m <= n && IsPrime(m)
    ensures forall q: nat :: m < q <= n ==> !IsPrime(q)
  {
    hide IsPrime;
    size, m := start, n;
    UnitsOf(m, unit);
    var p := Prime(size / unit);
    while !p
      invariant size == m * unit && 3 <= m <= n && m % 2 == 1
      invariant p <==> IsPrime(m)
      invariant forall q: nat :: m < q <= n ==> !IsPrime(q)
      decreases m
    {
      SmallerOdd(m);
      StepDown(m, unit);
      size := size - 2 * unit;
      m := m - 2;
      UnitsOf(m, unit);
      p := Prime(size / unit);
    }
  }

  method GreatestPrimeSize(start: nat, unit: nat, ghost n: nat) returns (size: nat)
    requires unit > 0 && start == n * unit && n % 2 == 1 && n >= 3
    ensures size % unit == 0 && size <= start && IsPrime(size / unit)
    ensures forall q: nat :: size / unit < q <= n ==> !IsPrime(q)
  {
    hide IsPrime;
    ghost var m;
    size, m := SearchDown(start, unit, n);
    UnitsOf(m, unit);
    MulOrder(m, n, unit);
  }

  lemma UnitsOf(m: nat, unit: nat)
    requires unit > 0
    ensures m * unit / unit == m && m * unit % unit == 0
  {
    QuotientIs(m * unit, unit, m, 0);
  }

  lemma SmallerOdd(m: nat)
    requires m % 2 == 1 && m >= 3 && !IsPrime(m)
    ensures m >= 5 && !IsPrime(m - 1)
  {
    ThreeIsPrime();
    EvenIsNotPrime(m - 1);
  }

  lemma EvenIsNotPrime(n: nat)
    requires n > 2 && n % 2 == 0
    ensures !IsPrime(n)
  {
    assert Divides(2, n);
  }

  lemma StepDown(m: nat, unit: nat)
    requires m >= 2
    ensures m * unit - 2 * unit == (m - 2) * unit
  {
  }

  lemma OddNumber(half: nat, n: nat)
    requires n == 2 * half + 1
    ensures n % 2 == 1
  {
  }

  /** Both searches start at an odd number of rows. */
  lemma CacheRowsAtMost(epoch: nat)
    ensures 0x100_0000 + 0x2_0000 * epoch - HASH_BYTES == (0x3_FFFF + 0x800 * epoch) * HASH_BYTES
    ensures (0x3_FFFF + 0x800 * epoch) % 2 == 1
  {
    OddNumber(0x1_FFFF + 0x400 * epoch, 0x3_FFFF + 0x800 * epoch);
  }

  lemma DatasetRowsAtMost(epoch: nat)
    ensures 0x4000_0000 + 0x80_0000 * epoch - MIX_BYTES == (0x7F_FFFF + 0x1_0000 * epoch) * MIX_BYTES
    ensures (0x7F_FFFF + 0x1_0000 * epoch) % 2 == 1
  {
    OddNumber(0x3F_FFFF + 0x8000 * epoch, 0x7F_FFFF + 0x1_0000 * epoch);
  }

  /** calcCacheSize: the largest prime number of 64-byte rows below the linear bound. */
  method CalcCacheSize(epoch: nat) returns (size: nat)
    requires 0x100_0000 + 0x2_0000 * epoch < TWO_64
    ensures size % HASH_BYTES == 0 && IsPrime(size / HASH_BYTES)
    ensures size < 0x100_0000 + 0x2_0000 * epoch
    ensures forall q: nat :: size / HASH_BYTES < q < 0x4_0000 + 0x800 * epoch ==> !IsPrime(q)
  {
    hide IsPrime;
    CacheRowsAtMost(epoch);
    var start := 0x100_0000 + 0x2_0000 * epoch - HASH_BYTES;
    size := GreatestPrimeSize(start, HASH_BYTES, 0x3_FFFF + 0x800 * epoch);
  }

  /** calcDatasetSize: the largest prime number of 128-byte rows below the linear bound. */
  method CalcDatasetSize(epoch: nat) returns (size: nat)
    requires 0x4000_0000 + 0x80_0000 * epoch < TWO_64
    ensures size % MIX_BYTES == 0 && IsPrime(size / MIX_BYTES)
    ensures size < 0x4000_0000 + 0x80_0000 * epoch
    ensures forall q: nat :: size / MIX_BYTES < q < 0x80_0000 + 0x1_0000 * epoch ==> !IsPrime(q)
  {
    hide IsPrime;
    DatasetRowsAtMost(epoch);
    var start := 0x4000_0000 + 0x80_0000 * epoch - MIX_BYTES;
    size := GreatestPrimeSize(start, MIX_BYTES, 0x7F_FFFF + 0x1_0000 * epoch);
  }
}
