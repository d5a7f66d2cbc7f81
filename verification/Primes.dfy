/** Primes, and the ones up to 409. */
module Primes {
  import opened Arithmetic

  ghost predicate Divides(d: nat, n: nat) {
    d > 0 && n % d == 0
  }

  ghost predicate IsPrime(n: nat) {
    n >= 2 && forall d: nat :: 2 <= d < n ==> !Divides(d, n)
  }

  // ---------------------------------------------------------------- small numbers

  /** No prime below 23 divides n, unless it is n. */
  predicate Undivided(n: nat) {
    n >= 2
    && (n % 2 != 0 || n == 2) && (n % 3 != 0 || n == 3) && (n % 5 != 0 || n == 5) && (n % 7 != 0 || n == 7)
    && (n % 11 != 0 || n == 11) && (n % 13 != 0 || n == 13) && (n % 17 != 0 || n == 17) && (n % 19 != 0 || n == 19)
  }

  lemma MultipleOfMultiple(p: nat, q: nat, n: nat)
    requires p > 0 && q > 0 && n % q == 0 && q % p == 0
    ensures n % p == 0
  {
    var a, b := n / q, q / p;
    Recompose(n, q);
    Recompose(q, p);
    assert n == a * (b * p) == a * b * p;
    QuotientIs(n, p, a * b, 0);
  }

  /** Every number from 2 to 22 has a prime factor below 23. */
  lemma SmallFactor(d: nat) returns (p: nat)
    requires 2 <= d < 23
    ensures p in {2, 3, 5, 7, 11, 13, 17, 19} && d % p == 0
  {
    p := if d % 2 == 0 then 2 else if d % 3 == 0 then 3 else if d % 5 == 0 then 5 else if d % 7 == 0 then 7 else d;
  }

  lemma SmallDivisor(n: nat, d: nat)
    requires 2 <= d < 23 && d < n && n % d == 0
    ensures !Undivided(n)
  {
    var p := SmallFactor(d);
    MultipleOfMultiple(p, d, n);
    Recompose(d, p);
  }

  /** Below 23 * 23, the primes below 23 decide. */
  lemma UndividedIsPrime(n: nat)
    requires n < 529
    ensures Undivided(n) <==> IsPrime(n)
  {
    hide Undivided;
    if IsPrime(n) {
      PrimeIsUndivided(n);
    } else if Undivided(n) {
      AtLeastTwo(n);
      var d: nat :| 2 <= d < n && Divides(d, n);
      SomeSmallDivisor(n, d);
    }
  }

  lemma AtLeastTwo(n: nat)
    requires Undivided(n)
    ensures n >= 2
  {
  }

  lemma PrimeIsUndivided(n: nat)
    requires IsPrime(n)
    ensures Undivided(n)
  {
    forall p | p in {2, 3, 5, 7, 11, 13, 17, 19} && p < n ensures n % p != 0 {
      assert !Divides(p, n);
    }
  }

  /** The smaller of d and n / d is below 23. */
  lemma SomeSmallDivisor(n: nat, d: nat)
    requires n < 529 && 2 <= d < n && Divides(d, n)
    ensures !Undivided(n)
  {
    hide Undivided;
    var q := n / d;
    Recompose(n, d);
    if d < 23 {
      SmallDivisor(n, d);
    } else {
      if q >= 23 { MulMonotone(23, 23, q, d); }
      if q < 2 { MulOrder(q, 1, d); }
      MulOrder(2, d, q);
      QuotientIs(n, q, d, 0);
      SmallDivisor(n, q);
    }
  }

  // ---------------------------------------------------------------- the first eighty primes

  const PRIMES0: seq<nat> := [2, 3, 5, 7, 11, 13, 17, 19, 23, 29, 31, 37, 41, 43, 47, 53]
  const PRIMES1: seq<nat> := [59, 61, 67, 71, 73, 79, 83, 89, 97, 101, 103, 107, 109, 113, 127, 131]
  const PRIMES2: seq<nat> := [137, 139, 149, 151, 157, 163, 167, 173, 179, 181, 191, 193, 197, 199, 211, 223]
  const PRIMES3: seq<nat> := [227, 229, 233, 239, 241, 251, 257, 263, 269, 271, 277, 281, 283, 293, 307, 311]
  const PRIMES4: seq<nat> := [313, 317, 331, 337, 347, 349, 353, 359, 367, 373, 379, 383, 389, 397, 401, 409]

  const PRIMES: seq<nat> := PRIMES0 + PRIMES1 + PRIMES2 + PRIMES3 + PRIMES4

  /** None of the numbers from a to b - 1 is undivided. */
  predicate NoneFrom(a: nat, b: nat)
    decreases b - a
  {
    a >= b || (!Undivided(a) && NoneFrom(a + 1, b))
  }

  lemma {:induction false} NoneBetween(a: nat, b: nat, n: nat)
    requires NoneFrom(a, b) && a <= n < b
    ensures !Undivided(n)
    decreases b - a
  {
    hide Undivided;
    if a < n { NoneBetween(a + 1, b, n); }
  }

  /** q is the first undivided number from p + 1 on. */
  predicate Next(p: nat, q: nat) {
    p < q && Undivided(q) && NoneFrom(p + 1, q)
  }

  lemma Nexts0()
    ensures Next(1, 2) && Next(2, 3) && Next(3, 5) && Next(5, 7)
    ensures Next(7, 11) && Next(11, 13) && Next(13, 17) && Next(17, 19)
  {
  }

  lemma Nexts1()
    ensures Next(19, 23) && Next(23, 29) && Next(29, 31) && Next(31, 37)
    ensures Next(37, 41) && Next(41, 43) && Next(43, 47) && Next(47, 53)
  {
  }

  lemma Row0(j: nat)
    requires j < 16
    ensures Next(if j == 0 then 1 else PRIMES0[j - 1], PRIMES0[j])
  {
    hide Next, Undivided, NoneFrom;
    Nexts0();
    Nexts1();
  }

  lemma Nexts2()
    ensures Next(53, 59) && Next(59, 61) && Next(61, 67) && Next(67, 71)
    ensures Next(71, 73) && Next(73, 79) && Next(79, 83) && Next(83, 89)
  {
  }

  lemma Nexts3()
    ensures Next(89, 97) && Next(97, 101) && Next(101, 103) && Next(103, 107)
    ensures Next(107, 109) && Next(109, 113) && Next(113, 127) && Next(127, 131)
  {
  }

  lemma Row1(j: nat)
    requires j < 16
    ensures Next(if j == 0 then 53 else PRIMES1[j - 1], PRIMES1[j])
  {
    hide Next, Undivided, NoneFrom;
    Nexts2();
    Nexts3();
  }

  lemma Nexts4()
    ensures Next(131, 137) && Next(137, 139) && Next(139, 149) && Next(149, 151)
    ensures Next(151, 157) && Next(157, 163) && Next(163, 167) && Next(167, 173)
  {
  }

  lemma Nexts5()
    ensures Next(173, 179) && Next(179, 181) && Next(181, 191) && Next(191, 193)
    ensures Next(193, 197) && Next(197, 199) && Next(199, 211) && Next(211, 223)
  {
  }

  lemma Row2(j: nat)
    requires j < 16
    ensures Next(if j == 0 then 131 else PRIMES2[j - 1], PRIMES2[j])
  {
    hide Next, Undivided, NoneFrom;
    Nexts4();
    Nexts5();
  }

  lemma Nexts6()
    ensures Next(223, 227) && Next(227, 229) && Next(229, 233) && Next(233, 239)
    ensures Next(239, 241) && Next(241, 251) && Next(251, 257) && Next(257, 263)
  {
  }

  lemma Nexts7()
    ensures Next(263, 269) && Next(269, 271) && Next(271, 277) && Next(277, 281)
    ensures Next(281, 283) && Next(283, 293) && Next(293, 307) && Next(307, 311)
  {
  }

  lemma Row3(j: nat)
    requires j < 16
    ensures Next(if j == 0 then 223 else PRIMES3[j - 1], PRIMES3[j])
  {
    hide Next, Undivided, NoneFrom;
    Nexts6();
    Nexts7();
  }

  lemma Nexts8()
    ensures Next(311, 313) && Next(313, 317) && Next(317, 331) && Next(331, 337)
    ensures Next(337, 347) && Next(347, 349) && Next(349, 353) && Next(353, 359)
  {
  }

  lemma Nexts9()
    ensures Next(359, 367) && Next(367, 373) && Next(373, 379) && Next(379, 383)
    ensures Next(383, 389) && Next(389, 397) && Next(397, 401) && Next(401, 409)
  {
  }

  lemma Row4(j: nat)
    requires j < 16
    ensures Next(if j == 0 then 311 else PRIMES4[j - 1], PRIMES4[j])
  {
    hide Next, Undivided, NoneFrom;
    Nexts8();
    Nexts9();
  }

  /** Each entry is the first undivided number after the one before it. */
  lemma Entry(t: nat)
    requires t < 80
    ensures |PRIMES| == 80 && Next(if t == 0 then 1 else PRIMES[t - 1], PRIMES[t])
  {
    hide Next;
    if t < 16 { Row0(t); }
    else if t < 32 { Row1(t - 16); }
    else if t < 48 { Row2(t - 32); }
    else if t < 64 { Row3(t - 48); }
    else { Row4(t - 64); }
  }

  /** Up to an entry, the undivided numbers are the entries so far. */
  lemma {:induction false} EntriesUpTo(t: nat, n: nat)
    requires t < 80 && n <= PRIMES[t]
    ensures Undivided(n) <==> n in PRIMES[..t + 1]
    ensures forall i :: 0 <= i < t ==> PRIMES[i] < PRIMES[t]
    decreases t
  {
    hide Undivided, NoneFrom, PRIMES;
    Entry(t);
    var before := if t == 0 then 1 else PRIMES[t - 1];
    assert PRIMES[..t + 1] == PRIMES[..t] + [PRIMES[t]];
    if t > 0 {
      EntriesUpTo(t - 1, if n <= before then n else before);
    } else if n <= 1 {
      SmallNumbers(n);
    }
    if before < n < PRIMES[t] {
      NoneBetween(before + 1, PRIMES[t], n);
      assert n !in PRIMES[..t];
    }
  }

  lemma SmallNumbers(n: nat)
    requires n <= 1
    ensures !Undivided(n)
  {
  }

  /** PRIMES lists, in order, exactly the primes up to 409. */
  lemma FirstPrimes(n: nat)
    requires n <= 409
    ensures |PRIMES| == 80
    ensures n in PRIMES <==> IsPrime(n)
    ensures forall i, j :: 0 <= i < j < 80 ==> PRIMES[i] < PRIMES[j]
  {
    hide Undivided, IsPrime;
    LastEntry();
    EntriesUpTo(79, n);
    UndividedIsPrime(n);
    assert PRIMES[..80] == PRIMES;
    forall i, j | 0 <= i < j < 80 ensures PRIMES[i] < PRIMES[j] {
      EntriesUpTo(j, 0);
    }
  }

  lemma LastEntry()
    ensures |PRIMES| == 80 && PRIMES[79] == 409
  {
    assert PRIMES4[15] == 409;
  }
}
