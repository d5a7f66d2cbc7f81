/** The constants of scripts/dagger/sha512.c: the eighty round constants and the initial hash value,
    and the roots of primes whose fractions they are (sections 4.2.3 and 5.3.5 of FIPS 180-4). */
module Sha512Constants {
  import opened Words
  import opened Sha512Spec
  import opened Primes

  const ROUND_CONSTANTS0: seq<Word64> := [
    0x428a2f98d728ae22, 0x7137449123ef65cd, 0xb5c0fbcfec4d3b2f, 0xe9b5dba58189dbbc,
    0x3956c25bf348b538, 0x59f111f1b605d019, 0x923f82a4af194f9b, 0xab1c5ed5da6d8118,
    0xd807aa98a3030242, 0x12835b0145706fbe, 0x243185be4ee4b28c, 0x550c7dc3d5ffb4e2,
    0x72be5d74f27b896f, 0x80deb1fe3b1696b1, 0x9bdc06a725c71235, 0xc19bf174cf692694
  ]

  const ROUND_CONSTANTS1: seq<Word64> := [
    0xe49b69c19ef14ad2, 0xefbe4786384f25e3, 0x0fc19dc68b8cd5b5, 0x240ca1cc77ac9c65,
    0x2de92c6f592b0275, 0x4a7484aa6ea6e483, 0x5cb0a9dcbd41fbd4, 0x76f988da831153b5,
    0x983e5152ee66dfab, 0xa831c66d2db43210, 0xb00327c898fb213f, 0xbf597fc7beef0ee4,
    0xc6e00bf33da88fc2, 0xd5a79147930aa725, 0x06ca6351e003826f, 0x142929670a0e6e70
  ]

  const ROUND_CONSTANTS2: seq<Word64> := [
    0x27b70a8546d22ffc, 0x2e1b21385c26c926, 0x4d2c6dfc5ac42aed, 0x53380d139d95b3df,
    0x650a73548baf63de, 0x766a0abb3c77b2a8, 0x81c2c92e47edaee6, 0x92722c851482353b,
    0xa2bfe8a14cf10364, 0xa81a664bbc423001, 0xc24b8b70d0f89791, 0xc76c51a30654be30,
    0xd192e819d6ef5218, 0xd69906245565a910, 0xf40e35855771202a, 0x106aa07032bbd1b8
  ]

  const ROUND_CONSTANTS3: seq<Word64> := [
    0x19a4c116b8d2d0c8, 0x1e376c085141ab53, 0x2748774cdf8eeb99, 0x34b0bcb5e19b48a8,
    0x391c0cb3c5c95a63, 0x4ed8aa4ae3418acb, 0x5b9cca4f7763e373, 0x682e6ff3d6b2b8a3,
    0x748f82ee5defb2fc, 0x78a5636f43172f60, 0x84c87814a1f0ab72, 0x8cc702081a6439ec,
    0x90befffa23631e28, 0xa4506cebde82bde9, 0xbef9a3f7b2c67915, 0xc67178f2e372532b
  ]

  const ROUND_CONSTANTS4: seq<Word64> := [
    0xca273eceea26619c, 0xd186b8c721c0c207, 0xeada7dd6cde0eb1e, 0xf57d4f7fee6ed178,
    0x06f067aa72176fba, 0x0a637dc5a2c898a6, 0x113f9804bef90dae, 0x1b710b35131c471b,
    0x28db77f523047d84, 0x32caab7b40c72493, 0x3c9ebe0a15c9bebc, 0x431d67c49c100d4c,
    0x4cc5d4becb3e42b6, 0x597f299cfc657e2a, 0x5fcb6fab3ad6faec, 0x6c44198c4a475817
  ]

  const K512: seq<Word64> :=
    ROUND_CONSTANTS0 + ROUND_CONSTANTS1 + ROUND_CONSTANTS2 + ROUND_CONSTANTS3 + ROUND_CONSTANTS4

  const INITIAL_HASH_VALUE: seq<Word64> := [
    0x6a09e667f3bcc908, 0xbb67ae8584caa73b, 0x3c6ef372fe94f82b, 0xa54ff53a5f1d36f1,
    0x510e527fade682d1, 0x9b05688c2b3e6c1f, 0x1f83d9abfb41bd6b, 0x5be0cd19137e2179
  ]

  function Sha512Params(): Params {
    Params(K512, INITIAL_HASH_VALUE)
  }

  lemma ParamsValid()
    ensures Sha512Params().Valid()
  {
  }

  // ---------------------------------------------------------------- cube roots

  /** c and the 64 bits of w are the cube root of p, rounded down to 64 binary places. */
  predicate CubeRoot(c: nat, w: nat, p: nat) {
    var a := c * TWO_64 + w;
    a * a * a <= p * (TWO_128 * TWO_64) < (a + 1) * (a + 1) * (a + 1)
  }

  lemma CubeRoots0()
    ensures CubeRoot(1, 0x428a2f98d728ae22, 2)
    ensures CubeRoot(1, 0x7137449123ef65cd, 3)
    ensures CubeRoot(1, 0xb5c0fbcfec4d3b2f, 5)
    ensures CubeRoot(1, 0xe9b5dba58189dbbc, 7)
    ensures CubeRoot(2, 0x3956c25bf348b538, 11)
    ensures CubeRoot(2, 0x59f111f1b605d019, 13)
    ensures CubeRoot(2, 0x923f82a4af194f9b, 17)
    ensures CubeRoot(2, 0xab1c5ed5da6d8118, 19)
  {
  }

  lemma CubeRoots1()
    ensures CubeRoot(2, 0xd807aa98a3030242, 23)
    ensures CubeRoot(3, 0x12835b0145706fbe, 29)
    ensures CubeRoot(3, 0x243185be4ee4b28c, 31)
    ensures CubeRoot(3, 0x550c7dc3d5ffb4e2, 37)
    ensures CubeRoot(3, 0x72be5d74f27b896f, 41)
    ensures CubeRoot(3, 0x80deb1fe3b1696b1, 43)
    ensures CubeRoot(3, 0x9bdc06a725c71235, 47)
    ensures CubeRoot(3, 0xc19bf174cf692694, 53)
  {
  }

  lemma CubeRoots2()
    ensures CubeRoot(3, 0xe49b69c19ef14ad2, 59)
    ensures CubeRoot(3, 0xefbe4786384f25e3, 61)
    ensures CubeRoot(4, 0x0fc19dc68b8cd5b5, 67)
    ensures CubeRoot(4, 0x240ca1cc77ac9c65, 71)
    ensures CubeRoot(4, 0x2de92c6f592b0275, 73)
    ensures CubeRoot(4, 0x4a7484aa6ea6e483, 79)
    ensures CubeRoot(4, 0x5cb0a9dcbd41fbd4, 83)
    ensures CubeRoot(4, 0x76f988da831153b5, 89)
  {
  }

  lemma CubeRoots3()
    ensures CubeRoot(4, 0x983e5152ee66dfab, 97)
    ensures CubeRoot(4, 0xa831c66d2db43210, 101)
    ensures CubeRoot(4, 0xb00327c898fb213f, 103)
    ensures CubeRoot(4, 0xbf597fc7beef0ee4, 107)
    ensures CubeRoot(4, 0xc6e00bf33da88fc2, 109)
    ensures CubeRoot(4, 0xd5a79147930aa725, 113)
    ensures CubeRoot(5, 0x06ca6351e003826f, 127)
    ensures CubeRoot(5, 0x142929670a0e6e70, 131)
  {
  }

  lemma CubeRoots4()
    ensures CubeRoot(5, 0x27b70a8546d22ffc, 137)
    ensures CubeRoot(5, 0x2e1b21385c26c926, 139)
    ensures CubeRoot(5, 0x4d2c6dfc5ac42aed, 149)
    ensures CubeRoot(5, 0x53380d139d95b3df, 151)
    ensures CubeRoot(5, 0x650a73548baf63de, 157)
    ensures CubeRoot(5, 0x766a0abb3c77b2a8, 163)
    ensures CubeRoot(5, 0x81c2c92e47edaee6, 167)
    ensures CubeRoot(5, 0x92722c851482353b, 173)
  {
  }

  lemma CubeRoots5()
    ensures CubeRoot(5, 0xa2bfe8a14cf10364, 179)
    ensures CubeRoot(5, 0xa81a664bbc423001, 181)
    ensures CubeRoot(5, 0xc24b8b70d0f89791, 191)
    ensures CubeRoot(5, 0xc76c51a30654be30, 193)
    ensures CubeRoot(5, 0xd192e819d6ef5218, 197)
    ensures CubeRoot(5, 0xd69906245565a910, 199)
    ensures CubeRoot(5, 0xf40e35855771202a, 211)
    ensures CubeRoot(6, 0x106aa07032bbd1b8, 223)
  {
  }

  lemma CubeRoots6()
    ensures CubeRoot(6, 0x19a4c116b8d2d0c8, 227)
    ensures CubeRoot(6, 0x1e376c085141ab53, 229)
    ensures CubeRoot(6, 0x2748774cdf8eeb99, 233)
    ensures CubeRoot(6, 0x34b0bcb5e19b48a8, 239)
    ensures CubeRoot(6, 0x391c0cb3c5c95a63, 241)
    ensures CubeRoot(6, 0x4ed8aa4ae3418acb, 251)
    ensures CubeRoot(6, 0x5b9cca4f7763e373, 257)
    ensures CubeRoot(6, 0x682e6ff3d6b2b8a3, 263)
  {
  }

  lemma CubeRoots7()
    ensures CubeRoot(6, 0x748f82ee5defb2fc, 269)
    ensures CubeRoot(6, 0x78a5636f43172f60, 271)
    ensures CubeRoot(6, 0x84c87814a1f0ab72, 277)
    ensures CubeRoot(6, 0x8cc702081a6439ec, 281)
    ensures CubeRoot(6, 0x90befffa23631e28, 283)
    ensures CubeRoot(6, 0xa4506cebde82bde9, 293)
    ensures CubeRoot(6, 0xbef9a3f7b2c67915, 307)
    ensures CubeRoot(6, 0xc67178f2e372532b, 311)
  {
  }

  lemma CubeRoots8()
    ensures CubeRoot(6, 0xca273eceea26619c, 313)
    ensures CubeRoot(6, 0xd186b8c721c0c207, 317)
    ensures CubeRoot(6, 0xeada7dd6cde0eb1e, 331)
    ensures CubeRoot(6, 0xf57d4f7fee6ed178, 337)
    ensures CubeRoot(7, 0x06f067aa72176fba, 347)
    ensures CubeRoot(7, 0x0a637dc5a2c898a6, 349)
    ensures CubeRoot(7, 0x113f9804bef90dae, 353)
    ensures CubeRoot(7, 0x1b710b35131c471b, 359)
  {
  }

  lemma CubeRoots9()
    ensures CubeRoot(7, 0x28db77f523047d84, 367)
    ensures CubeRoot(7, 0x32caab7b40c72493, 373)
    ensures CubeRoot(7, 0x3c9ebe0a15c9bebc, 379)
    ensures CubeRoot(7, 0x431d67c49c100d4c, 383)
    ensures CubeRoot(7, 0x4cc5d4becb3e42b6, 389)
    ensures CubeRoot(7, 0x597f299cfc657e2a, 397)
    ensures CubeRoot(7, 0x5fcb6fab3ad6faec, 401)
    ensures CubeRoot(7, 0x6c44198c4a475817, 409)
  {
  }

  /** The whole part of the cube root, for the primes at hand. */
  function WholeCubeRoot(p: nat): nat {
    if p < 8 then 1 else if p < 27 then 2 else if p < 64 then 3 else if p < 125 then 4
    else if p < 216 then 5 else if p < 343 then 6 else 7
  }

  lemma ConstantRow0(j: nat)
    requires j < 16
    ensures CubeRoot(WholeCubeRoot(PRIMES0[j]), ROUND_CONSTANTS0[j] as nat, PRIMES0[j])
  {
    hide CubeRoot;
    CubeRoots0();
    CubeRoots1();
  }

  lemma ConstantRow1(j: nat)
    requires j < 16
    ensures CubeRoot(WholeCubeRoot(PRIMES1[j]), ROUND_CONSTANTS1[j] as nat, PRIMES1[j])
  {
    hide CubeRoot;
    CubeRoots2();
    CubeRoots3();
  }

  lemma ConstantRow2(j: nat)
    requires j < 16
    ensures CubeRoot(WholeCubeRoot(PRIMES2[j]), ROUND_CONSTANTS2[j] as nat, PRIMES2[j])
  {
    hide CubeRoot;
    CubeRoots4();
    CubeRoots5();
  }

  lemma ConstantRow3(j: nat)
    requires j < 16
    ensures CubeRoot(WholeCubeRoot(PRIMES3[j]), ROUND_CONSTANTS3[j] as nat, PRIMES3[j])
  {
    hide CubeRoot;
    CubeRoots6();
    CubeRoots7();
  }

  lemma ConstantRow4(j: nat)
    requires j < 16
    ensures CubeRoot(WholeCubeRoot(PRIMES4[j]), ROUND_CONSTANTS4[j] as nat, PRIMES4[j])
  {
    hide CubeRoot;
    CubeRoots8();
    CubeRoots9();
  }

  lemma RowLengths()
    ensures |ROUND_CONSTANTS0| == |ROUND_CONSTANTS1| == |ROUND_CONSTANTS2| == |ROUND_CONSTANTS3| == 16
    ensures |ROUND_CONSTANTS4| == |PRIMES0| == |PRIMES1| == |PRIMES2| == |PRIMES3| == |PRIMES4| == 16
  {
  }

  /** Round constant t holds the first 64 bits of the fraction of the cube root of the t-th prime. */
  lemma RoundConstant(t: nat)
    requires t < 80
    ensures |K512| == 80 && |PRIMES| == 80
    ensures CubeRoot(WholeCubeRoot(PRIMES[t]), K512[t] as nat, PRIMES[t])
  {
    hide CubeRoot, WholeCubeRoot,
         ROUND_CONSTANTS0, ROUND_CONSTANTS1, ROUND_CONSTANTS2, ROUND_CONSTANTS3, ROUND_CONSTANTS4,
         PRIMES0, PRIMES1, PRIMES2, PRIMES3, PRIMES4;
    RowLengths();
    if t < 16 { ConstantRow0(t); }
    else if t < 32 { ConstantRow1(t - 16); }
    else if t < 48 { ConstantRow2(t - 32); }
    else if t < 64 { ConstantRow3(t - 48); }
    else { ConstantRow4(t - 64); }
  }

  // ---------------------------------------------------------------- square roots

  /** The same for the square root. */
  predicate SquareRoot(c: nat, w: nat, p: nat) {
    var a := c * TWO_64 + w;
    a * a <= p * TWO_128 < (a + 1) * (a + 1)
  }

  lemma SquareRoots()
    ensures SquareRoot(1, 0x6a09e667f3bcc908, 2)
    ensures SquareRoot(1, 0xbb67ae8584caa73b, 3)
    ensures SquareRoot(2, 0x3c6ef372fe94f82b, 5)
    ensures SquareRoot(2, 0xa54ff53a5f1d36f1, 7)
    ensures SquareRoot(3, 0x510e527fade682d1, 11)
    ensures SquareRoot(3, 0x9b05688c2b3e6c1f, 13)
    ensures SquareRoot(4, 0x1f83d9abfb41bd6b, 17)
    ensures SquareRoot(4, 0x5be0cd19137e2179, 19)
  {
  }

  /** Word t of the initial hash value holds the first 64 bits of the fraction of the square root
      of the t-th prime. */
  lemma InitialWord(t: nat)
    requires t < 8
    ensures var p := PRIMES0[t];
            PRIMES[t] == p
            && SquareRoot(if p < 4 then 1 else if p < 9 then 2 else if p < 16 then 3 else 4,
                          INITIAL_HASH_VALUE[t] as nat, p)
  {
    hide SquareRoot;
    SquareRoots();
  }
}
