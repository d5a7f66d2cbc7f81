/** What the six logical functions of scripts/dagger/sha512.c do to each bit, as section 4.1.3 of
    FIPS 180-4 describes them. */
module Sha512Logic {
  import opened Sha512Spec

  /** Bit i, counted from the least significant. */
  function Bit(x: Word64, i: Word64): bool
    requires i < 64
  {
    (x >> i) & 1 == 1
  }

  function Majority(a: bool, b: bool, c: bool): bool {
    (a && b) || (c && (a || b))
  }

  function Parity(a: bool, b: bool, c: bool): bool {
    a != (b != c)
  }

  /** The position n to the left of i, around the word. */
  function Around(i: Word64, n: Word64): (j: Word64)
    ensures j < 64
  {
    (i + n) % 64
  }

  // ---------------------------------------------------------------- single operations

  lemma Operators(x: Word64, y: Word64, i: Word64)
    requires i < 64
    ensures Bit(x & y, i) == (Bit(x, i) && Bit(y, i))
    ensures Bit(!x, i) == !Bit(x, i)
    ensures Bit(x ^ y, i) == (Bit(x, i) != Bit(y, i))
  {
  }

  lemma AndBit(x: Word64, y: Word64, i: Word64)
    requires i < 64
    ensures Bit(And(x, y), i) == (Bit(x, i) && Bit(y, i))
  {
    hide Bit;
    Operators(x, y, i);
  }

  lemma NotBit(x: Word64, i: Word64)
    requires i < 64
    ensures Bit(Not(x), i) == !Bit(x, i)
  {
    hide Bit;
    Operators(x, x, i);
  }

  lemma XorBit(x: Word64, y: Word64, i: Word64)
    requires i < 64
    ensures Bit(Xor(x, y), i) == (Bit(x, i) != Bit(y, i))
  {
    hide Bit;
    Operators(x, y, i);
  }

  lemma Xor3Bit(x: Word64, y: Word64, z: Word64, i: Word64)
    requires i < 64
    ensures Bit(Xor(Xor(x, y), z), i) == Parity(Bit(x, i), Bit(y, i), Bit(z, i))
  {
    hide Bit, Xor;
    XorBit(x, y, i);
    XorBit(Xor(x, y), z, i);
  }

  // ---------------------------------------------------------------- choice and majority

  /** x chooses between y and z. */
  lemma ChBit(x: Word64, y: Word64, z: Word64, i: Word64)
    requires i < 64
    ensures Bit(Ch(x, y, z), i) == if Bit(x, i) then Bit(y, i) else Bit(z, i)
  {
    hide Bit, And, Xor, Not;
    AndBit(x, y, i);
    NotBit(x, i);
    AndBit(Not(x), z, i);
    XorBit(And(x, y), And(Not(x), z), i);
  }

  /** At least two of the three bits are set. */
  lemma MajBit(x: Word64, y: Word64, z: Word64, i: Word64)
    requires i < 64
    ensures Bit(Maj(x, y, z), i) == Majority(Bit(x, i), Bit(y, i), Bit(z, i))
  {
    hide Bit, And, Xor;
    AndBit(x, y, i);
    AndBit(x, z, i);
    AndBit(y, z, i);
    Xor3Bit(And(x, y), And(x, z), And(y, z), i);
  }

  // ---------------------------------------------------------------- the sigma functions

  lemma Rotr28(x: Word64, i: Word64)
    requires i < 64
    ensures Bit(Rotr(28, x), i) == Bit(x, Around(i, 28))
  {
  }

  lemma Rotr34(x: Word64, i: Word64)
    requires i < 64
    ensures Bit(Rotr(34, x), i) == Bit(x, Around(i, 34))
  {
  }

  lemma Rotr39(x: Word64, i: Word64)
    requires i < 64
    ensures Bit(Rotr(39, x), i) == Bit(x, Around(i, 39))
  {
  }

  lemma Rotr14(x: Word64, i: Word64)
    requires i < 64
    ensures Bit(Rotr(14, x), i) == Bit(x, Around(i, 14))
  {
  }

  lemma Rotr18(x: Word64, i: Word64)
    requires i < 64
    ensures Bit(Rotr(18, x), i) == Bit(x, Around(i, 18))
  {
  }

  lemma Rotr41(x: Word64, i: Word64)
    requires i < 64
    ensures Bit(Rotr(41, x), i) == Bit(x, Around(i, 41))
  {
  }

  lemma Rotr1(x: Word64, i: Word64)
    requires i < 64
    ensures Bit(Rotr(1, x), i) == Bit(x, Around(i, 1))
  {
  }

  lemma Rotr8(x: Word64, i: Word64)
    requires i < 64
    ensures Bit(Rotr(8, x), i) == Bit(x, Around(i, 8))
  {
  }

  lemma Rotr19(x: Word64, i: Word64)
    requires i < 64
    ensures Bit(Rotr(19, x), i) == Bit(x, Around(i, 19))
  {
  }

  lemma Rotr61(x: Word64, i: Word64)
    requires i < 64
    ensures Bit(Rotr(61, x), i) == Bit(x, Around(i, 61))
  {
  }

  lemma Shr7(x: Word64, i: Word64)
    requires i < 64
    ensures Bit(Shr(7, x), i) == (i < 57 && Bit(x, Around(i, 7)))
  {
  }

  lemma Shr6(x: Word64, i: Word64)
    requires i < 64
    ensures Bit(Shr(6, x), i) == (i < 58 && Bit(x, Around(i, 6)))
  {
  }

  lemma BigSigma0Bit(x: Word64, i: Word64)
    requires i < 64
    ensures Bit(BigSigma0(x), i)
            == Parity(Bit(x, Around(i, 28)), Bit(x, Around(i, 34)), Bit(x, Around(i, 39)))
  {
    hide Bit, Rotr, Shr, Xor, Around;
    Xor3Bit(Rotr(28, x), Rotr(34, x), Rotr(39, x), i);
    Rotr28(x, i);
    Rotr34(x, i);
    Rotr39(x, i);
  }

  lemma BigSigma1Bit(x: Word64, i: Word64)
    requires i < 64
    ensures Bit(BigSigma1(x), i)
            == Parity(Bit(x, Around(i, 14)), Bit(x, Around(i, 18)), Bit(x, Around(i, 41)))
  {
    hide Bit, Rotr, Shr, Xor, Around;
    Xor3Bit(Rotr(14, x), Rotr(18, x), Rotr(41, x), i);
    Rotr14(x, i);
    Rotr18(x, i);
    Rotr41(x, i);
  }

  lemma SmallSigma0Bit(x: Word64, i: Word64)
    requires i < 64
    ensures Bit(SmallSigma0(x), i)
            == Parity(Bit(x, Around(i, 1)), Bit(x, Around(i, 8)), i < 57 && Bit(x, Around(i, 7)))
  {
    hide Bit, Rotr, Shr, Xor, Around;
    Xor3Bit(Rotr(1, x), Rotr(8, x), Shr(7, x), i);
    Rotr1(x, i);
    Rotr8(x, i);
    Shr7(x, i);
  }

  lemma SmallSigma1Bit(x: Word64, i: Word64)
    requires i < 64
    ensures Bit(SmallSigma1(x), i)
            == Parity(Bit(x, Around(i, 19)), Bit(x, Around(i, 61)), i < 58 && Bit(x, Around(i, 6)))
  {
    hide Bit, Rotr, Shr, Xor, Around;
    Xor3Bit(Rotr(19, x), Rotr(61, x), Shr(6, x), i);
    Rotr19(x, i);
    Rotr61(x, i);
    Shr6(x, i);
  }
}
