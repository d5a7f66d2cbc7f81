/** What the padding of scripts/dagger/sha512.c promises (section 5.1.2 of FIPS 180-4): the shortest
    block-aligned extension that tells the message and its length apart. */
module Sha512Padding {
  import opened Words
  import opened Sha512Spec

  /** The number that eight base-256 digits write, most significant first. */
  function Value(n0: nat, n1: nat, n2: nat, n3: nat, n4: nat, n5: nat, n6: nat, n7: nat): nat {
    n0 * 0x100_0000_0000_0000 + n1 * 0x1_0000_0000_0000 + n2 * 0x100_0000_0000 + n3 * 0x1_0000_0000
    + n4 * 0x100_0000 + n5 * 0x1_0000 + n6 * 0x100 + n7
  }

  ghost function Number(s: seq<Byte>): nat
    requires |s| == 8
  {
    Value(s[0] as nat, s[1] as nat, s[2] as nat, s[3] as nat, s[4] as nat, s[5] as nat, s[6] as nat, s[7] as nat)
  }

  // ---------------------------------------------------------------- words and numbers

  lemma Joined(b0: Byte, b1: Byte, b2: Byte, b3: Byte, b4: Byte, b5: Byte, b6: Byte, b7: Byte)
    ensures ((b0 as Word64 << 56) | (b1 as Word64 << 48) | (b2 as Word64 << 40) | (b3 as Word64 << 32)
             | (b4 as Word64 << 24) | (b5 as Word64 << 16) | (b6 as Word64 << 8) | b7 as Word64) as nat
            == b0 as nat * 0x100_0000_0000_0000 + b1 as nat * 0x1_0000_0000_0000 + b2 as nat * 0x100_0000_0000
               + b3 as nat * 0x1_0000_0000 + b4 as nat * 0x100_0000 + b5 as nat * 0x1_0000
               + b6 as nat * 0x100 + b7 as nat
  {
  }

  lemma BigIs(b0: Byte, b1: Byte, b2: Byte, b3: Byte, b4: Byte, b5: Byte, b6: Byte, b7: Byte)
    ensures Big(b0, b1, b2, b3, b4, b5, b6, b7)
            == (b0 as Word64 << 56) | (b1 as Word64 << 48) | (b2 as Word64 << 40) | (b3 as Word64 << 32)
               | (b4 as Word64 << 24) | (b5 as Word64 << 16) | (b6 as Word64 << 8) | b7 as Word64
  {
  }

  lemma ValueIs(n0: nat, n1: nat, n2: nat, n3: nat, n4: nat, n5: nat, n6: nat, n7: nat)
    ensures Value(n0, n1, n2, n3, n4, n5, n6, n7)
            == n0 * 0x100_0000_0000_0000 + n1 * 0x1_0000_0000_0000 + n2 * 0x100_0000_0000 + n3 * 0x1_0000_0000
               + n4 * 0x100_0000 + n5 * 0x1_0000 + n6 * 0x100 + n7
  {
  }

  /** Big-endian, in arithmetic. */
  lemma BigValue(b0: Byte, b1: Byte, b2: Byte, b3: Byte, b4: Byte, b5: Byte, b6: Byte, b7: Byte)
    ensures Big(b0, b1, b2, b3, b4, b5, b6, b7) as nat
            == Value(b0 as nat, b1 as nat, b2 as nat, b3 as nat, b4 as nat, b5 as nat, b6 as nat, b7 as nat)
  {
    hide Big, Value;
    Joined(b0, b1, b2, b3, b4, b5, b6, b7);
    BigIs(b0, b1, b2, b3, b4, b5, b6, b7);
    ValueIs(b0 as nat, b1 as nat, b2 as nat, b3 as nat, b4 as nat, b5 as nat, b6 as nat, b7 as nat);
  }

  lemma Doubled(b: Byte)
    requires b < 128
    ensures (b << 1) as nat == 2 * b as nat && ((b << 1) | 1) as nat == 2 * b as nat + 1
  {
  }

  /** Every number below 256 is a byte. */
  lemma {:induction false} ByteFor(n: nat) returns (b: Byte)
    requires n < 0x100
    ensures b as nat == n
    decreases n
  {
    b := 0;
    if n > 0 {
      var half := ByteFor(n / 2);
      Below128(half);
      Doubled(half);
      b := if n % 2 == 0 then half << 1 else (half << 1) | 1;
    }
  }

  lemma Below128(b: Byte)
    ensures b as nat < 128 ==> b < 128
  {
  }

  lemma WordNumber(w: Word64)
    ensures w as nat as Word64 == w
  {
  }

  lemma ToWordOf(w: Word64, n: nat)
    requires n < TWO_64 && w as nat == n
    ensures ToWord(n) == w
  {
    WordNumber(w);
  }

  /** Every number below 2^64 is written by eight bytes. */
  lemma EightBytes(n: nat) returns (b: seq<Byte>)
    requires n < TWO_64
    ensures |b| == 8 && Number(b) == n
  {
    var m6, d7 := n / 0x100, n % 0x100;
    var m5, d6 := m6 / 0x100, m6 % 0x100;
    var m4, d5 := m5 / 0x100, m5 % 0x100;
    var m3, d4 := m4 / 0x100, m4 % 0x100;
    var m2, d3 := m3 / 0x100, m3 % 0x100;
    var m1, d2 := m2 / 0x100, m2 % 0x100;
    var d0, d1 := m1 / 0x100, m1 % 0x100;
    assert Value(d0, d1, d2, d3, d4, d5, d6, d7) == n && d0 < 0x100;
    b := FromDigits(d0, d1, d2, d3, d4, d5, d6, d7);
  }

  lemma FromDigits(d0: nat, d1: nat, d2: nat, d3: nat, d4: nat, d5: nat, d6: nat, d7: nat) returns (b: seq<Byte>)
    requires d0 < 0x100 && d1 < 0x100 && d2 < 0x100 && d3 < 0x100
    requires d4 < 0x100 && d5 < 0x100 && d6 < 0x100 && d7 < 0x100
    ensures |b| == 8 && Number(b) == Value(d0, d1, d2, d3, d4, d5, d6, d7)
  {
    hide Value;
    var b0 := ByteFor(d0);
    var b1 := ByteFor(d1);
    var b2 := ByteFor(d2);
    var b3 := ByteFor(d3);
    var b4 := ByteFor(d4);
    var b5 := ByteFor(d5);
    var b6 := ByteFor(d6);
    var b7 := ByteFor(d7);
    b := [b0, b1, b2, b3, b4, b5, b6, b7];
  }

  lemma BytesOfBig(b0: Byte, b1: Byte, b2: Byte, b3: Byte, b4: Byte, b5: Byte, b6: Byte, b7: Byte)
    ensures BigBytes(Big(b0, b1, b2, b3, b4, b5, b6, b7)) == [b0, b1, b2, b3, b4, b5, b6, b7]
  {
  }

  /** A number stored as a big-endian word is that number. */
  lemma BigBytesNumber(n: nat)
    requires n < TWO_64
    ensures Number(BigBytes(ToWord(n))) == n
  {
    hide Big, BigBytes, ToWord, Value;
    var b := EightBytes(n);
    BigValue(b[0], b[1], b[2], b[3], b[4], b[5], b[6], b[7]);
    BytesOfBig(b[0], b[1], b[2], b[3], b[4], b[5], b[6], b[7]);
    ToWordOf(Big(b[0], b[1], b[2], b[3], b[4], b[5], b[6], b[7]), n);
  }

  // ---------------------------------------------------------------- the padding

  /** The message, a one bit, zeros, and the bit length as a 128-bit number, in the fewest blocks
      that hold them. */
  lemma PadShape(msg: seq<Byte>)
    ensures var s, n := Pad(msg), |msg|;
            |s| % 128 == 0 && n + 17 <= |s| < n + 17 + 128
            && s[..n] == msg && s[n] == 0x80 && (forall i :: n < i < |s| - 16 ==> s[i] == 0)
            && Number(s[|s| - 16..|s| - 8]) * TWO_64 + Number(s[|s| - 8..]) == 8 * n % TWO_128
  {
    hide BigBytes, ToWord, Number;
    var bits := 8 * |msg|;
    var high, low := bits / TWO_64 % TWO_64, bits % TWO_64;
    var s, zeros := Pad(msg), (239 - |msg| % 128) % 128;
    var front := msg + [0x80] + Zeros(zeros);
    assert s == front + LengthField(bits);
    assert s[|s| - 16..|s| - 8] == BigBytes(ToWord(high)) && s[|s| - 8..] == BigBytes(ToWord(low));
    BigBytesNumber(high);
    BigBytesNumber(low);
    Halves(bits);
    assert s[..|msg|] == msg;
  }

  lemma Halves(bits: nat)
    ensures bits / TWO_64 % TWO_64 * TWO_64 + bits % TWO_64 == bits % TWO_128
  {
  }

  /** Below 2^128 bits, the padding hides nothing: different messages are padded differently. */
  lemma PadInjective(a: seq<Byte>, b: seq<Byte>)
    requires 8 * |a| < TWO_128 && 8 * |b| < TWO_128 && Pad(a) == Pad(b)
    ensures a == b
  {
    hide Pad, Number;
    PadShape(a);
    PadShape(b);
  }
}
