/** SHA-512 as sections 4.1.3, 5.1.2, 5.2.2 and 6.4 of FIPS 180-4 define it, and the byte-order
    facts that scripts/dagger/sha512.c relies on. */
module Sha512Spec {
  import opened Words

  type Word64 = bv64

  /** The eighty round constants (section 4.2.3) and the initial hash value (section 5.3.5). */
  datatype Params = Params(k: seq<Word64>, iv: seq<Word64>) {
    ghost predicate Valid() { |k| == 80 && |iv| == 8 }
  }

  // ---------------------------------------------------------------- the logical functions

  function Rotr(b: Word64, x: Word64): Word64
    requires 0 < b < 64
  {
    (x >> b) | (x << (64 - b))
  }

  function Shr(b: Word64, x: Word64): Word64
    requires b < 64
  {
    x >> b
  }

  function And(x: Word64, y: Word64): Word64 { x & y }

  function Xor(x: Word64, y: Word64): Word64 { x ^ y }

  function Not(x: Word64): Word64 { !x }

  function Ch(x: Word64, y: Word64, z: Word64): Word64 { Xor(And(x, y), And(Not(x), z)) }

  function Maj(x: Word64, y: Word64, z: Word64): Word64 { Xor(Xor(And(x, y), And(x, z)), And(y, z)) }

  function BigSigma0(x: Word64): Word64 { Xor(Xor(Rotr(28, x), Rotr(34, x)), Rotr(39, x)) }

  function BigSigma1(x: Word64): Word64 { Xor(Xor(Rotr(14, x), Rotr(18, x)), Rotr(41, x)) }

  function SmallSigma0(x: Word64): Word64 { Xor(Xor(Rotr(1, x), Rotr(8, x)), Shr(7, x)) }

  function SmallSigma1(x: Word64): Word64 { Xor(Xor(Rotr(19, x), Rotr(61, x)), Shr(6, x)) }

  // ---------------------------------------------------------------- one block

  /** Addition modulo 2^64. */
  function Plus(x: Word64, y: Word64): Word64 {
    x + y
  }

  /** The message schedule: eighty words, each from four earlier ones. */
  function Schedule(block: seq<Word64>, t: nat): Word64
    requires |block| == 16
  {
    if t < 16 then block[t]
    else
      Plus(Expanded(Schedule(block, t - 2), Schedule(block, t - 7), Schedule(block, t - 15)), Schedule(block, t - 16))
  }

  /** The part of a schedule word that comes from the words 2, 7 and 15 before it. */
  function Expanded(w2: Word64, w7: Word64, w15: Word64): Word64 {
    Plus(Plus(SmallSigma1(w2), w7), SmallSigma0(w15))
  }

  /** The working variables a to h. */
  datatype Regs = Regs(a: Word64, b: Word64, c: Word64, d: Word64, e: Word64, f: Word64, g: Word64, h: Word64)

  function Round(r: Regs, k: Word64, w: Word64): Regs {
    var t1 := Plus(Plus(Plus(Plus(r.h, BigSigma1(r.e)), Ch(r.e, r.f, r.g)), k), w);
    var t2 := Plus(BigSigma0(r.a), Maj(r.a, r.b, r.c));
    Regs(Plus(t1, t2), r.a, r.b, r.c, Plus(r.d, t1), r.e, r.f, r.g)
  }

  function Rounds(k: seq<Word64>, block: seq<Word64>, r: Regs, t: nat): Regs
    requires |block| == 16 && t <= |k|
  {
    if t == 0 then r else Round(Rounds(k, block, r, t - 1), k[t - 1], Schedule(block, t - 1))
  }

  function ToRegs(s: seq<Word64>): Regs
    requires |s| == 8
  {
    Regs(s[0], s[1], s[2], s[3], s[4], s[5], s[6], s[7])
  }

  function AddRegs(s: seq<Word64>, r: Regs): (n: seq<Word64>)
    requires |s| == 8
    ensures |n| == 8
  {
    [Plus(s[0], r.a), Plus(s[1], r.b), Plus(s[2], r.c), Plus(s[3], r.d),
     Plus(s[4], r.e), Plus(s[5], r.f), Plus(s[6], r.g), Plus(s[7], r.h)]
  }

  /** One step of section 6.4.2: the next intermediate hash value. */
  function Compress(k: seq<Word64>, state: seq<Word64>, block: seq<Word64>): (n: seq<Word64>)
    requires |k| == 80 && |state| == 8 && |block| == 16
    ensures |n| == 8
  {
    AddRegs(state, Rounds(k, block, ToRegs(state), 80))
  }

  lemma NoRounds(k: seq<Word64>, block: seq<Word64>, r: Regs)
    requires |block| == 16
    ensures Rounds(k, block, r, 0) == r
  {
  }

  lemma RoundsStep(k: seq<Word64>, block: seq<Word64>, r: Regs, t: nat)
    requires |block| == 16 && t < |k|
    ensures Rounds(k, block, r, t + 1) == Round(Rounds(k, block, r, t), k[t], Schedule(block, t))
  {
    hide Round, Schedule;
  }

  lemma FirstSchedule(block: seq<Word64>, t: nat)
    requires |block| == 16 && t < 16
    ensures Schedule(block, t) == block[t]
  {
    hide Plus, Expanded;
  }

  lemma ScheduleStep(block: seq<Word64>, j: nat)
    requires |block| == 16 && j >= 16
    ensures Schedule(block, j)
            == Plus(Expanded(Schedule(block, j - 2), Schedule(block, j - 7), Schedule(block, j - 15)),
                    Schedule(block, j - 16))
  {
    hide Expanded, Plus;
  }

  // ---------------------------------------------------------------- bytes and words

  function Big(b0: Byte, b1: Byte, b2: Byte, b3: Byte, b4: Byte, b5: Byte, b6: Byte, b7: Byte): Word64 {
    (b0 as Word64 << 56) | (b1 as Word64 << 48) | (b2 as Word64 << 40) | (b3 as Word64 << 32)
    | (b4 as Word64 << 24) | (b5 as Word64 << 16) | (b6 as Word64 << 8) | b7 as Word64
  }

  /** Byte i of a word, counted from the least significant. */
  function ByteOf(w: Word64, i: nat): Byte
    requires i < 8
  {
    match i
    case 0 => (w & 0xFF) as Byte
    case 1 => ((w >> 8) & 0xFF) as Byte
    case 2 => ((w >> 16) & 0xFF) as Byte
    case 3 => ((w >> 24) & 0xFF) as Byte
    case 4 => ((w >> 32) & 0xFF) as Byte
    case 5 => ((w >> 40) & 0xFF) as Byte
    case 6 => ((w >> 48) & 0xFF) as Byte
    case 7 => (w >> 56) as Byte
  }

  function BigBytes(w: Word64): (s: seq<Byte>)
    ensures |s| == 8
  {
    [ByteOf(w, 7), ByteOf(w, 6), ByteOf(w, 5), ByteOf(w, 4), ByteOf(w, 3), ByteOf(w, 2), ByteOf(w, 1), ByteOf(w, 0)]
  }

  function BigAt(s: seq<Byte>, i: nat): Word64
    requires i + 8 <= |s|
  {
    Big(s[i], s[i + 1], s[i + 2], s[i + 3], s[i + 4], s[i + 5], s[i + 6], s[i + 7])
  }

  /** The 1024-bit block of 128 bytes, as sixteen words. */
  function BlockOf(s: seq<Byte>): (block: seq<Word64>)
    requires |s| == 128
    ensures |block| == 16
    ensures forall i :: 0 <= i < 16 ==> block[i] == BigAt(s, 8 * i)
  {
    seq(16, i requires 0 <= i < 16 => BigAt(s, 8 * i))
  }

  // ---------------------------------------------------------------- the message

  function Zeros(n: nat): (s: seq<Byte>)
    ensures |s| == n && forall i :: 0 <= i < n ==> s[i] == 0
  {
    seq(n, _ => 0)
  }

  function ToWord(n: nat): Word64
    requires n < TWO_64
  {
    n as Word64
  }

  /** The 128-bit length field. FIPS 180-4 asks for messages below 2^128 bits; beyond that the
      code keeps the length modulo 2^128, and so does this. */
  ghost function LengthField(bits: nat): (s: seq<Byte>)
    ensures |s| == 16
  {
    BigBytes(ToWord(bits / TWO_64 % TWO_64)) + BigBytes(ToWord(bits % TWO_64))
  }

  /** Section 5.1.2: a one bit, zero bits up to 896 modulo 1024, and the length. */
  ghost function Pad(msg: seq<Byte>): (s: seq<Byte>)
    ensures |s| % 128 == 0
  {
    var zeros: nat := (239 - |msg| % 128) % 128;
    PadLength(|msg|);
    msg + [0x80] + Zeros(zeros) + LengthField(8 * |msg|)
  }

  lemma PadLength(n: nat)
    ensures (n + 1 + (239 - n % 128) % 128 + 16) % 128 == 0
  {
  }

  /** The hash value after the whole blocks of a message. */
  ghost function HashBlocks(p: Params, msg: seq<Byte>): (state: seq<Word64>)
    requires p.Valid()
    ensures |state| == 8
  {
    if |msg| < 128 then p.iv
    else
      var n := |msg| - 128;
      Compress(p.k, HashBlocks(p, msg[..n]), BlockOf(msg[n..]))
  }

  lemma HashOneMore(p: Params, msg: seq<Byte>, block: seq<Byte>)
    requires p.Valid() && |block| == 128
    ensures HashBlocks(p, msg + block) == Compress(p.k, HashBlocks(p, msg), BlockOf(block))
  {
    hide Compress, BlockOf;
    assert (msg + block)[..|msg|] == msg && (msg + block)[|msg|..] == block;
  }

  ghost function DigestBytes(state: seq<Word64>): (s: seq<Byte>)
    requires |state| == 8
    ensures |s| == 64
  {
    BigBytes(state[0]) + BigBytes(state[1]) + BigBytes(state[2]) + BigBytes(state[3])
    + BigBytes(state[4]) + BigBytes(state[5]) + BigBytes(state[6]) + BigBytes(state[7])
  }

  /** The digest of section 6.4. */
  ghost function Sha512(p: Params, msg: seq<Byte>): (digest: seq<Byte>)
    requires p.Valid()
    ensures |digest| == 64
  {
    DigestBytes(HashBlocks(p, Pad(msg)))
  }

  // ---------------------------------------------------------------- a little-endian host

  /** What a little-endian host reads from eight bytes. */
  function Little(b0: Byte, b1: Byte, b2: Byte, b3: Byte, b4: Byte, b5: Byte, b6: Byte, b7: Byte): Word64 {
    Big(b7, b6, b5, b4, b3, b2, b1, b0)
  }

  /** REVERSE64: three exchanges, of halves, of neighbouring bytes, of neighbouring pairs. */
  function Reverse64(w: Word64): Word64 {
    var t1 := (w >> 32) | (w << 32);
    var t2 := ((t1 & 0xff00ff00ff00ff00) >> 8) | ((t1 & 0x00ff00ff00ff00ff) << 8);
    ((t2 & 0xffff0000ffff0000) >> 16) | ((t2 & 0x0000ffff0000ffff) << 16)
  }

  lemma ReverseLittleIsBig(b0: Byte, b1: Byte, b2: Byte, b3: Byte, b4: Byte, b5: Byte, b6: Byte, b7: Byte)
    ensures Reverse64(Little(b0, b1, b2, b3, b4, b5, b6, b7)) == Big(b0, b1, b2, b3, b4, b5, b6, b7)
  {
  }

  lemma ReverseBytes(w: Word64)
    ensures ByteOf(Reverse64(w), 0) == ByteOf(w, 7) && ByteOf(Reverse64(w), 1) == ByteOf(w, 6)
    ensures ByteOf(Reverse64(w), 2) == ByteOf(w, 5) && ByteOf(Reverse64(w), 3) == ByteOf(w, 4)
    ensures ByteOf(Reverse64(w), 4) == ByteOf(w, 3) && ByteOf(Reverse64(w), 5) == ByteOf(w, 2)
    ensures ByteOf(Reverse64(w), 6) == ByteOf(w, 1) && ByteOf(Reverse64(w), 7) == ByteOf(w, 0)
  {
  }

  lemma LittleOfBytes(w: Word64)
    ensures Little(ByteOf(w, 0), ByteOf(w, 1), ByteOf(w, 2), ByteOf(w, 3),
                   ByteOf(w, 4), ByteOf(w, 5), ByteOf(w, 6), ByteOf(w, 7)) == w
  {
  }
}
