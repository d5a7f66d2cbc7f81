/** scripts/dagger/sha512.c: the streaming hash, on a little-endian host. */
module Sha512 {
  import opened Words
  import opened Sha512Spec
  import opened Sha512Constants

  const SHA512_BLOCK_LENGTH: nat := 128
  const SHA512_SHORT_BLOCK_LENGTH: nat := 112

  /** The host's word at word index i of a byte buffer. */
  function HostWord(a: array<Byte>, i: nat): Word64
    requires 8 * i + 8 <= a.Length
    reads a
  {
    LittleAt(a, 8 * i)
  }

  function LittleAt(a: array<Byte>, off: nat): Word64
    requires off + 8 <= a.Length
    reads a
  {
    Little(a[off], a[off + 1], a[off + 2], a[off + 3], a[off + 4], a[off + 5], a[off + 6], a[off + 7])
  }

  /** memcpy of a byte string into a buffer. */
  method CopyBytes(a: array<Byte>, off: nat, s: seq<Byte>)
    requires off + |s| <= a.Length
    modifies a
    ensures forall j :: 0 <= j < |s| ==> a[off + j] == s[j]
    ensures forall j :: 0 <= j < a.Length && !(off <= j < off + |s|) ==> a[j] == old(a[j])
  {
    forall j | 0 <= j < |s| {
      a[off + j] := s[j];
    }
  }

  /** The bytes of a word in the order a little-endian host stores them. */
  function LittleBytes(w: Word64): (s: seq<Byte>)
    ensures |s| == 8
  {
    [ByteOf(w, 0), ByteOf(w, 1), ByteOf(w, 2), ByteOf(w, 3), ByteOf(w, 4), ByteOf(w, 5), ByteOf(w, 6), ByteOf(w, 7)]
  }

  method StoreWord(a: array<Byte>, i: nat, w: Word64)
    requires 8 * i + 8 <= a.Length
    modifies a
    ensures HostWord(a, i) == w
    ensures forall j :: 0 <= j < 8 ==> a[8 * i + j] == LittleBytes(w)[j]
    ensures forall j :: 0 <= j < a.Length && !(8 * i <= j < 8 * i + 8) ==> a[j] == old(a[j])
  {
    hide Little, ByteOf;
    CopyBytes(a, 8 * i, LittleBytes(w));
    StoredWord(a, 8 * i, w);
  }

  lemma StoredWord(a: array<Byte>, off: nat, w: Word64)
    requires off + 8 <= a.Length && forall j :: 0 <= j < 8 ==> a[off + j] == LittleBytes(w)[j]
    ensures LittleAt(a, off) == w
  {
    hide Little, ByteOf;
    LittleOfBytes(w);
    var s := LittleBytes(w);
    assert a[off + 0] == s[0] && a[off + 1] == s[1] && a[off + 2] == s[2] && a[off + 3] == s[3];
    assert a[off + 4] == s[4] && a[off + 5] == s[5] && a[off + 6] == s[6] && a[off + 7] == s[7];
  }

  /** Word j of a block, read on the host and reversed, is the big-endian word. */
  lemma ReadReversed(a: array<Byte>, off: nat, j: nat, bytes: seq<Byte>)
    requires off + 128 <= a.Length && j < 16 && |bytes| == 128
    requires forall i :: 8 * j <= i < 8 * j + 8 ==> a[off + i] == bytes[i]
    ensures Reverse64(LittleAt(a, off + 8 * j)) == BlockOf(bytes)[j]
  {
    hide Reverse64, Little, Big;
    var n := 8 * j;
    ReverseLittleIsBig(bytes[n], bytes[n + 1], bytes[n + 2], bytes[n + 3],
                       bytes[n + 4], bytes[n + 5], bytes[n + 6], bytes[n + 7]);
    assert BlockOf(bytes)[j] == BigAt(bytes, n);
  }

  // ---------------------------------------------------------------- the context

  class Sha512Context {
    const p: Params
    const state: array<Word64>
    const buffer: array<Byte>
    /** The two halves of the bit counter, each modulo 2^64. */
    var bitcount0: nat
    var bitcount1: nat
    /** Every byte given to Update so far. */
    ghost var seen: seq<Byte>

    ghost predicate Shaped() {
      p.Valid() && state.Length == 8 && buffer.Length == SHA512_BLOCK_LENGTH
    }

    /** The chaining state covers the whole blocks seen, the buffer starts with the rest, and the
        counter holds the bit length modulo 2^128. */
    ghost predicate Valid()
      reads this, state, buffer
    {
      Shaped() && Counts(bitcount0, bitcount1, 8 * |seen|)
      && state[..] == HashBlocks(p, Whole(seen))
      && buffer[..|seen| % 128] == Rest(seen)
    }

    /** SHA512_Init. */
    constructor (p: Params)
      requires p.Valid()
      ensures Valid() && this.p == p && seen == [] && fresh(state) && fresh(buffer)
    {
      this.p := p;
      state := new Word64[8](i requires 0 <= i < 8 => p.iv[i]);
      buffer := new Byte[SHA512_BLOCK_LENGTH](_ => 0);
      bitcount0, bitcount1 := 0, 0;
      seen := [];
      new;
      assert state[..] == p.iv;
    }

    /** The first sixteen rounds: each word of the block is read, reversed and stored into the
        buffer before it is used. When data is the buffer itself, word j is still unread when
        words 0 to j - 1 have been overwritten. */
    method FirstRounds(data: array<Byte>, off: nat) returns (r: Regs)
      requires Shaped() && off + 128 <= data.Length && (data == buffer ==> off == 0)
      modifies buffer
      ensures var block := BlockOf(old(data[off..off + 128]));
              r == Rounds(p.k, block, ToRegs(state[..]), 16)
              && forall t :: 0 <= t < 16 ==> HostWord(buffer, t) == Schedule(block, t)
    {
      hide Round, Rounds, Schedule, HostWord, BlockOf, ToRegs;
      ghost var bytes := data[off..off + 128];
      ghost var block := BlockOf(bytes);
      ghost var start := ToRegs(state[..]);
      r := ToRegs(state[..]);
      NoRounds(p.k, block, r);
      var j: nat := 0;
      while j < 16
        invariant j <= 16
        invariant forall i :: 8 * j <= i < 128 ==> data[off + i] == bytes[i]
        invariant forall t :: 0 <= t < j ==> HostWord(buffer, t) == block[t]
        invariant r == Rounds(p.k, block, start, j)
      {
        LoadWord(data, off, j, bytes);
        r := FirstRound(j, r, block, start);
        j := j + 1;
      }
      forall t | 0 <= t < 16 ensures HostWord(buffer, t) == Schedule(block, t) {
        FirstSchedule(block, t);
      }
    }

    /** One of the first sixteen rounds, on the word just loaded. */
    method FirstRound(j: nat, r0: Regs, ghost block: seq<Word64>, ghost start: Regs) returns (r: Regs)
      requires Shaped() && |block| == 16 && j < 16 && HostWord(buffer, j) == block[j]
      requires r0 == Rounds(p.k, block, start, j)
      ensures r == Rounds(p.k, block, start, j + 1)
    {
      hide Round, Rounds, Schedule, HostWord;
      r := Round(r0, p.k[j], HostWord(buffer, j));
      FirstSchedule(block, j);
      RoundsStep(p.k, block, start, j);
    }

    /** W512[j] = REVERSE64(*data++). */
    method LoadWord(data: array<Byte>, off: nat, j: nat, ghost bytes: seq<Byte>)
      requires Shaped() && off + 128 <= data.Length && (data == buffer ==> off == 0) && |bytes| == 128 && j < 16
      requires forall i :: 8 * j <= i < 128 ==> data[off + i] == bytes[i]
      modifies buffer
      ensures HostWord(buffer, j) == BlockOf(bytes)[j]
      ensures forall t :: 0 <= t < j ==> HostWord(buffer, t) == old(HostWord(buffer, t))
      ensures forall i :: 8 * j + 8 <= i < 128 ==> data[off + i] == bytes[i]
    {
      hide Little, LittleBytes, Reverse64, Big, BigAt;
      ReadReversed(data, off, j, bytes);
      StoreWord(buffer, j, Reverse64(LittleAt(data, off + 8 * j)));
    }

    /** The other sixty-four rounds, on the circular sixteen-word schedule. */
    method LaterRounds(r0: Regs, ghost block: seq<Word64>, ghost start: Regs) returns (r: Regs)
      requires Shaped() && |block| == 16 && r0 == Rounds(p.k, block, start, 16)
      requires forall t :: 0 <= t < 16 ==> HostWord(buffer, t) == Schedule(block, t)
      modifies buffer
      ensures r == Rounds(p.k, block, start, 80)
    {
      hide Round, Schedule, HostWord, InSlot;
      r := r0;
      var j: nat := 16;
      FirstSlots(buffer, block);
      while j < 80
        invariant 16 <= j <= 80
        invariant forall t: nat :: j - 16 <= t < j ==> InSlot(buffer, block, t)
        invariant r == Rounds(p.k, block, start, j)
      {
        var w := NextWord(j, block);
        r := Round(r, p.k[j], w);
        j := j + 1;
      }
    }

    /** One step of the expansion: the slot of word j - 16 becomes word j. */
    method NextWord(j: nat, ghost block: seq<Word64>) returns (w: Word64)
      requires Shaped() && |block| == 16 && j >= 16
      requires forall t: nat :: j - 16 <= t < j ==> InSlot(buffer, block, t)
      modifies buffer
      ensures w == Schedule(block, j)
      ensures forall t: nat :: j - 15 <= t <= j ==> InSlot(buffer, block, t)
    {
      hide Schedule, HostWord, InSlot, SmallSigma0, SmallSigma1, Plus, SlotOf;
      var s0 := SmallSigma0(HostWord(buffer, (j + 1) % 16));
      var s1 := SmallSigma1(HostWord(buffer, (j + 14) % 16));
      w := Plus(HostWord(buffer, j % 16), Plus(Plus(s1, HostWord(buffer, (j + 9) % 16)), s0));
      NextScheduled(buffer, block, j);
      ghost var was := buffer[..];
      SlotsOf(buffer, block, j);
      StoreWord(buffer, j % 16, w);
      SlotsKept(buffer, was, block, j);
    }

    /** SHA512_Transform: one block into the chaining state; the buffer is scratch space. */
    method Transform(data: array<Byte>, off: nat)
      requires Shaped() && off + 128 <= data.Length && (data == buffer ==> off == 0)
      modifies state, buffer
      ensures state[..] == Compress(p.k, old(state[..]), BlockOf(old(data[off..off + 128])))
    {
      hide Rounds, BlockOf, HostWord, Schedule, Plus;
      ghost var was := state[..];
      ghost var block := BlockOf(data[off..off + 128]);
      var r := FirstRounds(data, off);
      r := LaterRounds(r, block, ToRegs(was));
      AddToState(r);
    }

    method AddToState(r: Regs)
      requires state.Length == 8
      modifies state
      ensures state[..] == AddRegs(old(state[..]), r)
    {
      hide Plus;
      ghost var was := state[..];
      forall i | 0 <= i < 8 {
        state[i] := Plus(state[i], RegAt(r, i));
      }
      forall i | 0 <= i < 8 ensures state[i] == AddRegs(was, r)[i] {
        AddRegsAt(was, r, i);
      }
      assert state[..] == AddRegs(was, r);
    }

    /** ADDINC128 on the counter. */
    method AddBits(n: nat, ghost bits: nat)
      requires n < TWO_64 && Counts(bitcount0, bitcount1, bits)
      modifies this`bitcount0, this`bitcount1
      ensures Counts(bitcount0, bitcount1, bits + n)
    {
      CountStep(bits, n);
      bitcount0 := (bitcount0 + n) % TWO_64;
      if bitcount0 < n {
        bitcount1 := (bitcount1 + 1) % TWO_64;
      }
    }

    /** Bytes that do not fill the buffer are only stored. */
    method StoreRest(data: array<Byte>, off: nat, n: nat)
      requires Valid() && data != buffer && off + n <= data.Length && |seen| % 128 + n < 128
      modifies this`bitcount0, this`bitcount1, this`seen, buffer
      ensures Valid() && seen == old(seen) + data[off..off + n]
    {
      hide HashBlocks, Counts;
      Used(seen, bitcount0, bitcount1);
      var usedspace := bitcount0 / 8 % SHA512_BLOCK_LENGTH;
      ghost var rest, piece := Rest(seen), data[off..off + n];
      CopyBytes(buffer, usedspace, data[off..off + n]);
      AddBits(8 * n, 8 * |seen|);
      Appended(seen, piece);
      seen := seen + piece;
      assert buffer[..usedspace + n] == rest + piece;
    }

    /** Bytes that complete the buffer: store them and process the block in place. */
    method FillBuffer(data: array<Byte>, off: nat, n: nat)
      requires Valid() && data != buffer && off + n <= data.Length && |seen| % 128 > 0 && |seen| % 128 + n == 128
      modifies this`bitcount0, this`bitcount1, this`seen, buffer, state
      ensures Valid() && seen == old(seen) + data[off..off + n] && |seen| % 128 == 0
    {
      hide HashBlocks, Counts, Compress, BlockOf;
      Used(seen, bitcount0, bitcount1);
      var usedspace := bitcount0 / 8 % SHA512_BLOCK_LENGTH;
      ghost var rest, piece := Rest(seen), data[off..off + n];
      CopyBytes(buffer, usedspace, data[off..off + n]);
      AddBits(8 * n, 8 * |seen|);
      assert buffer[0..0 + 128] == rest + piece;
      Transform(buffer, 0);
      Completed(p, seen, piece);
      seen := seen + piece;
    }

    /** A whole block is processed where it is. */
    method WholeBlock(data: array<Byte>, off: nat)
      requires Valid() && data != buffer && off + 128 <= data.Length && |seen| % 128 == 0
      modifies this`bitcount0, this`bitcount1, this`seen, buffer, state
      ensures Valid() && seen == old(seen) + data[off..off + 128] && |seen| % 128 == 0
    {
      hide HashBlocks, Counts, Compress, BlockOf;
      ghost var piece := data[off..off + 128];
      Transform(data, off);
      AddBits(8 * 128, 8 * |seen|);
      Completed(p, seen, piece);
      assert Rest(seen) + piece == piece;
      seen := seen + piece;
    }

    /** SHA512_Update: however the buffer stands, the bytes are added to what was seen. */
    method Update(datain: array<Byte>, len0: nat)
      requires Valid() && datain != buffer && len0 <= datain.Length
      modifies this`bitcount0, this`bitcount1, this`seen, buffer, state
      ensures Valid() && seen == old(seen) + datain[..len0]
    {
      hide HashBlocks, Counts, Whole, Rest, Valid;
      if len0 == 0 {
        assert datain[..0] == [];
        return;
      }
      ghost var before := seen;
      var len: nat, data: nat := len0, 0;
      var usedspace := UsedSpace();
      if usedspace > 0 {
        var freespace := SHA512_BLOCK_LENGTH - usedspace;
        if len < freespace {
          StoreRest(datain, 0, len);
          return;
        }
        FillBuffer(datain, 0, freespace);
        len := len - freespace;
        data := data + freespace;
      }
      assert seen == before + datain[..data];
      data, len := WholeBlocks(datain, data, len, before);
      if len > 0 {
        StoreRest(datain, data, len);
      }
      assert datain[..data] + datain[data..data + len] == datain[..len0];
    }

    /** The loop of Update over complete blocks. */
    method WholeBlocks(datain: array<Byte>, data0: nat, len0: nat, ghost before: seq<Byte>)
      returns (data: nat, len: nat)
      requires Valid() && datain != buffer && data0 + len0 <= datain.Length && |seen| % 128 == 0
      requires seen == before + datain[..data0]
      modifies this`bitcount0, this`bitcount1, this`seen, buffer, state
      ensures Valid() && data + len == data0 + len0 && len < 128 && |seen| % 128 == 0
      ensures seen == before + datain[..data]
    {
      hide HashBlocks, Counts, Whole, Rest;
      data, len := data0, len0;
      while len >= SHA512_BLOCK_LENGTH
        invariant Valid() && data + len == data0 + len0 && |seen| % 128 == 0
        invariant seen == before + datain[..data]
      {
        assert datain[..data] + datain[data..data + 128] == datain[..data + 128];
        WholeBlock(datain, data);
        len := len - SHA512_BLOCK_LENGTH;
        data := data + SHA512_BLOCK_LENGTH;
      }
    }

    method UsedSpace() returns (usedspace: nat)
      requires Valid()
      ensures usedspace == |seen| % 128
    {
      Used(seen, bitcount0, bitcount1);
      usedspace := bitcount0 / 8 % SHA512_BLOCK_LENGTH;
    }

    // -------------------------------------------------------------- padding and output

    /** The length field: both halves of the counter, reversed and stored by the host. */
    method StoreLength(high: Word64, low: Word64)
      requires Shaped()
      modifies buffer
      ensures buffer[..112] == old(buffer[..112]) && buffer[112..] == BigBytes(high) + BigBytes(low)
    {
      hide LittleBytes, BigBytes, Reverse64, HostWord;
      ReversedBytes(high);
      ReversedBytes(low);
      StoreWord(buffer, SHA512_SHORT_BLOCK_LENGTH / 8, Reverse64(high));
      ghost var first := buffer[112..120];
      assert first == BigBytes(high);
      StoreWord(buffer, SHA512_SHORT_BLOCK_LENGTH / 8 + 1, Reverse64(low));
      assert buffer[112..120] == first && buffer[120..] == BigBytes(low);
      assert buffer[112..] == buffer[112..120] + buffer[120..];
    }

    method ZeroRange(from: nat, to: nat)
      requires Shaped() && from <= to <= 128
      modifies buffer
      ensures buffer[..from] == old(buffer[..from]) && buffer[from..to] == Zeros(to - from)
           && buffer[to..] == old(buffer[to..])
    {
      ghost var was := buffer[..];
      forall i | from <= i < to {
        buffer[i] := 0;
      }
      ghost var now := buffer[..];
      assert now[..from] == was[..from] && now[to..] == was[to..];
      assert now[from..to] == Zeros(to - from);
    }

    /** The bytes after the message: the one bit, and zeros up to the end of the part of the
        buffer that this block leaves for them. */
    method StoreOneBit(usedspace: nat, to: nat)
      requires Shaped() && usedspace < to <= 128
      modifies buffer
      ensures buffer[..to] == old(buffer[..usedspace]) + [0x80] + Zeros(to - usedspace - 1)
    {
      ghost var was := buffer[..usedspace];
      buffer[usedspace] := 0x80;
      assert buffer[..usedspace + 1] == was + [0x80];
      ZeroRange(usedspace + 1, to);
      assert buffer[..to] == buffer[..usedspace + 1] + buffer[usedspace + 1..to];
    }

    /** SHA512_Last: pads what is left and processes one or two final blocks. */
    method Last()
      requires Valid()
      modifies state, buffer
      ensures state[..] == HashBlocks(p, Pad(seen))
    {
      hide HashBlocks, Compress, BlockOf, Counts, LengthField, Pad, Zeros, ToWord, BigBytes;
      ghost var bits, rest := 8 * |seen|, Rest(seen);
      ghost var tail := LengthField(bits);
      var usedspace := UsedSpace();
      if usedspace > 0 {
        if usedspace + 1 <= SHA512_SHORT_BLOCK_LENGTH {
          StoreOneBit(usedspace, SHA512_SHORT_BLOCK_LENGTH);
        } else {
          StoreOneBit(usedspace, SHA512_BLOCK_LENGTH);
          assert buffer[0..0 + 128] == buffer[..128];
          Transform(buffer, 0);
          ZeroRange(0, SHA512_BLOCK_LENGTH - 2);
          FirstZeros(buffer[..], 126, 112);
        }
      } else {
        ZeroRange(0, SHA512_SHORT_BLOCK_LENGTH);
        StoreOneBit(0, SHA512_SHORT_BLOCK_LENGTH);
        assert buffer[..0] == rest;
      }
      ghost var front := buffer[..112];
      LengthIs(bits, bitcount0, bitcount1);
      StoreLength(ToWord(bitcount1), ToWord(bitcount0));
      assert buffer[0..0 + 128] == front + tail;
      Transform(buffer, 0);
      if |seen| % 128 < 112 { PaddedShort(p, seen); } else { PaddedLong(p, seen); }
    }

    /** SHA512_Final: writes the digest unless there is nowhere to write it, and wipes the context. */
    method Final(digest: array?<Byte>)
      requires Valid() && (digest != null ==> digest.Length >= 64 && digest != buffer)
      modifies this`bitcount0, this`bitcount1, state, buffer, digest
      ensures digest != null ==> digest[..64] == Sha512(p, old(seen)) && digest[64..] == old(digest[64..])
      ensures bitcount0 == bitcount1 == 0
      ensures forall i :: 0 <= i < 8 ==> state[i] == 0
      ensures forall i :: 0 <= i < 128 ==> buffer[i] == 0
    {
      hide HashBlocks, Pad, DigestBytes;
      if digest != null {
        Last();
        WriteDigest(digest);
      }
      bitcount0, bitcount1 := 0, 0;
      forall i | 0 <= i < 8 {
        state[i] := 0;
      }
      forall i | 0 <= i < 128 {
        buffer[i] := 0;
      }
    }

    method WriteDigest(digest: array<Byte>)
      requires Shaped() && digest.Length >= 64 && digest != buffer
      modifies state, digest
      ensures digest[..64] == DigestBytes(old(state[..])) && digest[64..] == old(digest[64..])
    {
      hide LittleBytes, BigBytes, HostWord;
      ghost var was := state[..];
      var j: nat := 0;
      while j < 8
        invariant j <= 8
        invariant forall i :: j <= i < 8 ==> state[i] == was[i]
        invariant digest[..8 * j] == FirstBytes(was, j)
        invariant digest[64..] == old(digest[64..])
      {
        state[j] := Reverse64(state[j]);
        ghost var done := digest[..8 * j];
        StoreWord(digest, j, state[j]);
        ReversedBytes(was[j]);
        assert digest[..8 * j] == done && digest[8 * j..8 * j + 8] == BigBytes(was[j]);
        assert digest[..8 * (j + 1)] == digest[..8 * j] + digest[8 * j..8 * j + 8];
        j := j + 1;
      }
      AllBytes(was);
    }
  }

  function RegAt(r: Regs, i: nat): Word64
    requires i < 8
  {
    match i
    case 0 => r.a
    case 1 => r.b
    case 2 => r.c
    case 3 => r.d
    case 4 => r.e
    case 5 => r.f
    case 6 => r.g
    case 7 => r.h
  }

  lemma AddRegsAt(s: seq<Word64>, r: Regs, i: nat)
    requires |s| == 8 && i < 8
    ensures AddRegs(s, r)[i] == Plus(s[i], RegAt(r, i))
  {
    hide Plus;
  }

  /** Word t of the schedule sits in slot t mod 16. */
  ghost predicate InSlot(buffer: array<Byte>, block: seq<Word64>, t: nat)
    requires buffer.Length == 128 && |block| == 16
    reads buffer
  {
    HostWord(buffer, t % 16) == Schedule(block, t)
  }

  lemma FirstSlots(buffer: array<Byte>, block: seq<Word64>)
    requires buffer.Length == 128 && |block| == 16
    requires forall t :: 0 <= t < 16 ==> HostWord(buffer, t) == Schedule(block, t)
    ensures forall t: nat :: t < 16 ==> InSlot(buffer, block, t)
  {
    hide Schedule, HostWord;
  }

  lemma SameSlot(j: nat)
    requires j >= 16
    ensures (j - 16) % 16 == j % 16 && (j - 2) % 16 == (j + 14) % 16
    ensures (j - 7) % 16 == (j + 9) % 16 && (j - 15) % 16 == (j + 1) % 16
  {
  }

  lemma NextScheduled(buffer: array<Byte>, block: seq<Word64>, j: nat)
    requires buffer.Length == 128 && |block| == 16 && j >= 16
    requires InSlot(buffer, block, j - 16) && InSlot(buffer, block, j - 15)
          && InSlot(buffer, block, j - 7) && InSlot(buffer, block, j - 2)
    ensures Plus(HostWord(buffer, j % 16),
                 Plus(Plus(SmallSigma1(HostWord(buffer, (j + 14) % 16)), HostWord(buffer, (j + 9) % 16)),
                      SmallSigma0(HostWord(buffer, (j + 1) % 16))))
            == Schedule(block, j)
  {
    hide SmallSigma0, SmallSigma1, HostWord, Schedule, Plus;
    SameSlot(j);
    ScheduleStep(block, j);
    Commute(HostWord(buffer, j % 16),
            Expanded(Schedule(block, j - 2), Schedule(block, j - 7), Schedule(block, j - 15)));
  }

  lemma Commute(x: Word64, y: Word64)
    ensures Plus(x, y) == Plus(y, x)
  {
  }

  lemma SlotsOf(buffer: array<Byte>, block: seq<Word64>, j: nat)
    requires buffer.Length == 128 && |block| == 16 && j >= 16
    requires forall t: nat :: j - 16 <= t < j ==> InSlot(buffer, block, t)
    ensures forall t: nat :: j - 16 <= t < j ==> SlotIs(buffer[..], block, t)
  {
    hide Schedule, Little;
    forall t: nat | j - 16 <= t < j ensures SlotIs(buffer[..], block, t) {
      assert InSlot(buffer, block, t);
    }
  }

  ghost predicate SlotIs(s: seq<Byte>, block: seq<Word64>, t: nat)
    requires |s| == 128 && |block| == 16
  {
    SlotOf(s, t % 16) == Schedule(block, t)
  }

  /** Writing slot j mod 16 leaves the fifteen other slots. */
  lemma SlotsKept(buffer: array<Byte>, was: seq<Byte>, block: seq<Word64>, j: nat)
    requires buffer.Length == |was| == 128 && |block| == 16 && j >= 16
    requires HostWord(buffer, j % 16) == Schedule(block, j)
    requires forall i :: 0 <= i < 128 && !(8 * (j % 16) <= i < 8 * (j % 16) + 8) ==> buffer[i] == was[i]
    requires forall t: nat :: j - 16 <= t < j ==> SlotIs(was, block, t)
    ensures forall t: nat :: j - 15 <= t <= j ==> InSlot(buffer, block, t)
  {
    hide Schedule, Little;
    forall t: nat | j - 15 <= t <= j ensures InSlot(buffer, block, t) {
      if t < j {
        OtherSlot(t, j);
        assert SlotIs(was, block, t);
        assert HostWord(buffer, t % 16) == SlotOf(was, t % 16);
      }
    }
  }

  lemma OtherSlot(t: nat, j: nat)
    requires j - 16 < t < j
    ensures t % 16 != j % 16
  {
  }

  ghost function SlotOf(s: seq<Byte>, i: nat): Word64
    requires |s| == 128 && i < 16
  {
    Little(s[8 * i], s[8 * i + 1], s[8 * i + 2], s[8 * i + 3], s[8 * i + 4], s[8 * i + 5], s[8 * i + 6], s[8 * i + 7])
  }

  // ---------------------------------------------------------------- lengths

  /** The two halves hold n modulo 2^128. */
  ghost predicate Counts(low: nat, high: nat, n: nat) {
    low == n % TWO_64 && high == n / TWO_64 % TWO_64
  }

  /** The longest prefix of whole blocks, and what follows it. */
  ghost function Whole(s: seq<Byte>): seq<Byte> {
    s[..|s| - |s| % 128]
  }

  ghost function Rest(s: seq<Byte>): seq<Byte> {
    s[|s| - |s| % 128..]
  }

  lemma MultipleOf128(t: nat, m: nat)
    ensures (t + 128 * m) % 128 == t % 128
  {
  }

  /** The used part of the buffer can be read off the low half of the counter. */
  lemma Used(seen: seq<Byte>, low: nat, high: nat)
    requires Counts(low, high, 8 * |seen|)
    ensures low / 8 % 128 == |seen| % 128
  {
    var n, q := |seen|, 8 * |seen| / TWO_64;
    var t: nat := n - q * 0x2000_0000_0000_0000;
    assert low == 8 * t;
    MultipleOf128(t, q * 0x40_0000_0000_0000);
  }

  /** Carrying from the low half when it wraps. */
  lemma CountStep(bits: nat, n: nat)
    requires n < TWO_64
    ensures var low := (bits % TWO_64 + n) % TWO_64;
            low == (bits + n) % TWO_64
            && (bits + n) / TWO_64 % TWO_64
               == if low < n then (bits / TWO_64 % TWO_64 + 1) % TWO_64 else bits / TWO_64 % TWO_64
  {
    var q, r := bits / TWO_64, bits % TWO_64;
    assert bits == q * TWO_64 + r;
    if r + n < TWO_64 {
      assert (bits + n) / TWO_64 == q;
    } else {
      assert (bits + n) / TWO_64 == q + 1;
    }
  }

  lemma UsedGrows(n: nat, m: nat)
    requires n % 128 + m <= 128
    ensures (n + m) % 128 == if n % 128 + m < 128 then n % 128 + m else 0
  {
    var q := n / 128;
    assert n + m == 128 * q + (n % 128 + m);
  }

  lemma CutAppended(s: seq<Byte>, t: seq<Byte>, w: nat)
    requires w <= |s|
    ensures (s + t)[..w] == s[..w] && (s + t)[w..] == s[w..] + t
  {
  }

  lemma Appended(seen: seq<Byte>, piece: seq<Byte>)
    requires |seen| % 128 + |piece| < 128
    ensures |seen + piece| % 128 == |seen| % 128 + |piece|
    ensures Whole(seen + piece) == Whole(seen) && Rest(seen + piece) == Rest(seen) + piece
  {
    UsedGrows(|seen|, |piece|);
    CutAppended(seen, piece, |seen| - |seen| % 128);
  }

  lemma WholeNow(seen: seq<Byte>, piece: seq<Byte>)
    requires |seen| % 128 + |piece| == 128
    ensures |seen + piece| % 128 == 0 && Rest(seen + piece) == [] && |Rest(seen) + piece| == 128
    ensures Whole(seen + piece) == Whole(seen) + (Rest(seen) + piece)
  {
    UsedGrows(|seen|, |piece|);
    CutAppended(seen, piece, |seen| - |seen| % 128);
    var all, w := seen + piece, |seen| - |seen| % 128;
    assert all[..|all|] == all == all[..w] + all[w..];
  }

  lemma Completed(p: Params, seen: seq<Byte>, piece: seq<Byte>)
    requires p.Valid() && |seen| % 128 + |piece| == 128
    ensures |seen + piece| % 128 == 0 && Rest(seen + piece) == [] && |Rest(seen) + piece| == 128
    ensures HashBlocks(p, Whole(seen + piece))
            == Compress(p.k, HashBlocks(p, Whole(seen)), BlockOf(Rest(seen) + piece))
  {
    hide HashBlocks, Compress, BlockOf, Rest;
    WholeNow(seen, piece);
    HashOneMore(p, Whole(seen), Rest(seen) + piece);
  }

  // ---------------------------------------------------------------- padding

  lemma ReversedBytes(w: Word64)
    ensures LittleBytes(Reverse64(w)) == BigBytes(w)
  {
    hide ByteOf, Reverse64;
    ReverseBytes(w);
  }

  lemma LengthIs(bits: nat, low: nat, high: nat)
    requires Counts(low, high, bits)
    ensures low < TWO_64 && high < TWO_64
    ensures LengthField(bits) == BigBytes(ToWord(high)) + BigBytes(ToWord(low))
  {
    hide BigBytes, ToWord;
  }

  lemma FirstZeros(s: seq<Byte>, n: nat, m: nat)
    requires m <= n <= |s| && s[0..n] == Zeros(n)
    ensures s[..m] == Zeros(m)
  {
    assert forall i :: 0 <= i < m ==> s[i] == s[0..n][i];
  }

  /** The block that ends a message whose rest leaves room for the one bit and the length. */
  ghost function LastBlock(msg: seq<Byte>, length: seq<Byte>): (b: seq<Byte>)
    requires |msg| % 128 < 112 && |length| == 16
    ensures |b| == 128
  {
    Rest(msg) + [0x80] + Zeros(111 - |msg| % 128) + length
  }

  /** Otherwise two blocks do: one up to the zeros, one with only zeros and the length. */
  ghost function NextToLast(msg: seq<Byte>): (b: seq<Byte>)
    requires |msg| % 128 >= 112
    ensures |b| == 128
  {
    Rest(msg) + [0x80] + Zeros(127 - |msg| % 128)
  }

  ghost function OnlyLength(msg: seq<Byte>): (b: seq<Byte>)
    ensures |b| == 128
  {
    Zeros(112) + LengthField(8 * |msg|)
  }

  lemma PaddedShort(p: Params, msg: seq<Byte>)
    requires p.Valid() && |msg| % 128 < 112
    ensures HashBlocks(p, Pad(msg))
            == Compress(p.k, HashBlocks(p, Whole(msg)), BlockOf(LastBlock(msg, LengthField(8 * |msg|))))
  {
    hide HashBlocks, Compress, BlockOf, LengthField, Zeros;
    assert msg == Whole(msg) + Rest(msg);
    assert Pad(msg) == Whole(msg) + LastBlock(msg, LengthField(8 * |msg|));
    HashOneMore(p, Whole(msg), LastBlock(msg, LengthField(8 * |msg|)));
  }

  lemma PaddedLong(p: Params, msg: seq<Byte>)
    requires p.Valid() && |msg| % 128 >= 112
    ensures HashBlocks(p, Pad(msg))
            == Compress(p.k, Compress(p.k, HashBlocks(p, Whole(msg)), BlockOf(NextToLast(msg))),
                        BlockOf(OnlyLength(msg)))
  {
    hide HashBlocks, Compress, BlockOf, LengthField, Zeros;
    assert msg == Whole(msg) + Rest(msg);
    ZerosAdd(127 - |msg| % 128, 112);
    assert Pad(msg) == Whole(msg) + NextToLast(msg) + OnlyLength(msg);
    HashOneMore(p, Whole(msg), NextToLast(msg));
    HashOneMore(p, Whole(msg) + NextToLast(msg), OnlyLength(msg));
  }

  lemma ZerosAdd(m: nat, n: nat)
    ensures Zeros(m + n) == Zeros(m) + Zeros(n)
  {
  }

  /** The bytes of the first n words of a state. */
  ghost function FirstBytes(s: seq<Word64>, n: nat): (b: seq<Byte>)
    requires n <= |s|
    ensures |b| == 8 * n
  {
    if n == 0 then [] else FirstBytes(s, n - 1) + BigBytes(s[n - 1])
  }

  lemma AllBytes(s: seq<Word64>)
    requires |s| == 8
    ensures FirstBytes(s, 8) == DigestBytes(s)
  {
    hide BigBytes;
    assert FirstBytes(s, 2) == BigBytes(s[0]) + BigBytes(s[1]);
    assert FirstBytes(s, 4) == FirstBytes(s, 2) + BigBytes(s[2]) + BigBytes(s[3]);
    assert FirstBytes(s, 6) == FirstBytes(s, 4) + BigBytes(s[4]) + BigBytes(s[5]);
    assert FirstBytes(s, 8) == FirstBytes(s, 6) + BigBytes(s[6]) + BigBytes(s[7]);
  }

  // ---------------------------------------------------------------- one-shot and piecewise hashing

  /** SHA512: digest may be the very buffer that holds the data. */
  method OneShot(data: array<Byte>, len: nat, digest: array<Byte>)
    requires len <= data.Length && digest.Length >= 64
    modifies digest
    ensures Sha512Params().Valid()
    ensures digest[..64] == Sha512(Sha512Params(), old(data[..len])) && digest[64..] == old(digest[64..])
  {
    hide Sha512Params, Sha512;
    ParamsValid();
    var context := new Sha512Context(Sha512Params());
    context.Update(data, len);
    assert context.seen == data[..len];
    context.Final(digest);
  }

  ghost function Flatten(pieces: seq<seq<Byte>>): seq<Byte> {
    if |pieces| == 0 then [] else Flatten(pieces[..|pieces| - 1]) + pieces[|pieces| - 1]
  }

  lemma FlattenNothing()
    ensures Flatten([]) == []
  {
  }

  lemma FlattenOneMore(pieces: seq<seq<Byte>>, i: nat)
    requires i < |pieces|
    ensures Flatten(pieces[..i + 1]) == Flatten(pieces[..i]) + pieces[i]
  {
    assert pieces[..i + 1][..i] == pieces[..i];
  }

  /** However a message is cut into Update calls, the digest is that of the whole message. */
  method HashPieces(p: Params, pieces: seq<seq<Byte>>) returns (digest: seq<Byte>)
    requires p.Valid()
    ensures digest == Sha512(p, Flatten(pieces))
  {
    hide Sha512, Flatten, Sha512Context.Valid;
    var context := new Sha512Context(p);
    FlattenNothing();
    var i: nat := 0;
    while i < |pieces|
      invariant i <= |pieces| && context.Valid() && context.p == p && fresh(context.state) && fresh(context.buffer)
      invariant context.seen == Flatten(pieces[..i])
    {
      FlattenOneMore(pieces, i);
      UpdateWith(context, pieces[i]);
      i := i + 1;
    }
    assert pieces[..i] == pieces;
    var out := new Byte[64](_ => 0);
    context.Final(out);
    return out[..];
  }

  method UpdateWith(context: Sha512Context, piece: seq<Byte>)
    requires context.Valid()
    modifies context`bitcount0, context`bitcount1, context`seen, context.buffer, context.state
    ensures context.Valid() && context.seen == old(context.seen) + piece
  {
    hide Sha512Context.Valid;
    var datain := new Byte[|piece|](j requires 0 <= j < |piece| => piece[j]);
    assert datain[..datain.Length] == piece;
    context.Update(datain, datain.Length);
  }
}
