/** The 32-bit mixing that scripts/dagger/dagger_32.c and scripts/dagger/golang/ethash.go share. */
module FnvMix {
  type Word32 = bv32

  const TWO_32: nat := 0x1_0000_0000
  const MIX_BYTES: nat := 128
  const LOOP_ACCESSES: nat := 64

  /** Multiplication modulo 2^32. */
  function Times(a: Word32, b: Word32): Word32 { a * b }

  function Fnv(a: Word32, b: Word32): Word32 { Times(a, 0x01000193) ^ b }

  function ToWord(n: nat): Word32
    requires n < TWO_32
  {
    n as Word32
  }

  function ToNat(w: Word32): nat { w as nat }

  /** The second word can be taken out again; what is left is the first, times the prime. */
  lemma FnvCancels(a: Word32, b: Word32)
    ensures Fnv(a, b) ^ b == Times(a, 16777619) && Fnv(a, 0) == Times(a, 16777619)
  {
    hide Times;
  }

  lemma FnvIs(a: Word32, b: Word32)
    ensures Fnv(a, b) == Times(a, 16777619) ^ b
  {
    hide Times;
  }

  lemma TimesIs(a: Word32, b: Word32)
    ensures Times(a, b) == a * b
  {
  }

  /** w multiplied n times by the prime. */
  ghost function Scaled(w: Word32, n: nat): Word32
    decreases w, n
  {
    if n == 0 then w else Times(Scaled(w, n - 1), 16777619)
  }

  /** The number of 128-byte rows in size bytes, kept in 32 bits. */
  function Rows(size: nat): nat { size / MIX_BYTES % TWO_32 }

  /** Every word of a row mixed into the word at its place. */
  function MixRow(mix: seq<Word32>, row: seq<Word32>): (m: seq<Word32>)
    requires |mix| <= |row|
    ensures |m| == |mix| && forall j :: 0 <= j < |m| ==> m[j] == Fnv(mix[j], row[j])
  {
    seq(|mix|, j requires 0 <= j < |mix| => Fnv(mix[j], row[j]))
  }

  /** Four neighbouring words folded into one. */
  function FoldFour(mix: seq<Word32>, i: nat): Word32
    requires |mix| == 32 && i < 8
  {
    Fnv(Fnv(Fnv(mix[4 * i], mix[4 * i + 1]), mix[4 * i + 2]), mix[4 * i + 3])
  }

  function Folded(mix: seq<Word32>): (m: seq<Word32>)
    requires |mix| == 32
    ensures |m| == 8 && forall i :: 0 <= i < 8 ==> m[i] == FoldFour(mix, i)
  {
    seq(8, i requires 0 <= i < 8 => FoldFour(mix, i))
  }

  /** The final compression in place: word i / 4 is written when words i to i + 3 are read, so
      no word is read after it was overwritten. */
  method FoldInPlace(mix: array<Word32>)
    requires mix.Length >= 32
    modifies mix
    ensures mix[..8] == Folded(old(mix[..32])) && mix[8..] == old(mix[8..])
  {
    hide Fnv, Folded, FoldFour;
    ghost var was, k: nat := mix[..32], 0;
    var i: nat := 0;
    while i < 32
      invariant i == 4 * k <= 32
      invariant forall j :: 0 <= j < k ==> mix[j] == Folded(was)[j]
      invariant forall j :: 4 * k <= j < 32 ==> mix[j] == was[j]
      invariant mix[8..] == old(mix[8..])
    {
      assert i / 4 == k;
      FoldedAt(was, k);
      mix[i / 4] := Fnv(Fnv(Fnv(mix[i], mix[i + 1]), mix[i + 2]), mix[i + 3]);
      i := i + 4;
      k := k + 1;
    }
  }

  lemma FoldedAt(mix: seq<Word32>, k: nat)
    requires |mix| == 32 && k < 8
    ensures Folded(mix)[k] == Fnv(Fnv(Fnv(mix[4 * k], mix[4 * k + 1]), mix[4 * k + 2]), mix[4 * k + 3])
  {
    hide Fnv;
  }
}
