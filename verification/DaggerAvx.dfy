/** scripts/dagger/dagger_32.c: hashimoto word by word, and hashimoto_avx on four registers of
    eight words that are written back to memory only when they are about to be read. */
module DaggerAvx {
  import opened FnvMix

  const MIX_WORDS: nat := 32

  // ---------------------------------------------------------------- the function computed

  /** The dataset row a round reads, drawn from the seed and one word of the mix. */
  function Parent(seedHead: Word32, word: Word32, i: nat, rows: nat): (parent: nat)
    requires rows > 0 && i < LOOP_ACCESSES
    ensures parent < rows
  {
    ToNat(Fnv(ToWord(i) ^ seedHead, word)) % rows
  }

  /** The mix after n rounds. */
  ghost function Mixed(hash: seq<Word32>, dataset: seq<Word32>, rows: nat, n: nat): (m: seq<Word32>)
    requires |hash| == 16 && rows > 0 && |dataset| >= 32 * rows && n <= LOOP_ACCESSES
    ensures |m| == 32
    decreases rows, n
  {
    if n == 0 then hash + hash
    else
      var before := Mixed(hash, dataset, rows, n - 1);
      var parent := Parent(hash[0], before[(n - 1) % 32], n - 1, rows);
      RowInside(parent, rows, |dataset|);
      MixRow(before, dataset[32 * parent..32 * parent + 32])
  }

  lemma RowInside(parent: nat, rows: nat, len: nat)
    requires parent < rows && 32 * rows <= len
    ensures 32 * parent + 32 <= len
  {
  }

  lemma MixedAtStart(hash: seq<Word32>, dataset: seq<Word32>, rows: nat)
    requires |hash| == 16 && rows > 0 && |dataset| >= 32 * rows
    ensures Mixed(hash, dataset, rows, 0) == hash + hash
  {
  }

  lemma MixedStep(hash: seq<Word32>, dataset: seq<Word32>, rows: nat, i: nat, parent: nat)
    requires |hash| == 16 && rows > 0 && |dataset| >= 32 * rows && i < LOOP_ACCESSES
    requires parent == Parent(hash[0], Mixed(hash, dataset, rows, i)[i % 32], i, rows)
    ensures 32 * parent + 32 <= |dataset|
    ensures Mixed(hash, dataset, rows, i + 1)
            == MixRow(Mixed(hash, dataset, rows, i), dataset[32 * parent..32 * parent + 32])
  {
    hide Parent, MixRow;
    RowInside(parent, rows, |dataset|);
  }

  /** The row drawn in round i: the round and the seed, times the prime, and the word of the mix. */
  lemma DrawnRow(seedHead: Word32, word: Word32, i: nat, rows: nat, product: Word32)
    requires rows > 0 && i < LOOP_ACCESSES && product == Times(ToWord(i) ^ seedHead, 16777619)
    ensures Parent(seedHead, word, i, rows) == ToNat(product ^ word) % rows
  {
    hide Times, ToWord, ToNat, Fnv;
    FnvIs(ToWord(i) ^ seedHead, word);
  }

  /** Over a dataset of zeros every word of the mix is the word of the hash it started from, times
      the prime once for each round. */
  lemma {:induction false} OverZeros(hash: seq<Word32>, dataset: seq<Word32>, rows: nat, n: nat, j: nat)
    requires |hash| == 16 && rows > 0 && |dataset| >= 32 * rows && n <= LOOP_ACCESSES && j < 32
    requires forall k :: 0 <= k < |dataset| ==> dataset[k] == 0
    ensures Mixed(hash, dataset, rows, n)[j] == Scaled(hash[j % 16], n)
    decreases n
  {
    hide Fnv, Parent, Times, Mixed;
    if n == 0 {
      MixedAtStart(hash, dataset, rows);
    } else {
      OverZeros(hash, dataset, rows, n - 1, j);
      var before := Mixed(hash, dataset, rows, n - 1);
      var parent := Parent(hash[0], before[(n - 1) % 32], n - 1, rows);
      MixedStep(hash, dataset, rows, n - 1, parent);
      FnvCancels(before[j], 0);
    }
  }

  /** What both versions leave in the mix buffer: eight folded words, and the old tail. */
  ghost function Result(hash: seq<Word32>, dataset: seq<Word32>, rows: nat): (m: seq<Word32>)
    requires |hash| == 16 && rows > 0 && |dataset| >= 32 * rows
    ensures |m| == 32
  {
    var mix := Mixed(hash, dataset, rows, LOOP_ACCESSES);
    Folded(mix) + mix[8..]
  }

  /** So over a dataset of zeros the untouched tail of the result is the hash times the prime, once
      for each of sixty-four rounds, and the head folds four such words into one. */
  lemma ResultOverZeros(hash: seq<Word32>, dataset: seq<Word32>, rows: nat, j: nat)
    requires |hash| == 16 && rows > 0 && |dataset| >= 32 * rows && j < 32
    requires forall k :: 0 <= k < |dataset| ==> dataset[k] == 0
    ensures var m := Result(hash, dataset, rows)[j];
            if j >= 8 then m == Scaled(hash[j % 16], 64)
            else m == Fnv(Fnv(Fnv(Scaled(hash[4 * j % 16], 64), Scaled(hash[(4 * j + 1) % 16], 64)),
                              Scaled(hash[(4 * j + 2) % 16], 64)), Scaled(hash[(4 * j + 3) % 16], 64))
  {
    hide Fnv, Mixed, Scaled;
    var mix := Mixed(hash, dataset, rows, LOOP_ACCESSES);
    if j >= 8 {
      OverZeros(hash, dataset, rows, LOOP_ACCESSES, j);
    } else {
      forall k: nat | k < 32 ensures mix[k] == Scaled(hash[k % 16], 64) {
        OverZeros(hash, dataset, rows, LOOP_ACCESSES, k);
      }
      FoldedAt(mix, j);
    }
  }

  ghost predicate Callable(hash: array<Word32>, size: nat, dataset: array<Word32>, mix: array<Word32>)
  {
    hash.Length >= 16 && mix.Length >= 32 && mix != hash && mix != dataset
    && Rows(size) > 0 && dataset.Length >= 32 * Rows(size)
  }

  // ---------------------------------------------------------------- the parts both share

  method Replicate(hash: array<Word32>, mix: array<Word32>)
    requires hash.Length >= 16 && mix.Length >= 32 && mix != hash
    modifies mix
    ensures mix[..32] == hash[..16] + hash[..16] && mix[32..] == old(mix[32..])
  {
    var i: nat := 0;
    while i < 16
      invariant i <= 16
      invariant forall j :: 0 <= j < i ==> mix[j] == hash[j] && mix[j + 16] == hash[j]
      invariant mix[32..] == old(mix[32..])
    {
      mix[i] := hash[i];
      mix[i + 16] := hash[i];
      i := i + 1;
    }
  }

  lemma ResultIs(hash: seq<Word32>, dataset: seq<Word32>, rows: nat, mix: seq<Word32>)
    requires |hash| == 16 && rows > 0 && |dataset| >= 32 * rows && |mix| == 32
    requires mix[..8] == Folded(Mixed(hash, dataset, rows, LOOP_ACCESSES))
    requires mix[8..] == Mixed(hash, dataset, rows, LOOP_ACCESSES)[8..]
    ensures mix == Result(hash, dataset, rows)
  {
    hide Folded, Mixed;
    assert mix == mix[..8] + mix[8..];
  }

  /** The final compression rewrites the first eight words; the other parts are as before. */
  lemma HeadFolded(before: seq<Word32>, after: seq<Word32>)
    requires |before| == |after| >= 32 && after[8..] == before[8..]
    ensures after[..32][..8] == after[..8]
    ensures after[..32][8..] == before[..32][8..] && after[32..] == before[32..]
  {
    assert after[..32][8..] == after[8..][..24] && before[..32][8..] == before[8..][..24];
    assert after[32..] == after[8..][24..] && before[32..] == before[8..][24..];
  }

  // ---------------------------------------------------------------- word by word

  method MixInPlace(mix: array<Word32>, dataset: array<Word32>, parent: nat)
    requires mix.Length >= 32 && mix != dataset && 32 * parent + 32 <= dataset.Length
    modifies mix
    ensures mix[..32] == MixRow(old(mix[..32]), dataset[32 * parent..32 * parent + 32]) && mix[32..] == old(mix[32..])
  {
    hide Fnv;
    ghost var was, row := mix[..32], dataset[32 * parent..32 * parent + 32];
    var j: nat := 0;
    while j < MIX_WORDS
      invariant j <= 32
      invariant forall k :: 0 <= k < j ==> mix[k] == Fnv(was[k], row[k])
      invariant forall k :: j <= k < 32 ==> mix[k] == was[k]
      invariant mix[32..] == old(mix[32..])
    {
      mix[j] := Fnv(mix[j], dataset[parent * MIX_WORDS + j]);
      j := j + 1;
    }
  }

  method Hashimoto(hash: array<Word32>, size: nat, dataset: array<Word32>, mix: array<Word32>)
    requires Callable(hash, size, dataset, mix)
    modifies mix
    ensures mix[..32] == Result(hash[..16], dataset[..], Rows(size)) && mix[32..] == old(mix[32..])
  {
    hide Fnv, Folded, Parent, MixRow, Mixed, Result;
    Replicate(hash, mix);
    ghost var h, d := hash[..16], dataset[..];
    MixedAtStart(h, d, Rows(size));
    var seedHead := mix[0];
    assert seedHead == mix[..32][0];
    var rows := Rows(size);
    var i: nat := 0;
    while i < LOOP_ACCESSES
      invariant i <= LOOP_ACCESSES
      invariant mix[..32] == Mixed(h, d, rows, i) && mix[32..] == old(mix[32..])
    {
      assert mix[i % 32] == mix[..32][i % 32];
      var parent := Parent(seedHead, mix[i % 32], i, rows);
      MixedStep(h, d, rows, i, parent);
      MixInPlace(mix, dataset, parent);
      i := i + 1;
    }
    ghost var mixed := mix[..];
    FoldInPlace(mix);
    HeadFolded(mixed, mix[..]);
    ResultIs(h, d, rows, mix[..32]);
  }

  // ---------------------------------------------------------------- eight words at a time

  /** A 256-bit register as eight words. */
  type Lane = s: seq<Word32> | |s| == 8 witness [0, 0, 0, 0, 0, 0, 0, 0]

  /** _mm256_mullo_epi32 */
  function MulLo(x: Lane, y: Lane): (z: Lane)
    ensures forall k :: 0 <= k < 8 ==> z[k] == Times(x[k], y[k])
  {
    seq(8, k requires 0 <= k < 8 => Times(x[k], y[k]))
  }

  /** _mm256_xor_si256 */
  function Xor(x: Lane, y: Lane): (z: Lane)
    ensures forall k :: 0 <= k < 8 ==> z[k] == x[k] ^ y[k]
  {
    seq(8, k requires 0 <= k < 8 => x[k] ^ y[k])
  }

  /** _mm256_set1_epi32 */
  function Set1(w: Word32): (z: Lane)
    ensures forall k :: 0 <= k < 8 ==> z[k] == w
  {
    seq(8, _ => w)
  }

  method Load(a: array<Word32>, off: nat) returns (x: Lane)
    requires off + 8 <= a.Length
    ensures x == a[off..off + 8]
  {
    x := a[off..off + 8];
  }

  method Store(a: array<Word32>, off: nat, x: Lane)
    requires off + 8 <= a.Length
    modifies a
    ensures a[off..off + 8] == x
    ensures forall k :: 0 <= k < a.Length && !(off <= k < off + 8) ==> a[k] == old(a[k])
  {
    forall k | 0 <= k < 8 {
      a[off + k] := x[k];
    }
  }

  /** Multiply and xor on a register is Fnv on its words. */
  lemma LaneMix(x: Lane, c: Lane)
    ensures Xor(MulLo(x, Set1(0x01000193)), c) == MixRow(x, c)
  {
    hide Times;
  }

  ghost function Join(a: Lane, b: Lane, c: Lane, d: Lane): (m: seq<Word32>)
    ensures |m| == 32
  {
    a + b + c + d
  }

  lemma JoinMix(a: Lane, b: Lane, c: Lane, d: Lane, ra: Lane, rb: Lane, rc: Lane, rd: Lane)
    ensures Join(MixRow(a, ra), MixRow(b, rb), MixRow(c, rc), MixRow(d, rd))
            == MixRow(Join(a, b, c, d), Join(ra, rb, rc, rd))
  {
    hide Fnv;
  }

  /** The words of one register inside the joined mix. */
  lemma LaneOf(a: Lane, b: Lane, c: Lane, d: Lane, p: nat)
    requires p < 32
    ensures Join(a, b, c, d)[p]
            == if p < 8 then a[p] else if p < 16 then b[p - 8] else if p < 24 then c[p - 16] else d[p - 24]
  {
  }

  /** Flush the one register that holds word p, so that memory is current at p, if nowhere else. */
  method FlushGroup(mix: array<Word32>, p: nat, mix0: Lane, mix1: Lane, mix2: Lane, mix3: Lane)
    requires mix.Length >= 32 && p < 32
    modifies mix
    ensures mix[p] == Join(mix0, mix1, mix2, mix3)[p] && mix[32..] == old(mix[32..])
  {
    LaneOf(mix0, mix1, mix2, mix3, p);
    if p < 8 {
      Store(mix, 0, mix0);
      assert mix[p] == mix[0..8][p];
    } else if p < 16 {
      Store(mix, 8, mix1);
      assert mix[p] == mix[8..16][p - 8];
    } else if p < 24 {
      Store(mix, 16, mix2);
      assert mix[p] == mix[16..24][p - 16];
    } else {
      Store(mix, 24, mix3);
      assert mix[p] == mix[24..32][p - 24];
    }
  }

  method FlushAll(mix: array<Word32>, mix0: Lane, mix1: Lane, mix2: Lane, mix3: Lane)
    requires mix.Length >= 32
    modifies mix
    ensures mix[..32] == Join(mix0, mix1, mix2, mix3) && mix[32..] == old(mix[32..])
  {
    Store(mix, 0, mix0);
    Store(mix, 8, mix1);
    assert mix[..8] == mix0;
    Store(mix, 16, mix2);
    assert mix[..8] == mix0 && mix[8..16] == mix1;
    Store(mix, 24, mix3);
    assert mix[..8] == mix0 && mix[8..16] == mix1 && mix[16..24] == mix2;
    assert mix[..32] == mix[..8] + mix[8..16] + mix[16..24] + mix[24..32];
  }

  /** One round on the four registers. */
  method MixLanes(dataset: array<Word32>, parent: nat, a: Lane, b: Lane, c: Lane, d: Lane)
    returns (mix0: Lane, mix1: Lane, mix2: Lane, mix3: Lane)
    requires 32 * parent + 32 <= dataset.Length
    ensures Join(mix0, mix1, mix2, mix3) == MixRow(Join(a, b, c, d), dataset[32 * parent..32 * parent + 32])
  {
    hide Fnv, MulLo, Xor, Set1;
    var m := Set1(0x01000193);
    var ptr := parent * MIX_WORDS;
    var c0 := Load(dataset, ptr);
    var c1 := Load(dataset, ptr + 8);
    var c2 := Load(dataset, ptr + 16);
    var c3 := Load(dataset, ptr + 24);
    LaneMix(a, c0);
    LaneMix(b, c1);
    LaneMix(c, c2);
    LaneMix(d, c3);
    mix0 := Xor(MulLo(a, m), c0);
    mix1 := Xor(MulLo(b, m), c1);
    mix2 := Xor(MulLo(c, m), c2);
    mix3 := Xor(MulLo(d, m), c3);
    assert dataset[32 * parent..32 * parent + 32] == Join(c0, c1, c2, c3);
    JoinMix(a, b, c, d, c0, c1, c2, c3);
  }

  /** The registers always hold the current mix. Memory holds old words except in the group just
      flushed, which is the one this round reads from. */
  method HashimotoAvx(hash: array<Word32>, size: nat, dataset: array<Word32>, mix: array<Word32>)
    requires Callable(hash, size, dataset, mix)
    modifies mix
    ensures mix[..32] == Result(hash[..16], dataset[..], Rows(size)) && mix[32..] == old(mix[32..])
  {
    hide Fnv, Folded, Join, Parent, MixRow, Mixed, Result;
    Replicate(hash, mix);
    ghost var h, d := hash[..16], dataset[..];
    MixedAtStart(h, d, Rows(size));
    var mix0 := Load(mix, 0);
    var mix1 := Load(mix, 8);
    var mix2 := Load(mix, 16);
    var mix3 := Load(mix, 24);
    JoinIs(mix[..32], mix0, mix1, mix2, mix3);
    var seedHead := mix[0];
    assert seedHead == mix[..32][0];
    var rows := Rows(size);
    var i: nat := 0;
    while i < LOOP_ACCESSES
      invariant i <= LOOP_ACCESSES && mix[32..] == old(mix[32..])
      invariant Join(mix0, mix1, mix2, mix3) == Mixed(h, d, rows, i)
    {
      FlushGroup(mix, i % 32, mix0, mix1, mix2, mix3);
      var parent := Parent(seedHead, mix[i % 32], i, rows);
      MixedStep(h, d, rows, i, parent);
      mix0, mix1, mix2, mix3 := MixLanes(dataset, parent, mix0, mix1, mix2, mix3);
      i := i + 1;
    }
    FlushAll(mix, mix0, mix1, mix2, mix3);
    ghost var mixed := mix[..];
    FoldInPlace(mix);
    HeadFolded(mixed, mix[..]);
    ResultIs(h, d, rows, mix[..32]);
  }

  lemma JoinIs(m: seq<Word32>, a: Lane, b: Lane, c: Lane, d: Lane)
    requires |m| == 32 && m[..8] == a && m[8..16] == b && m[16..24] == c && m[24..] == d
    ensures Join(a, b, c, d) == m
  {
  }
}
