/** scripts/dagger/golang/ethash.go: dataset items, and hashimoto over the full dataset or over
    items recomputed from the cache. None is a run-time panic. */
module Ethash {
  import opened Words
  import opened FnvMix

  const HASH_BYTES: nat := 64
  const HASH_WORDS: nat := 16
  const DATASET_PARENTS: nat := 256

  type Hash64 = s: seq<Byte> | |s| == 64
    witness [0, 0, 0, 0, 0, 0, 0, 0, 0, 0, 0, 0, 0, 0, 0, 0, 0, 0, 0, 0, 0, 0, 0, 0, 0, 0, 0, 0, 0, 0, 0, 0,
             0, 0, 0, 0, 0, 0, 0, 0, 0, 0, 0, 0, 0, 0, 0, 0, 0, 0, 0, 0, 0, 0, 0, 0, 0, 0, 0, 0, 0, 0, 0, 0]

  /** Keccak-512 and Keccak-256, left abstract. */
  type Hasher512 = seq<Byte> -> Hash64
  type Hasher256 = seq<Byte> -> seq<Byte>

  // ---------------------------------------------------------------- words and bytes

  /** binary.LittleEndian.Uint32 */
  function Uint32(b0: Byte, b1: Byte, b2: Byte, b3: Byte): Word32 {
    b0 as Word32 | (b1 as Word32 << 8) | (b2 as Word32 << 16) | (b3 as Word32 << 24)
  }

  /** The bytes of binary.LittleEndian.PutUint32 */
  function PutUint32(w: Word32): (s: seq<Byte>)
    ensures |s| == 4
  {
    [(w & 0xFF) as Byte, ((w >> 8) & 0xFF) as Byte, ((w >> 16) & 0xFF) as Byte, (w >> 24) as Byte]
  }

  function WordAt(s: seq<Byte>, i: nat): Word32
    requires 4 * i + 4 <= |s|
  {
    Uint32(s[4 * i], s[4 * i + 1], s[4 * i + 2], s[4 * i + 3])
  }

  function WordsOf(s: seq<Byte>): (w: seq<Word32>)
    ensures |w| == |s| / 4 && forall i :: 0 <= i < |w| ==> w[i] == WordAt(s, i)
  {
    seq(|s| / 4, i requires 0 <= i < |s| / 4 => WordAt(s, i))
  }

  /** Least significant byte first. */
  lemma LittleEndian(b0: Byte, b1: Byte, b2: Byte, b3: Byte)
    ensures Uint32(b0, b1, b2, b3) as nat
            == b0 as nat + 0x100 * b1 as nat + 0x1_0000 * b2 as nat + 0x100_0000 * b3 as nat
  {
    hide Uint32;
    Shifted(b0, b1, b2, b3);
    Uint32Is(b0, b1, b2, b3);
  }

  lemma Shifted(b0: Byte, b1: Byte, b2: Byte, b3: Byte)
    ensures (b0 as Word32 | (b1 as Word32 << 8) | (b2 as Word32 << 16) | (b3 as Word32 << 24)) as nat
            == b0 as nat + 0x100 * b1 as nat + 0x1_0000 * b2 as nat + 0x100_0000 * b3 as nat
  {
  }

  lemma Uint32Is(b0: Byte, b1: Byte, b2: Byte, b3: Byte)
    ensures Uint32(b0, b1, b2, b3) == b0 as Word32 | (b1 as Word32 << 8) | (b2 as Word32 << 16) | (b3 as Word32 << 24)
  {
  }

  lemma PutRoundTrip(w: Word32)
    ensures var s := PutUint32(w); Uint32(s[0], s[1], s[2], s[3]) == w
  {
  }

  /** Words written as bytes read back as the same words. */
  lemma {:induction false} WordsRoundTrip(w: seq<Word32>)
    ensures WordsOf(BytesOf(w)) == w
    decreases |w|
  {
    hide Uint32, PutUint32;
    if |w| > 0 {
      var n := |w| - 1;
      WordsRoundTrip(w[..n]);
      PutRoundTrip(w[n]);
      var s := BytesOf(w);
      assert s[4 * n..] == PutUint32(w[n]);
      assert WordAt(s, n) == w[n] by {
        assert s[4 * n] == PutUint32(w[n])[0] && s[4 * n + 1] == PutUint32(w[n])[1];
        assert s[4 * n + 2] == PutUint32(w[n])[2] && s[4 * n + 3] == PutUint32(w[n])[3];
      }
      forall i | 0 <= i < n ensures WordsOf(s)[i] == w[i] {
        assert WordAt(s, i) == WordAt(BytesOf(w[..n]), i);
        assert WordsOf(BytesOf(w[..n]))[i] == w[..n][i];
      }
    }
  }

  function BytesOf(w: seq<Word32>): (s: seq<Byte>)
    ensures |s| == 4 * |w|
  {
    if |w| == 0 then [] else BytesOf(w[..|w| - 1]) + PutUint32(w[|w| - 1])
  }

  /** fnvHash */
  method FnvHash(mix: array<Word32>, data: seq<Word32>)
    requires mix.Length <= |data|
    modifies mix
    ensures mix[..] == MixRow(old(mix[..]), data)
  {
    hide Fnv;
    ghost var was := mix[..];
    var i: nat := 0;
    while i < mix.Length
      invariant i <= mix.Length
      invariant forall j :: 0 <= j < i ==> mix[j] == Fnv(was[j], data[j])
      invariant forall j :: i <= j < mix.Length ==> mix[j] == was[j]
    {
      mix[i] := Fnv(mix[i], data[i]);
      i := i + 1;
    }
  }

  // ---------------------------------------------------------------- one dataset item

  /** uint32(len(cache) / hashWords) */
  function CacheRows(cache: seq<Word32>): nat { |cache| / HASH_WORDS % TWO_32 }

  /** The sixteen words read for a row; the offset is computed in uint32 and wraps. */
  function CacheRow(cache: seq<Word32>, row: nat): (r: seq<Word32>)
    requires row < CacheRows(cache)
    ensures |r| == 16
  {
    var offset := row * HASH_WORDS % TWO_32;
    assert offset + HASH_WORDS <= |cache|;
    cache[offset..offset + HASH_WORDS]
  }

  function Parent(seed: nat, word: Word32, i: nat, rows: nat): (parent: nat)
    requires seed < TWO_32 && i < TWO_32 && rows > 0
    ensures parent < rows
  {
    ToNat(Fnv(ToWord(seed) ^ ToWord(i), word)) % rows
  }

  /** The cache row drawn for parent i of an item. */
  lemma DrawnParent(seed: nat, word: Word32, i: nat, rows: nat, product: Word32)
    requires seed < TWO_32 && i < TWO_32 && rows > 0 && product == Times(ToWord(seed) ^ ToWord(i), 16777619)
    ensures Parent(seed, word, i, rows) == ToNat(product ^ word) % rows
  {
    hide Times, ToWord, ToNat, Fnv;
    FnvIs(ToWord(seed) ^ ToWord(i), word);
  }

  /** A row with the index mixed into its first word. */
  function Indexed(row: seq<Word32>, index: nat): (r: seq<Word32>)
    requires |row| == 16 && index < TWO_32
    ensures |r| == 16
  {
    row[0 := row[0] ^ ToWord(index)]
  }

  /** The item's first mix, before any cache row is folded in. */
  function FirstMix(k512: Hasher512, cache: seq<Word32>, index: nat): (m: seq<Word32>)
    requires CacheRows(cache) > 0 && index < TWO_32
    ensures |m| == 16
  {
    WordsOf(k512(BytesOf(Indexed(CacheRow(cache, index % CacheRows(cache)), index))))
  }

  function ItemMix(k512: Hasher512, cache: seq<Word32>, index: nat, n: nat): (m: seq<Word32>)
    requires CacheRows(cache) > 0 && index < TWO_32 && n <= DATASET_PARENTS
    ensures |m| == 16
    decreases index, n
  {
    if n == 0 then FirstMix(k512, cache, index)
    else
      var mix := ItemMix(k512, cache, index, n - 1);
      MixRow(mix, CacheRow(cache, Parent(index, mix[(n - 1) % 16], n - 1, CacheRows(cache))))
  }

  function DatasetItem(k512: Hasher512, cache: seq<Word32>, index: nat): (item: seq<Byte>)
    requires CacheRows(cache) > 0 && index < TWO_32
    ensures |item| == 64
  {
    k512(BytesOf(ItemMix(k512, cache, index, DATASET_PARENTS)))
  }

  ghost predicate AllZero(words: seq<Word32>) {
    forall k :: 0 <= k < |words| ==> words[k] == 0
  }

  lemma ZeroRow(cache: seq<Word32>, row: nat)
    requires row < CacheRows(cache) && AllZero(cache)
    ensures AllZero(CacheRow(cache, row))
  {
  }

  lemma MixZeros(mix: seq<Word32>, row: seq<Word32>, j: nat)
    requires |mix| <= |row| && AllZero(row) && j < |mix|
    ensures MixRow(mix, row)[j] == Times(mix[j], 16777619)
  {
    hide Fnv, Times;
    FnvCancels(mix[j], 0);
  }

  /** Over a cache of zeros, each parent multiplies every word of the item by the prime. */
  lemma {:induction false} ItemOverZeros(k512: Hasher512, cache: seq<Word32>, index: nat, n: nat, j: nat)
    requires CacheRows(cache) > 0 && index < TWO_32 && n <= DATASET_PARENTS && AllZero(cache) && j < 16
    ensures ItemMix(k512, cache, index, n)[j] == Scaled(FirstMix(k512, cache, index)[j], n)
    decreases n
  {
    hide FirstMix, CacheRow, Parent, MixRow, Times, AllZero;
    if n > 0 {
      ItemOverZeros(k512, cache, index, n - 1, j);
      var mix := ItemMix(k512, cache, index, n - 1);
      var row := CacheRow(cache, Parent(index, mix[(n - 1) % 16], n - 1, CacheRows(cache)));
      ZeroRow(cache, Parent(index, mix[(n - 1) % 16], n - 1, CacheRows(cache)));
      MixZeros(mix, row, j);
    }
  }

  ghost function Products(first: seq<Word32>, n: nat): (m: seq<Word32>)
    ensures |m| == |first|
    ensures forall j :: 0 <= j < |m| ==> m[j] == Scaled(first[j], n)
  {
    seq(|first|, j requires 0 <= j < |first| => Scaled(first[j], n))
  }

  lemma FirstOverZeros(k512: Hasher512, cache: seq<Word32>, index: nat)
    requires CacheRows(cache) > 0 && index < TWO_32 && AllZero(cache)
    ensures FirstMix(k512, cache, index)
            == WordsOf(k512(BytesOf([ToWord(index), 0, 0, 0, 0, 0, 0, 0, 0, 0, 0, 0, 0, 0, 0, 0])))
  {
    hide BytesOf, WordsOf, ToWord, CacheRow, AllZero, Indexed;
    ZeroRow(cache, index % CacheRows(cache));
    IndexRow(CacheRow(cache, index % CacheRows(cache)), index);
  }

  lemma IndexRow(row: seq<Word32>, index: nat)
    requires |row| == 16 && AllZero(row) && index < TWO_32
    ensures Indexed(row, index) == [ToWord(index), 0, 0, 0, 0, 0, 0, 0, 0, 0, 0, 0, 0, 0, 0, 0]
  {
    hide ToWord;
    FromZero(ToWord(index));
  }

  /** And the whole item is the hash of two hundred and fifty-six such products of the hash of the
      index and fifteen zeros. */
  lemma ZeroItem(k512: Hasher512, cache: seq<Word32>, index: nat)
    requires CacheRows(cache) > 0 && index < TWO_32 && AllZero(cache)
    ensures var first := WordsOf(k512(BytesOf([ToWord(index), 0, 0, 0, 0, 0, 0, 0, 0, 0, 0, 0, 0, 0, 0, 0])));
            DatasetItem(k512, cache, index) == k512(BytesOf(Products(first, 256)))
  {
    hide BytesOf, WordsOf, ItemMix, FirstMix, ToWord, AllZero, CacheRows, Scaled;
    FirstOverZeros(k512, cache, index);
    var mix, products := ItemMix(k512, cache, index, DATASET_PARENTS), Products(FirstMix(k512, cache, index), 256);
    forall j | 0 <= j < 16 ensures mix[j] == products[j] {
      ItemOverZeros(k512, cache, index, DATASET_PARENTS, j);
    }
    assert mix == products;
  }

  lemma FromZero(w: Word32)
    ensures 0 ^ w == w
  {
  }

  // ---------------------------------------------------------------- generateDatasetItem

  /** Writing the words one after the other gives their byte string. */
  method PutWords(words: seq<Word32>) returns (bytes: array<Byte>)
    ensures fresh(bytes) && bytes[..] == BytesOf(words)
  {
    hide PutUint32;
    bytes := new Byte[4 * |words|](_ => 0);
    var i: nat := 0;
    while i < |words|
      invariant i <= |words| && bytes.Length == 4 * |words|
      invariant bytes[..4 * i] == BytesOf(words[..i])
    {
      var s := PutUint32(words[i]);
      ghost var done := bytes[..4 * i];
      forall j | 0 <= j < 4 {
        bytes[4 * i + j] := s[j];
      }
      assert bytes[..4 * i] == done && bytes[4 * i..4 * i + 4] == s;
      assert bytes[..4 * i + 4] == done + s;
      assert words[..i + 1][..i] == words[..i];
      i := i + 1;
    }
    assert words[..i] == words && bytes[..4 * i] == bytes[..];
  }

  /** generateDatasetItem on the mutable mix; panics when the cache has no row. */
  method GenerateDatasetItem(cache: seq<Word32>, index: nat, k512: Hasher512) returns (item: Option<seq<Byte>>)
    requires index < TWO_32
    ensures item.None? <==> CacheRows(cache) == 0
    ensures item.Some? ==> item.value == DatasetItem(k512, cache, index)
  {
    hide Fnv, Parent, FirstMix, CacheRow, MixRow, BytesOf;
    var rows := CacheRows(cache);
    if rows == 0 {
      return None;
    }
    var intMix := StartItem(cache, index, k512);
    var i: nat := 0;
    while i < DATASET_PARENTS
      invariant i <= DATASET_PARENTS && intMix.Length == 16
      invariant intMix[..] == ItemMix(k512, cache, index, i)
    {
      assert intMix[i % 16] == intMix[..][i % 16];
      var parent := Parent(index, intMix[i % 16], i, rows);
      FnvHash(intMix, CacheRow(cache, parent));
      i := i + 1;
    }
    var mix := PutWords(intMix[..]);
    return Some(k512(mix[..]));
  }

  method StartItem(cache: seq<Word32>, index: nat, k512: Hasher512) returns (intMix: array<Word32>)
    requires CacheRows(cache) > 0 && index < TWO_32
    ensures fresh(intMix) && intMix[..] == FirstMix(k512, cache, index)
  {
    hide CacheRow, BytesOf, WordAt, Indexed;
    var mix := PutWords(Indexed(CacheRow(cache, index % CacheRows(cache)), index));
    var hashed := k512(mix[..]);
    intMix := new Word32[HASH_WORDS](i requires 0 <= i < HASH_WORDS => WordAt(hashed, i));
    assert intMix[..] == WordsOf(hashed);
  }

  // ---------------------------------------------------------------- hashimoto

  /** How a row of the dataset is obtained; None is a slice out of range. */
  type Lookup = nat -> Option<seq<Word32>>

  /** The two rows of one access, side by side in temp. */
  function Fetch(lookup: Lookup, parent: nat): (r: Option<seq<Word32>>)
    ensures r.Some? ==> |r.value| == 32
  {
    var a, b := lookup(2 * parent % TWO_32), lookup((2 * parent + 1) % TWO_32);
    if a.None? || b.None? || |a.value| != 16 || |b.value| != 16 then None else Some(a.value + b.value)
  }

  /** The seed, as sixteen words, twice. */
  function Replicated(seed: Hash64): (m: seq<Word32>)
    ensures |m| == 32
  {
    WordsOf(seed) + WordsOf(seed)
  }

  /** The mix after n accesses. */
  function Mixed(seed: Hash64, rows: nat, lookup: Lookup, n: nat): (r: Option<seq<Word32>>)
    requires rows > 0 && n <= LOOP_ACCESSES
    ensures r.Some? ==> |r.value| == 32
    decreases rows, n
  {
    if n == 0 then Some(Replicated(seed))
    else
      var before := Mixed(seed, rows, lookup, n - 1);
      if before.None? then None
      else
        var temp := Fetch(lookup, Access(seed, before.value, n - 1, rows));
        if temp.None? then None else Some(MixRow(before.value, temp.value))
  }

  function Access(seed: Hash64, mix: seq<Word32>, i: nat, rows: nat): (parent: nat)
    requires |mix| == 32 && rows > 0 && i < LOOP_ACCESSES
    ensures parent < rows
  {
    ToNat(Fnv(ToWord(i) ^ WordAt(seed, 0), mix[i % 32])) % rows
  }

  lemma SeedHead(seed: Hash64)
    ensures WordAt(seed, 0) as nat
            == seed[0] as nat + 0x100 * seed[1] as nat + 0x1_0000 * seed[2] as nat + 0x100_0000 * seed[3] as nat
  {
    hide Uint32;
    LittleEndian(seed[0], seed[1], seed[2], seed[3]);
  }

  /** The pair of rows drawn by access i: the access and the first word of the seed, times the
      prime, and the word of the mix. */
  lemma DrawnAccess(seed: Hash64, mix: seq<Word32>, i: nat, rows: nat, product: Word32)
    requires |mix| == 32 && rows > 0 && i < LOOP_ACCESSES
    requires product == Times(ToWord(i) ^ WordAt(seed, 0), 16777619)
    ensures Access(seed, mix, i, rows) == ToNat(product ^ mix[i % 32]) % rows
  {
    hide WordAt, Times, ToWord, ToNat, Fnv;
    FnvIs(ToWord(i) ^ WordAt(seed, 0), mix[i % 32]);
  }

  /** Over rows of zeros, each access multiplies every word of the seed by the prime. */
  lemma {:induction false} MixedOverZeros(seed: Hash64, rows: nat, lookup: Lookup, n: nat, j: nat)
    requires rows > 0 && n <= LOOP_ACCESSES && j < 32
    requires forall r: nat :: lookup(r).Some? && |lookup(r).value| == 16 && AllZero(lookup(r).value)
    ensures Mixed(seed, rows, lookup, n).Some?
    ensures Mixed(seed, rows, lookup, n).value[j] == Scaled(WordAt(seed, j % 16), n)
    decreases n
  {
    hide Access, Times, WordAt, MixRow;
    if n > 0 {
      MixedOverZeros(seed, rows, lookup, n - 1, j);
      var mix := Mixed(seed, rows, lookup, n - 1).value;
      var parent := Access(seed, mix, n - 1, rows);
      assert lookup(2 * parent % TWO_32).Some? && lookup((2 * parent + 1) % TWO_32).Some?;
      MixZeros(mix, Fetch(lookup, parent).value, j);
    }
  }

  /** hashimotoEx: the digest and the final hash. It panics when the dataset has no row (modulo
      by zero) or a lookup is out of range. */
  function HashimotoEx(k256: Hasher256, seed: Hash64, size: nat, lookup: Lookup): Option<(seq<Byte>, seq<Byte>)> {
    if Rows(size) == 0 then None
    else
      var mix := Mixed(seed, Rows(size), lookup, LOOP_ACCESSES);
      if mix.None? then None
      else
        var digest := BytesOf(Folded(mix.value));
        Some((digest, k256(seed + digest)))
  }

  /** The seed of hashimoto: header hash and nonce in forty bytes. */
  function SeedOf(k512: Hasher512, hash: seq<Byte>, nonce: seq<Byte>): Hash64
    requires |hash| == 32 && |nonce| == 8
  {
    k512(hash + nonce)
  }

  /** hashimotoLight's lookup: the item recomputed from the cache. */
  function LightLookup(k512: Hasher512, cache: seq<Word32>): Lookup {
    (index: nat) =>
      if CacheRows(cache) == 0 || index >= TWO_32 then None else Some(WordsOf(DatasetItem(k512, cache, index)))
  }

  /** hashimotoFull's lookup: a slice of the dataset, both bounds computed in uint32. */
  function FullLookup(dataset: seq<Word32>): Lookup {
    (index: nat) =>
      var offset := index * HASH_WORDS % TWO_32;
      var end := (offset + HASH_WORDS) % TWO_32;
      if offset <= end <= |dataset| then Some(dataset[offset..end]) else None
  }

  function HashimotoLight(k512: Hasher512, k256: Hasher256, size: nat, cache: seq<Word32>, hash: seq<Byte>,
                          nonce: seq<Byte>): Option<(seq<Byte>, seq<Byte>)>
    requires |hash| == 32 && |nonce| == 8
  {
    HashimotoEx(k256, SeedOf(k512, hash, nonce), size, LightLookup(k512, cache))
  }

  function HashimotoFull(k512: Hasher512, k256: Hasher256, dataset: seq<Word32>, hash: seq<Byte>, nonce: seq<Byte>)
    : Option<(seq<Byte>, seq<Byte>)>
    requires |hash| == 32 && |nonce| == 8
  {
    HashimotoEx(k256, SeedOf(k512, hash, nonce), |dataset| * 4, FullLookup(dataset))
  }

  // ---------------------------------------------------------------- light and full agree

  /** Every complete row of the dataset is the item the cache gives for it. */
  ghost predicate Generated(k512: Hasher512, cache: seq<Word32>, dataset: seq<Word32>) {
    CacheRows(cache) > 0
    && forall r: nat :: r < |dataset| / HASH_WORDS && r < TWO_32 ==> RowIs(k512, cache, dataset, r)
  }

  ghost predicate RowIs(k512: Hasher512, cache: seq<Word32>, dataset: seq<Word32>, r: nat)
    requires CacheRows(cache) > 0 && r < TWO_32 && r < |dataset| / HASH_WORDS
  {
    dataset[r * HASH_WORDS..r * HASH_WORDS + HASH_WORDS] == WordsOf(DatasetItem(k512, cache, r))
  }

  /** The uint32 slice bounds reach every row of the dataset exactly when it has fewer than 2^32
      words: at 2^32 the upper bound of the last row wraps to zero. */
  lemma FullLookupExactIff(dataset: seq<Word32>)
    ensures (forall r: nat :: r < |dataset| / HASH_WORDS ==>
               FullLookup(dataset)(r) == Some(dataset[r * HASH_WORDS..r * HASH_WORDS + HASH_WORDS]))
            <==> |dataset| < TWO_32
  {
    if |dataset| < TWO_32 {
      forall r: nat | r < |dataset| / HASH_WORDS
        ensures FullLookup(dataset)(r) == Some(dataset[r * HASH_WORDS..r * HASH_WORDS + HASH_WORDS])
      {
        assert r * HASH_WORDS + HASH_WORDS <= |dataset|;
      }
    } else {
      var r := TWO_32 / HASH_WORDS - 1;
      assert FullLookup(dataset)(r) == None;
    }
  }

  lemma RowsInRange(words: nat, parent: nat)
    requires words < TWO_32 && parent < Rows(words * 4)
    ensures 2 * parent + 1 < words / HASH_WORDS && 2 * parent + 1 < TWO_32
  {
  }

  lemma LookupsAgree(k512: Hasher512, cache: seq<Word32>, dataset: seq<Word32>, r: nat)
    requires Generated(k512, cache, dataset) && |dataset| < TWO_32 && r < |dataset| / HASH_WORDS
    ensures LightLookup(k512, cache)(r) == FullLookup(dataset)(r)
    ensures FullLookup(dataset)(r).Some? && |FullLookup(dataset)(r).value| == 16
  {
    hide DatasetItem, WordsOf;
    FullLookupExactIff(dataset);
    assert RowIs(k512, cache, dataset, r);
  }

  lemma FetchesAgree(k512: Hasher512, cache: seq<Word32>, dataset: seq<Word32>, parent: nat)
    requires Generated(k512, cache, dataset) && |dataset| < TWO_32 && parent < Rows(|dataset| * 4)
    ensures Fetch(LightLookup(k512, cache), parent) == Fetch(FullLookup(dataset), parent)
    ensures Fetch(FullLookup(dataset), parent).Some?
  {
    hide Generated, LightLookup, FullLookup, Rows;
    RowsInRange(|dataset|, parent);
    LookupsAgree(k512, cache, dataset, 2 * parent);
    LookupsAgree(k512, cache, dataset, 2 * parent + 1);
  }

  lemma {:induction false} MixesAgree(k512: Hasher512, cache: seq<Word32>, dataset: seq<Word32>, seed: Hash64, n: nat)
    requires Generated(k512, cache, dataset) && |dataset| < TWO_32 && Rows(|dataset| * 4) > 0 && n <= LOOP_ACCESSES
    ensures var rows := Rows(|dataset| * 4);
            Mixed(seed, rows, LightLookup(k512, cache), n) == Mixed(seed, rows, FullLookup(dataset), n)
            && Mixed(seed, rows, FullLookup(dataset), n).Some?
    decreases n
  {
    hide Generated, Fetch, Access, Replicated, MixRow, LightLookup, FullLookup;
    if n > 0 {
      var rows := Rows(|dataset| * 4);
      MixesAgree(k512, cache, dataset, seed, n - 1);
      FetchesAgree(k512, cache, dataset,
                   Access(seed, Mixed(seed, rows, FullLookup(dataset), n - 1).value, n - 1, rows));
    }
  }

  /** A verifier with the cache and a miner with the dataset compute the same two hashes, and
      neither panics. */
  lemma LightEqualsFull(k512: Hasher512, k256: Hasher256, cache: seq<Word32>, dataset: seq<Word32>, hash: seq<Byte>,
                        nonce: seq<Byte>)
    requires |hash| == 32 && |nonce| == 8
    requires Generated(k512, cache, dataset) && MIX_BYTES <= |dataset| * 4 && |dataset| < TWO_32
    ensures HashimotoLight(k512, k256, |dataset| * 4, cache, hash, nonce)
            == HashimotoFull(k512, k256, dataset, hash, nonce)
    ensures HashimotoFull(k512, k256, dataset, hash, nonce).Some?
  {
    hide Generated, Mixed, Folded, BytesOf, SeedOf, LightLookup, FullLookup;
    MixesAgree(k512, cache, dataset, SeedOf(k512, hash, nonce), LOOP_ACCESSES);
  }

  // ---------------------------------------------------------------- hashimotoEx

  method ReplicateSeed(seed: Hash64) returns (mix: array<Word32>)
    ensures fresh(mix) && mix[..] == Replicated(seed)
  {
    hide WordAt;
    mix := new Word32[32](_ => 0);
    var i: nat := 0;
    while i < 32
      invariant i <= 32 && mix.Length == 32
      invariant forall j :: 0 <= j < i ==> mix[j] == Replicated(seed)[j]
    {
      mix[i] := WordAt(seed, i % 16);
      i := i + 1;
    }
  }

  method RunHashimotoEx(k256: Hasher256, seed: Hash64, size: nat, lookup: Lookup)
    returns (r: Option<(seq<Byte>, seq<Byte>)>)
    ensures r == HashimotoEx(k256, seed, size, lookup)
  {
    hide Fnv, Fetch, Access, Replicated, MixRow, Folded, BytesOf;
    var rows := Rows(size);
    if rows == 0 {
      return None;
    }
    var mix := ReplicateSeed(seed);
    var i: nat := 0;
    while i < LOOP_ACCESSES
      invariant i <= LOOP_ACCESSES && mix.Length == 32
      invariant Mixed(seed, rows, lookup, i) == Some(mix[..])
    {
      var temp := Fetch(lookup, Access(seed, mix[..], i, rows));
      if temp.None? {
        MixedFails(seed, rows, lookup, i + 1, LOOP_ACCESSES);
        return None;
      }
      FnvHash(mix, temp.value);
      i := i + 1;
    }
    assert mix[..32] == mix[..];
    FoldInPlace(mix);
    var digest := PutWords(mix[..8]);
    return Some((digest[..], k256(seed + digest[..])));
  }

  lemma {:induction false} MixedFails(seed: Hash64, rows: nat, lookup: Lookup, n: nat, m: nat)
    requires rows > 0 && n <= m <= LOOP_ACCESSES && Mixed(seed, rows, lookup, n).None?
    ensures Mixed(seed, rows, lookup, m).None?
  {
    hide Fetch, Access, Replicated, MixRow;
    if n < m { MixedFails(seed, rows, lookup, n, m - 1); }
  }
}
