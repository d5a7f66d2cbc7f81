/** contracts/DecentralizedKVMinable.sol: the entries a proof of random access has to show. */
module RandomAccess {
  import opened Words
  import opened Arithmetic
  import opened KvState

  /** keccak256 of one word, as the sampler applies it. */
  type Rehash = Word -> Word

  /** The seed after k rehashes. */
  function Seed(rehash: Rehash, hash0: Word, k: nat): Word {
    if k == 0 then hash0 else rehash(Seed(rehash, hash0, k - 1))
  }

  /** The j-th digit of w in base 2^bits, least significant first. */
  function Digit(w: Word, bits: nat, j: nat): nat {
    w / Pow2(j * bits) % Pow2(bits)
  }

  /** How many digits one 256-bit seed yields. */
  function DigitsPerSeed(bits: nat): (q: nat)
    requires 1 <= bits <= 256
    ensures 1 <= q && q * bits <= 256 < q * bits + bits
  {
    Recompose(256, bits);
    256 / bits
  }

  /** The i-th sample in closed form: digit i mod q of the (i / q)-times rehashed seed. With one
      entry in all (bits = 0) there is nothing to draw. */
  function Sample(rehash: Rehash, hash0: Word, bits: nat, i: nat): nat {
    hide DigitsPerSeed;
    if bits == 0 || bits > 256 then 0
    else
      var q := DigitsPerSeed(bits);
      Digit(Seed(rehash, hash0, i / q), bits, i % q)
  }

  /** Dropping one digit of a shifted word. */
  lemma NextDigit(w: nat, bits: nat, j: nat)
    ensures w / Pow2(j * bits) / Pow2(bits) == w / Pow2((j + 1) * bits)
  {
    hide Pow2;
    OneMore(j, bits);
    Pow2Adds(j * bits, bits);
    DivDiv(w, Pow2(j * bits), Pow2(bits));
  }

  /** The number that the first q digits write. */
  ghost function FromDigits(w: Word, bits: nat, q: nat): nat {
    if q == 0 then 0 else FromDigits(w, bits, q - 1) + Digit(w, bits, q - 1) * Pow2((q - 1) * bits)
  }

  /** The digits are those of the word: put together again they give its low bits, none used twice
      and none skipped. */
  lemma {:induction false} DigitsRebuild(w: Word, bits: nat, q: nat)
    ensures FromDigits(w, bits, q) == w % Pow2(q * bits)
  {
    hide Pow2, Digit;
    if q == 0 {
      assert Pow2(0) == 1 by { Pow2Zero(); }
    } else {
      DigitsRebuild(w, bits, q - 1);
      LowDigits(w, bits, q - 1);
    }
  }

  lemma Pow2Zero()
    ensures Pow2(0) == 1
  {
  }

  lemma LowDigits(w: Word, bits: nat, j: nat)
    ensures w % Pow2((j + 1) * bits) == w % Pow2(j * bits) + Digit(w, bits, j) * Pow2(j * bits)
  {
    hide Pow2;
    OneMore(j, bits);
    Pow2Adds(j * bits, bits);
    SplitRemainder(w, Pow2(j * bits), Pow2(bits));
  }

  lemma SplitRemainder(w: nat, a: nat, b: nat)
    requires a > 0 && b > 0
    ensures a * b > 0 && w % (a * b) == w % a + w / a % b * a
  {
    var p, r := w / a, w % a;
    var q, d := p / b, p % b;
    Recompose(w, a);
    Recompose(p, b);
    Expand(q, b, d, a);
    MulOrder(d + 1, b, a);
    OneMore(d, a);
    QuotientIs(w, a * b, q, d * a + r);
  }

  /** Fewer than bits bits are left exactly after the q-th digit. */
  lemma SeedUsedUp(bits: nat, q: nat, j: nat)
    requires bits >= 1 && q * bits <= 256 < q * bits + bits && j < q
    ensures (j + 1) * bits <= 256
    ensures 256 - (j + 1) * bits < bits <==> j + 1 == q
  {
    MulOrder(j + 1, q, bits);
    if j + 1 < q {
      MulOrder(j + 2, q, bits);
      OneMore(j + 1, bits);
    }
  }

  // ---------------------------------------------------------------- the sampler

  function StartKvIdx(startShardId: nat, shardEntryBits: nat): nat {
    startShardId * Pow2(shardEntryBits) % TWO_256
  }

  /** The i-th index in closed form: the start of the mined shards plus the i-th sample. */
  function SampledIndex(rehash: Rehash, hash0: Word, startShardId: nat, shardLenBits: nat, shardEntryBits: nat, i: nat)
    : nat
  {
    Sample(rehash, hash0, shardLenBits + shardEntryBits, i) + StartKvIdx(startShardId, shardEntryBits)
  }

  /** The loop that consumes the seed bit group by bit group. It reverts when the number of
      entries does not fit in uint256 (1 << 256 is zero, and nothing can be drawn modulo zero),
      or when an index overflows. */
  method CalculateRandomAccess(rehash: Rehash, kvMap: map<Word, PhyAddr>, idxMap: map<nat, Word>, lastKvIdx: nat,
                               maxKvSize: nat, shardEntryBits: nat, startShardId: nat, shardLenBits: nat, hash0: Word,
                               nRandomAccess: nat)
    returns (r: Option<(seq<nat>, seq<nat>)>)
    ensures r.None? <==>
              nRandomAccess > 0
              && (shardLenBits + shardEntryBits >= 256
                  || exists i: nat :: i < nRandomAccess
                       && SampledIndex(rehash, hash0, startShardId, shardLenBits, shardEntryBits, i) >= TWO_256)
    ensures r.Some? ==> |r.value.0| == |r.value.1| == nRandomAccess
    ensures r.Some? ==> forall i :: 0 <= i < nRandomAccess ==>
              r.value.0[i] == SampledIndex(rehash, hash0, startShardId, shardLenBits, shardEntryBits, i)
    ensures r.Some? ==> forall i :: 0 <= i < nRandomAccess ==>
              r.value.1[i] == if r.value.0[i] >= lastKvIdx then maxKvSize
                              else Addr(kvMap, KeyAt(idxMap, r.value.0[i])).kvSize
  {
    hide *;
    var kvIdxs, kvSizes := new nat[nRandomAccess], new nat[nRandomAccess];
    var totalEntryBits := shardLenBits + shardEntryBits;
    var totalEntries := OneShiftedBy(totalEntryBits);
    var startKvIdx := StartKvIdx(startShardId, shardEntryBits);
    var bits: nat, rhash, randomBits: nat := 256, hash0, hash0;
    var i: nat := 0;
    ghost var k: nat, j: nat := 0, 0;
    Entries(totalEntryBits);
    FirstDraw(rehash, hash0, totalEntryBits);
    while i < nRandomAccess
      invariant i <= nRandomAccess && kvIdxs.Length == kvSizes.Length == nRandomAccess && kvIdxs != kvSizes
      invariant totalEntryBits < 256 ==> Drawing(rehash, hash0, totalEntryBits, i, k, j, bits, rhash, randomBits)
      invariant i > 0 ==> totalEntryBits < 256
      invariant forall n: nat :: n < i ==>
                  kvIdxs[n] == SampledIndex(rehash, hash0, startShardId, shardLenBits, shardEntryBits, n) < TWO_256
      invariant forall n: nat :: n < i ==>
                  kvSizes[n] == if kvIdxs[n] >= lastKvIdx then maxKvSize
                                else Addr(kvMap, KeyAt(idxMap, kvIdxs[n])).kvSize
    {
      if totalEntries == 0 {
        return None;
      }
      var kvIdx := randomBits % totalEntries + startKvIdx;
      DrawnIsSample(rehash, hash0, startShardId, shardLenBits, shardEntryBits, i, k, j, bits, rhash, randomBits);
      if kvIdx >= TWO_256 {
        return None;
      }
      if kvIdx >= lastKvIdx {
        kvSizes[i] := maxKvSize;
      } else {
        kvSizes[i] := Addr(kvMap, KeyAt(idxMap, kvIdx)).kvSize;
      }
      kvIdxs[i] := kvIdx;
      bits, rhash, randomBits, k, j := NextDraw(rehash, hash0, totalEntryBits, i, k, j, bits, rhash, randomBits);
      i := i + 1;
    }
    return Some((kvIdxs[..], kvSizes[..]));
  }

  /** The end of the loop body: drop the drawn bits, and rehash once too few are left. */
  method NextDraw(rehash: Rehash, ghost hash0: Word, totalEntryBits: nat, ghost i: nat, ghost k0: nat, ghost j0: nat,
                  bits0: nat, rhash0: Word, randomBits0: nat)
    returns (bits: nat, rhash: Word, randomBits: nat, ghost k: nat, ghost j: nat)
    requires totalEntryBits < 256 && Drawing(rehash, hash0, totalEntryBits, i, k0, j0, bits0, rhash0, randomBits0)
    ensures Drawing(rehash, hash0, totalEntryBits, i + 1, k, j, bits, rhash, randomBits)
  {
    hide *;
    EnoughLeft(rehash, hash0, totalEntryBits, i, k0, j0, bits0, rhash0, randomBits0);
    Entries(totalEntryBits);
    rhash, k, j := rhash0, k0, j0;
    bits := bits0 - totalEntryBits;
    randomBits := randomBits0 / OneShiftedBy(totalEntryBits);
    if totalEntryBits > 0 {
      DrawNext(rehash, hash0, totalEntryBits, i, k0, j0, bits, rhash0, randomBits0, randomBits);
      j := j + 1;
    } else {
      NothingToDraw(rehash, hash0, i, k0, j0, bits0, rhash0, randomBits0, i + 1, randomBits);
    }
    if bits < totalEntryBits {
      rhash := rehash(rhash);
      bits := 256;
      randomBits := rhash;
      k, j := k + 1, 0;
    }
  }

  lemma Entries(bits: nat)
    ensures OneShiftedBy(bits) == 0 <==> bits >= 256
    ensures bits < 256 ==> OneShiftedBy(bits) == Pow2(bits)
  {
  }

  /** The state of the sampler before sample i = k * q + j: digit j of seed k comes next. */
  ghost predicate Drawing(rehash: Rehash, hash0: Word, bits: nat, i: nat, k: nat, j: nat, left: nat, rhash: Word,
                          randomBits: nat)
  {
    if bits == 0 then left == 256
    else
      bits < 256
      && i == k * DigitsPerSeed(bits) + j && j < DigitsPerSeed(bits)
      && rhash == Seed(rehash, hash0, k)
      && left == 256 - j * bits
      && randomBits == rhash / Pow2(j * bits)
  }

  lemma FirstDraw(rehash: Rehash, hash0: Word, bits: nat)
    ensures bits < 256 ==> Drawing(rehash, hash0, bits, 0, 0, 0, 256, hash0, hash0)
  {
    hide DigitsPerSeed;
    assert 0 * bits == 0 && Pow2(0) == 1;
  }

  lemma DrawnIsSample(rehash: Rehash, hash0: Word, startShardId: nat, shardLenBits: nat, shardEntryBits: nat, i: nat,
                      k: nat, j: nat, left: nat, rhash: Word, randomBits: nat)
    requires var bits := shardLenBits + shardEntryBits;
             bits < 256 && Drawing(rehash, hash0, bits, i, k, j, left, rhash, randomBits)
    ensures OneShiftedBy(shardLenBits + shardEntryBits) > 0
    ensures randomBits % OneShiftedBy(shardLenBits + shardEntryBits) + StartKvIdx(startShardId, shardEntryBits)
            == SampledIndex(rehash, hash0, startShardId, shardLenBits, shardEntryBits, i)
  {
    hide Seed, DigitsPerSeed, StartKvIdx;
    var bits := shardLenBits + shardEntryBits;
    if bits > 0 {
      QuotientIs(i, DigitsPerSeed(bits), k, j);
    } else {
      assert OneShiftedBy(bits) == 1;
    }
  }

  lemma EnoughLeft(rehash: Rehash, hash0: Word, bits: nat, i: nat, k: nat, j: nat, left: nat, rhash: Word,
                   randomBits: nat)
    requires bits < 256 && Drawing(rehash, hash0, bits, i, k, j, left, rhash, randomBits)
    ensures left >= bits && OneShiftedBy(bits) > 0
  {
    hide Pow2, DigitsPerSeed, Seed;
    if bits > 0 {
      OneMore(j, bits);
      SeedUsedUp(bits, DigitsPerSeed(bits), j);
    }
  }

  /** One draw: rest bits stay, and shifted holds them. */
  lemma DrawNext(rehash: Rehash, hash0: Word, bits: nat, i: nat, k: nat, j: nat, rest: nat, rhash: Word,
                 randomBits: nat, shifted: nat)
    requires 0 < bits < 256 && Drawing(rehash, hash0, bits, i, k, j, rest + bits, rhash, randomBits)
    requires shifted == randomBits / Pow2(bits)
    ensures rest < bits ==> Drawing(rehash, hash0, bits, i + 1, k + 1, 0, 256, rehash(rhash), rehash(rhash))
    ensures rest >= bits ==> Drawing(rehash, hash0, bits, i + 1, k, j + 1, rest, rhash, shifted)
  {
    hide Pow2, DigitsPerSeed, Seed;
    OneMore(j, bits);
    SeedUsedUp(bits, DigitsPerSeed(bits), j);
    if rest < bits {
      NewSeed(rehash, hash0, bits, i, k, j, rhash);
    } else {
      NextDigit(rhash, bits, j);
    }
  }

  lemma NothingToDraw(rehash: Rehash, hash0: Word, i: nat, k: nat, j: nat, left: nat, rhash: Word, randomBits: nat,
                      next: nat, shifted: nat)
    requires Drawing(rehash, hash0, 0, i, k, j, left, rhash, randomBits)
    ensures left == 256 && Drawing(rehash, hash0, 0, next, k, j, left, rhash, shifted)
  {
  }

  lemma NewSeed(rehash: Rehash, hash0: Word, bits: nat, i: nat, k: nat, j: nat, rhash: Word)
    requires 0 < bits < 256 && j + 1 == DigitsPerSeed(bits)
    requires i == k * DigitsPerSeed(bits) + j && rhash == Seed(rehash, hash0, k)
    ensures Drawing(rehash, hash0, bits, i + 1, k + 1, 0, 256, rehash(rhash), rehash(rhash))
  {
    hide DigitsPerSeed;
    OneMore(k, DigitsPerSeed(bits));
    assert 0 * bits == 0 && Pow2(0) == 1;
  }

  /** Every index drawn lies in one of the mined shards. */
  lemma SampleInMinedShards(rehash: Rehash, hash0: Word, shardEntryBits: nat, startShardId: nat,
                            shardLenBits: nat, i: nat)
    requires shardLenBits + shardEntryBits < 256 && startShardId * Pow2(shardEntryBits) < TWO_256
    ensures var kvIdx := SampledIndex(rehash, hash0, startShardId, shardLenBits, shardEntryBits, i);
            startShardId <= kvIdx / Pow2(shardEntryBits) < startShardId + Pow2(shardLenBits)
  {
    hide Sample, Pow2, SampledIndex;
    SampledIs(rehash, hash0, startShardId, shardLenBits, shardEntryBits, i);
    var e, n := Pow2(shardEntryBits), Pow2(shardLenBits);
    Pow2Adds(shardLenBits, shardEntryBits);
    SampleBelow(rehash, hash0, shardLenBits + shardEntryBits, i);
    ShardOf(startShardId, e, n, Sample(rehash, hash0, shardLenBits + shardEntryBits, i));
  }

  lemma SampledIs(rehash: Rehash, hash0: Word, startShardId: nat, shardLenBits: nat, shardEntryBits: nat, i: nat)
    requires startShardId * Pow2(shardEntryBits) < TWO_256
    ensures SampledIndex(rehash, hash0, startShardId, shardLenBits, shardEntryBits, i)
            == Sample(rehash, hash0, shardLenBits + shardEntryBits, i) + startShardId * Pow2(shardEntryBits)
  {
    hide Sample, Pow2;
  }

  lemma SampleBelow(rehash: Rehash, hash0: Word, bits: nat, i: nat)
    requires bits < 256
    ensures Sample(rehash, hash0, bits, i) < Pow2(bits)
  {
    hide Seed, Pow2;
  }

  lemma ShardOf(s: nat, e: nat, n: nat, d: nat)
    requires e > 0 && d < n * e
    ensures s <= (d + s * e) / e < s + n
  {
    var q, r := d / e, d % e;
    Recompose(d, e);
    Expand(q, 1, s, e);
    QuotientIs(d + s * e, e, q + s, r);
    if q >= n { MulOrder(n, q, e); }
  }
}
