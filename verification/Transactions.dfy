/** contracts/DecentralizedKV.sol and contracts/DKVDaggerHashimoto.sol: which transactions go through,
    and what they change. */
module Transactions {
  import opened Words
  import opened Arithmetic
  import opened MiningLib
  import opened Rent
  import opened KvState
  import opened KvStore
  import opened Solvency

  // ---------------------------------------------------------------- put

  /** The index and the shard numbers still fit in uint40 after one more entry. */
  ghost predicate HasRoom(cfg: Config, s: State) {
    s.lastKvIdx + (if cfg.Entries() == 1 then 2 else 1) < UINT40
  }

  lemma HalfAtMost(n: nat, e: nat)
    requires e > 1
    ensures 2 * (n / e) <= n
  {
    Recompose(n, e);
    MulOrder(2, e, n / e);
  }

  lemma PrepareIff(cfg: Config, s: State)
    ensures Prepare(cfg, s).Some? <==> HasRoom(cfg, s)
  {
    hide Pow2;
    var e, n := cfg.Entries(), s.lastKvIdx + 1;
    if e == 1 {
      QuotientIs(n, e, n, 0);
    } else {
      HalfAtMost(n, e);
    }
  }

  /** Preparing a put that will fill a shard stamps the record of the next shard with the time and
      with the hash of the shard before it; it touches nothing else, and other puts nothing. */
  lemma PrepareStamps(cfg: Config, s: State, shard: nat)
    requires Prepare(cfg, s).Some?
    ensures var before, after := InfoAt(s.infos, shard), InfoAt(Prepare(cfg, s).value, shard);
            if (s.lastKvIdx + 1) % cfg.Entries() == 0 && shard == (s.lastKvIdx + 1) / cfg.Entries() + 1
            then after.lastMineTime == s.now && after.miningHash == InfoAt(s.infos, shard - 1).miningHash
                 && after.difficulty == before.difficulty && after.blockMined == before.blockMined
            else after == before
  {
  }

  /** A put goes through exactly when there is room, the data is not too large, and the key is
      stored already or the price is paid. It takes all of value, and appends only a new key. */
  lemma PutAnswer(cfg: Config, s: State, skey: Word, data: seq<Byte>, value: nat)
    requires cfg.Valid()
    ensures Put(cfg, s, skey, data, value).Some?
            <==> HasRoom(cfg, s) && |data| <= cfg.maxKvSize
                 && (skey in View(s) || (cfg.startTime <= s.now && value >= Price(cfg, s.now)))
    ensures Put(cfg, s, skey, data, value).Some? ==>
              var t := Put(cfg, s, skey, data, value).value;
              t.balance == s.balance + value && t.now == s.now
              && t.lastKvIdx == s.lastKvIdx + (if skey in View(s) then 0 else 1)
              && Addr(t.kvMap, skey).kvIdx == (if skey in View(s) then Addr(s.kvMap, skey).kvIdx else s.lastKvIdx)
              && t.infos == Prepare(cfg, s).value
  {
    hide Commitment, Prepare, PaymentInf;
    PrepareIff(cfg, s);
    ViewKeys(s);
  }

  // ---------------------------------------------------------------- removeTo

  /** A removal goes through exactly for a stored key, from startTime on, when the balance covers
      the price; it pays out the price, and changes no mining record. */
  lemma RemoveAnswer(cfg: Config, s: State, skey: Word)
    requires cfg.Valid() && IndexOk(s)
    ensures RemoveTo(cfg, s, skey).Some?
            <==> skey in View(s) && cfg.startTime <= s.now && s.balance >= Price(cfg, s.now)
    ensures RemoveTo(cfg, s, skey).Some? ==>
              var t := RemoveTo(cfg, s, skey).value;
              t.balance + Price(cfg, s.now) == s.balance && t.now == s.now && t.infos == s.infos
              && t.lastKvIdx + 1 == s.lastKvIdx
  {
    hide Relinked, PaymentInf;
    ViewKeys(s);
    assert Live(s, skey) ==> KeyOk(s, skey);
  }

  /** Putting a new key at the asked price and removing it in the same second restores the
      balance and the plain map. */
  lemma PutThenRemove(cfg: Config, s: State, skey: Word, data: seq<Byte>)
    requires cfg.Valid() && IndexOk(s) && DataOk(cfg, s) && skey !in View(s)
    requires cfg.startTime <= s.now && HasRoom(cfg, s) && |data| <= cfg.maxKvSize
    requires Commitment(cfg, data) != 0 && |data| < UINT24
    ensures var r := Put(cfg, s, skey, data, Price(cfg, s.now));
            r.Some? && RemoveTo(cfg, r.value, skey).Some?
            && var t := RemoveTo(cfg, r.value, skey).value;
               t.balance == s.balance && View(t) == View(s) && t.lastKvIdx == s.lastKvIdx
  {
    hide Put, RemoveTo, Commitment, Price, View, IndexOk, DataOk;
    PutAnswer(cfg, s, skey, data, Price(cfg, s.now));
    var t := Put(cfg, s, skey, data, Price(cfg, s.now)).value;
    PutRefines(cfg, s, skey, data, Price(cfg, s.now));
    RemoveAnswer(cfg, t, skey);
    RemoveRefines(cfg, t, skey);
    assert View(s)[skey := data] - {skey} == View(s);
  }

  // ---------------------------------------------------------------- mine

  /** The difficulty of a shard is defined at the claimed time. */
  ghost predicate Minable(cfg: Config, infos: map<nat, MiningInfo>, shard: nat, minedTs: nat) {
    shard < TWO_256 && ExpectedDiff(InfoAt(infos, shard), minedTs, cfg.tuning).Diff?
  }

  ghost function DiffOf(cfg: Config, infos: map<nat, MiningInfo>, shard: nat, minedTs: nat): nat {
    var d := ExpectedDiff(InfoAt(infos, shard), minedTs, cfg.tuning);
    if d.Diff? then d.value else 0
  }

  ghost function TotalDiff(cfg: Config, infos: map<nat, MiningInfo>, start: nat, n: nat, minedTs: nat): nat {
    if n == 0 then 0 else TotalDiff(cfg, infos, start, n - 1, minedTs) + DiffOf(cfg, infos, start + n - 1, minedTs)
  }

  /** The difficulties add up, shard by shard; the loop reverts when one of them is undefined or
      their sum leaves uint256. */
  lemma {:induction false} DifficultiesIff(cfg: Config, infos: map<nat, MiningInfo>, start: nat, n: nat, minedTs: nat)
    ensures Difficulties(cfg, infos, start, n, minedTs).Some?
            <==> (forall shard :: start <= shard < start + n ==> Minable(cfg, infos, shard, minedTs))
                 && TotalDiff(cfg, infos, start, n, minedTs) < TWO_256
    ensures Difficulties(cfg, infos, start, n, minedTs).Some? ==>
              var r := Difficulties(cfg, infos, start, n, minedTs).value;
              r.1 == TotalDiff(cfg, infos, start, n, minedTs) && |r.0| == n
              && forall i :: 0 <= i < n ==> r.0[i] == DiffOf(cfg, infos, start + i, minedTs)
  {
    hide ExpectedDiff;
    if n > 0 {
      DifficultiesIff(cfg, infos, start, n - 1, minedTs);
      NeverBackwards(cfg, infos, start + n - 1, minedTs);
      assert Minable(cfg, infos, start + n - 1, minedTs)
             <==> start + n - 1 < TWO_256
                  && ExpectedDiff(InfoAt(infos, start + n - 1), minedTs, cfg.tuning).Diff?;
    }
  }

  lemma NeverBackwards(cfg: Config, infos: map<nat, MiningInfo>, shard: nat, minedTs: nat)
    ensures ExpectedDiff(InfoAt(infos, shard), minedTs, cfg.tuning).Diff? ==>
              InfoAt(infos, shard).lastMineTime <= minedTs
  {
  }

  /** On a sound ledger a digest is accepted exactly when the claimed time is not in the future,
      every difficulty of the range is defined, and digest times total difficulty stays below
      2^256. */
  lemma MineAccepts(cfg: Config, s: State, start: nat, bits: nat, minedTs: nat, proof: Option<Word>)
    requires cfg.Valid() && LedgerOk(cfg, s)
    ensures var n := OneShiftedBy(bits);
            var total := TotalDiff(cfg, s.infos, start, n, minedTs);
            MineReward(cfg, s, start, bits, minedTs, proof).Some?
            <==> minedTs <= s.now && proof.Some?
                 && (forall shard :: start <= shard < start + n ==> Minable(cfg, s.infos, shard, minedTs))
                 && 0 < total < TWO_256 && proof.value * total < TWO_256
  {
    hide ExpectedDiff, Difficulties, Rewarded, TotalDiff, MinedBetween, Minable;
    var n := OneShiftedBy(bits);
    var total := TotalDiff(cfg, s.infos, start, n, minedTs);
    DifficultiesIff(cfg, s.infos, start, n, minedTs);
    if total > 0 && proof.Some? {
      QuotientAtLeast(TWO_256 - 1, proof.value, total);
    }
    if minedTs <= s.now && Difficulties(cfg, s.infos, start, n, minedTs).Some? {
      var diffs := Difficulties(cfg, s.infos, start, n, minedTs).value.0;
      DifficultiesLength(cfg, s.infos, start, n, minedTs);
      if proof.Some? {
        RewardWithinClaims(cfg, s.infos, LastMinableShard(cfg, s.lastKvIdx), start, n, diffs, minedTs, proof.value,
                           s.now);
      }
    }
  }

  /** After a mined block every payable shard of the range carries its time, its hash, its own
      new difficulty and one more block; every other record is as before. */
  lemma MinedRecord(cfg: Config, s: State, start: nat, bits: nat, minedTs: nat, proof: Option<Word>, shard: nat)
    requires Mine(cfg, s, start, bits, minedTs, proof).Some?
    ensures proof.Some?
    ensures var before, after := InfoAt(s.infos, shard),
                                 InfoAt(Mine(cfg, s, start, bits, minedTs, proof).value.infos, shard);
            if start <= shard < start + OneShiftedBy(bits) && shard <= LastMinableShard(cfg, s.lastKvIdx)
            then after.lastMineTime == minedTs && after.miningHash == proof.value
                 && after.blockMined == before.blockMined + 1
                 && after.difficulty == DiffOf(cfg, s.infos, shard, minedTs)
            else after == before
  {
    hide ExpectedDiff, Difficulties, Rewarded;
    var n := OneShiftedBy(bits);
    var diffs := Difficulties(cfg, s.infos, start, n, minedTs).value.0;
    DifficultiesIff(cfg, s.infos, start, n, minedTs);
    RewardedAdvances(cfg, s.infos, LastMinableShard(cfg, s.lastKvIdx), start, n, diffs, minedTs, proof.value, shard);
  }

  lemma {:induction false} RewardedAdvances(cfg: Config, infos: map<nat, MiningInfo>, last: nat, start: nat, n: nat,
                                            diffs: seq<nat>, minedTs: nat, hash: Word, shard: nat)
    requires n <= |diffs| && Rewarded(cfg, infos, last, start, n, diffs, minedTs, hash).Some?
    ensures var before, after := InfoAt(infos, shard),
                                 InfoAt(Rewarded(cfg, infos, last, start, n, diffs, minedTs, hash).value.1, shard);
            if start <= shard < start + n && shard <= last
            then after.lastMineTime == minedTs && after.miningHash == hash
                 && after.difficulty == diffs[shard - start] && after.blockMined == before.blockMined + 1
            else after == before
  {
    hide PaymentIn;
    if n > 0 {
      RewardedAdvances(cfg, infos, last, start, n - 1, diffs, minedTs, hash, shard);
      RewardedAdvances(cfg, infos, last, start, n - 1, diffs, minedTs, hash, start + n - 1);
    }
  }

  /** The coinbase gets its share of the reward in parts of ten thousand, rounded down. */
  lemma CoinbaseShare(cfg: Config, reward: nat)
    ensures Floors(CoinbaseReward(cfg, reward), reward * cfg.coinbaseShare, 10000)
  {
    FloorsDiv(reward * cfg.coinbaseShare, 10000);
  }

  /** A mined block pays out the reward, which is the rent its shards can no longer claim, less at
      most one wei for each of them. Only records and balance change. */
  lemma MinePays(cfg: Config, s: State, start: nat, bits: nat, minedTs: nat, proof: Option<Word>)
    requires cfg.Valid() && LedgerOk(cfg, s) && Mine(cfg, s, start, bits, minedTs, proof).Some?
    ensures var t, n := Mine(cfg, s, start, bits, minedTs, proof).value, PayableShards(cfg, s.lastKvIdx);
            var freed := Liability(cfg, s.infos, n) - Liability(cfg, t.infos, n);
            freed - PayableIn(n - 1, start, OneShiftedBy(bits)) <= s.balance - t.balance <= freed
            && t == s.(infos := t.infos, balance := t.balance)
  {
    hide MineReward, Liability, MinedBetween, PayableIn;
    MineWithinClaims(cfg, s, start, bits, minedTs, proof);
  }
}
