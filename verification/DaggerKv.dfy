/** contracts/DKVDaggerHashimoto.sol and contracts/TestStorageManager.sol as objects: the
    transactions step by step, each proved against its function in KvState. */
module DaggerKv {
  import Arithmetic
  import opened Words
  import opened MerkleTree
  import MerkleLib
  import BinaryRelated
  import opened MiningLib
  import opened Rent
  import KvState
  import KvReads

  /** Everything a mapping holds fits in memory. */
  ghost predicate FitsMemory(dataMap: map<nat, seq<Byte>>) {
    forall i: nat :: |KvState.DataAt(dataMap, i)| < TWO_64
  }

  lemma FitsAfterWrite(dataMap: map<nat, seq<Byte>>, i: nat, data: seq<Byte>)
    requires FitsMemory(dataMap) && |data| < TWO_64
    ensures FitsMemory(dataMap[i := data])
  {
    var after := dataMap[i := data];
    forall j: nat ensures |KvState.DataAt(after, j)| < TWO_64 {
      assert |KvState.DataAt(dataMap, j)| < TWO_64;
    }
  }

  lemma FitsAfterMove(dataMap: map<nat, seq<Byte>>, from: nat, to: nat)
    requires FitsMemory(dataMap)
    ensures FitsMemory(dataMap[to := KvState.DataAt(dataMap, from)][from := []])
  {
    FitsAfterWrite(dataMap, to, KvState.DataAt(dataMap, from));
    FitsAfterWrite(dataMap[to := KvState.DataAt(dataMap, from)], from, []);
  }

  class TestStorageManager {
    const keccak: Keccak
    var dataMap: map<nat, seq<Byte>>

    constructor (keccak: Keccak)
      ensures this.keccak == keccak && dataMap == map[]
    {
      this.keccak := keccak;
      dataMap := map[];
    }

    method PutRaw(kvIdx: nat, data: seq<Byte>)
      modifies this`dataMap
      ensures dataMap == old(dataMap)[kvIdx := data]
    {
      dataMap := dataMap[kvIdx := data];
    }

    /** Moves one slot onto another and clears the first; clears it even when they are the same. */
    method RemoveRaw(fromKvIdx: nat, toKvIdx: nat)
      modifies this`dataMap
      ensures dataMap == old(dataMap)[toKvIdx := KvState.DataAt(old(dataMap), fromKvIdx)][fromKvIdx := []]
    {
      dataMap := dataMap[toKvIdx := KvState.DataAt(dataMap, fromKvIdx)];
      dataMap := dataMap[fromKvIdx := []];
    }

    method GetRaw(hash: nat, kvIdx: nat, off: nat, len0: nat) returns (r: Option<seq<Byte>>)
      requires FitsMemory(dataMap)
      ensures r == KvReads.GetRaw(keccak, dataMap, hash, kvIdx, off, len0)
    {
      hide MinRoot;
      var data := KvState.DataAt(dataMap, kvIdx);
      var root := MerkleLib.MerkleRootWithMinTree(keccak, data, KvReads.CHUNK_SIZE);
      EmptyRoot(keccak, data, KvReads.CHUNK_SIZE);
      if hash != KvState.Trunc24(root.value) {
        return None;
      }
      if off >= |data| {
        return Some([]);
      }
      var len := len0;
      if len > |data| - off {
        len := |data| - off;
      }
      var ret := new Byte[len](_ => 0);
      var i: nat := 0;
      while i < len
        invariant i <= len && forall j :: 0 <= j < i ==> ret[j] == data[j + off]
      {
        ret[i] := data[i + off];
        i := i + 1;
      }
      assert ret[..] == data[off..off + len];
      return Some(ret[..]);
    }
  }

  lemma EmptyRoot(keccak: Keccak, data: seq<Byte>, chunkSize: nat)
    requires chunkSize > 0
    ensures |data| == 0 ==> MinRoot(keccak, data, chunkSize) == ZERO_WORD
  {
  }

  class DecentralizedKVDaggerHashimoto {
    const cfg: KvState.Config
    const storageManager: TestStorageManager
    var kvMap: map<Word, KvState.PhyAddr>
    var idxMap: map<nat, Word>
    var lastKvIdx: nat
    var infos: map<nat, MiningInfo>
    var balance: nat
    var timestamp: nat

    ghost predicate Valid()
      reads this, storageManager
    {
      cfg.Valid() && storageManager.keccak == cfg.keccak && FitsMemory(storageManager.dataMap)
    }

    ghost function Snapshot(): KvState.State
      reads this, storageManager
    {
      KvState.State(kvMap, idxMap, storageManager.dataMap, lastKvIdx, infos, balance, timestamp)
    }

    constructor (cfg: KvState.Config, storageManager: TestStorageManager, genesisHash: Word, value: nat, now: nat)
      requires cfg.Valid() && storageManager.keccak == cfg.keccak && storageManager.dataMap == map[]
      ensures Valid() && this.cfg == cfg && this.storageManager == storageManager
      ensures Snapshot() == KvState.Deployed(cfg, genesisHash, value, now)
      ensures infos == map[0 := MiningInfo(genesisHash, cfg.startTime, 0, 0),
                           1 := MiningInfo(genesisHash, cfg.startTime, 0, 0)]
    {
      this.cfg := cfg;
      this.storageManager := storageManager;
      kvMap, idxMap, lastKvIdx := map[], map[], 0;
      infos := map[0 := MiningInfo(genesisHash, cfg.startTime, 0, 0)];
      balance, timestamp := value, now;
      new;
      infos := infos[1 := MiningInfo(genesisHash, cfg.startTime, 0, 0)];
    }

    // -------------------------------------------------------------- prices

    method UpfrontPayment() returns (r: Option<nat>)
      requires Valid()
      ensures r == KvState.Upfront(cfg, timestamp)
    {
      hide BinaryRelated.Pow;
      if timestamp < cfg.startTime {
        return None;
      }
      var p := BinaryRelated.PowLoop(cfg.dcfFactor, timestamp - cfg.startTime);
      StorageCostFits(cfg);
      PaymentFits(cfg.dcfFactor, cfg.storageCost, timestamp - cfg.startTime);
      return Some(cfg.storageCost * p.value / TWO_128);
    }

    /** Reverts before startTime, on a rising power, and when the product leaves uint256, which no
        principal below 2^128 can cause. */
    method PaymentIn(x: nat, fromTs: nat, toTs: nat) returns (r: Option<nat>)
      requires Valid()
      ensures r == if ProductOverflows(cfg, x, fromTs, toTs) then None else KvState.PaymentIn(cfg, x, fromTs, toTs)
      ensures x < TWO_128 ==> r == KvState.PaymentIn(cfg, x, fromTs, toTs)
    {
      hide BinaryRelated.Pow;
      if fromTs < cfg.startTime || toTs < cfg.startTime {
        return None;
      }
      var p0 := BinaryRelated.PowLoop(cfg.dcfFactor, fromTs - cfg.startTime);
      var p1 := BinaryRelated.PowLoop(cfg.dcfFactor, toTs - cfg.startTime);
      if p0.value < p1.value {
        return None;
      }
      if x < TWO_128 {
        PaymentFits(cfg.dcfFactor, x, fromTs - cfg.startTime);
        Arithmetic.MulMonotone(x, p0.value - p1.value, x, p0.value);
      }
      if x * (p0.value - p1.value) >= TWO_256 {
        return None;
      }
      return Some(x * (p0.value - p1.value) / TWO_128);
    }

    // -------------------------------------------------------------- put

    /** Rewrites the record of the next shard when the next append would fill a shard. */
    method PreparePut() returns (ok: bool)
      modifies this`infos
      ensures ok == KvState.Prepare(cfg, old(Snapshot())).Some?
      ensures infos == if ok then KvState.Prepare(cfg, old(Snapshot())).value else old(infos)
    {
      if lastKvIdx + 1 >= KvState.UINT40 {
        return false;
      }
      if (lastKvIdx + 1) % cfg.Entries() == 0 {
        var nextShardId := (lastKvIdx + 1) / cfg.Entries() + 1;
        if nextShardId >= KvState.UINT40 {
          return false;
        }
        infos := infos[nextShardId := KvState.InfoAt(infos, nextShardId).(lastMineTime := timestamp)];
        infos := infos[nextShardId := KvState.InfoAt(infos, nextShardId).(
                         miningHash := KvState.InfoAt(infos, nextShardId - 1).miningHash)];
      }
      return true;
    }

    method Put(sender: Word, key: Word, data: seq<Byte>, value: nat) returns (ok: bool)
      requires Valid() && |data| < TWO_64
      modifies this`kvMap, this`idxMap, this`lastKvIdx, this`infos, this`balance, storageManager`dataMap
      ensures Valid()
      ensures ok == KvState.Put(cfg, old(Snapshot()), cfg.SKey(sender, key), data, value).Some?
      ensures ok ==> Snapshot() == KvState.Put(cfg, old(Snapshot()), cfg.SKey(sender, key), data, value).value
      ensures !ok ==> Snapshot() == old(Snapshot())
      ensures ok ==> balance == old(balance) + value
    {
      hide MinRoot, FitsMemory, KvState.Prepare, KvState.Upfront;
      if |data| > cfg.maxKvSize {
        return false;
      }
      var price := UpfrontPayment();
      var infosBefore := infos;
      var prepared := PreparePut();
      if !prepared {
        return false;
      }
      var skey := cfg.SKey(sender, key);
      var paddr := KvState.Addr(kvMap, skey);
      if paddr.hash == 0 {
        if price.None? || value < price.value {
          infos := infosBefore;
          return false;
        }
        paddr := paddr.(kvIdx := lastKvIdx);
        idxMap := idxMap[paddr.kvIdx := skey];
        lastKvIdx := lastKvIdx + 1;
      }
      paddr := paddr.(kvSize := |data| % KvState.UINT24);
      var root := MerkleLib.MerkleRootWithMinTree(cfg.keccak, data, cfg.chunkSize);
      EmptyRoot(cfg.keccak, data, cfg.chunkSize);
      paddr := paddr.(hash := KvState.Trunc24(root.value));
      kvMap := kvMap[skey := paddr];
      balance := balance + value;
      FitsAfterWrite(storageManager.dataMap, paddr.kvIdx, data);
      storageManager.PutRaw(paddr.kvIdx, data);
      return true;
    }

    // -------------------------------------------------------------- removeTo

    method RemoveTo(sender: Word, key: Word) returns (refund: Option<nat>)
      requires Valid()
      modifies this`kvMap, this`idxMap, this`lastKvIdx, this`balance, storageManager`dataMap
      ensures Valid()
      ensures refund.Some? == KvState.RemoveTo(cfg, old(Snapshot()), cfg.SKey(sender, key)).Some?
      ensures refund.Some? ==> Snapshot() == KvState.RemoveTo(cfg, old(Snapshot()), cfg.SKey(sender, key)).value
                               && balance + refund.value == old(balance)
                               && refund == KvState.Upfront(cfg, old(timestamp))
      ensures refund.None? ==> Snapshot() == old(Snapshot())
    {
      hide KvState.Upfront, FitsMemory, KvState.Deployed;
      var price := UpfrontPayment();
      var skey := cfg.SKey(sender, key);
      var paddr := KvState.Addr(kvMap, skey);
      var kvIdx := paddr.kvIdx;
      if paddr.hash == 0 || lastKvIdx == 0 || price.None? || balance < price.value {
        return None;
      }
      kvMap := kvMap[skey := KvState.NO_ADDR];
      var lastSkey := KvState.KeyAt(idxMap, lastKvIdx - 1);
      idxMap := idxMap[kvIdx := lastSkey];
      kvMap := kvMap[lastSkey := KvState.Addr(kvMap, lastSkey).(kvIdx := kvIdx)];
      idxMap := idxMap[lastKvIdx - 1 := ZERO_WORD];
      lastKvIdx := lastKvIdx - 1;
      FitsAfterMove(storageManager.dataMap, lastKvIdx, kvIdx);
      storageManager.RemoveRaw(lastKvIdx, kvIdx);
      balance := balance - price.value;
      return price;
    }

    // -------------------------------------------------------------- get and verify

    method Get(sender: Word, key: Word, off: nat, len0: nat) returns (r: Option<seq<Byte>>)
      requires Valid()
      ensures r == KvReads.Get(cfg, Snapshot(), cfg.SKey(sender, key), off, len0)
    {
      hide KvReads.GetRaw;
      if len0 == 0 {
        return Some([]);
      }
      var paddr := KvState.Addr(kvMap, cfg.SKey(sender, key));
      if off >= paddr.kvSize {
        return Some([]);
      }
      if len0 + off >= TWO_256 {
        return None;
      }
      var len := len0;
      if len + off > paddr.kvSize {
        len := paddr.kvSize - off;
      }
      r := storageManager.GetRaw(paddr.hash, paddr.kvIdx, off, len);
    }

    method Verify(sender: Word, key: Word, data: seq<Byte>) returns (r: Option<bool>)
      requires Valid() && |data| < TWO_64
      ensures r == KvReads.VerifyValue(cfg, Snapshot(), cfg.SKey(sender, key), data)
    {
      hide MinRoot;
      var paddr := KvState.Addr(kvMap, cfg.SKey(sender, key));
      if paddr.hash == 0 {
        return None;
      }
      if paddr.kvSize != |data| {
        return Some(false);
      }
      var root := MerkleLib.MerkleRootWithMinTree(cfg.keccak, data, cfg.chunkSize);
      EmptyRoot(cfg.keccak, data, cfg.chunkSize);
      return Some(paddr.hash == KvState.Trunc24(root.value));
    }

    // -------------------------------------------------------------- mine

    /** The difficulties of shardLen shards and their sum. */
    method CalculateDiff(startShardId: nat, shardLen: nat, minedTs: nat) returns (r: Option<(seq<nat>, nat)>)
      ensures r == KvState.Difficulties(cfg, infos, startShardId, shardLen, minedTs)
    {
      hide ExpectedDiff;
      var diff: nat, diffs := 0, new nat[shardLen];
      var i: nat := 0;
      while i < shardLen
        invariant i <= shardLen && diffs.Length == shardLen
        invariant KvState.Difficulties(cfg, infos, startShardId, i, minedTs) == Some((diffs[..i], diff))
      {
        var shardId := startShardId + i;
        var info := KvState.InfoAt(infos, shardId);
        if shardId >= TWO_256 || minedTs < info.lastMineTime {
          DifficultiesFail(cfg, infos, startShardId, i + 1, shardLen, minedTs);
          return None;
        }
        var d := ExpectedDiff(info, minedTs, cfg.tuning);
        if !d.Diff? || diff + d.value >= TWO_256 {
          DifficultiesFail(cfg, infos, startShardId, i + 1, shardLen, minedTs);
          return None;
        }
        diffs[i] := d.value;
        diff := diff + d.value;
        i := i + 1;
        assert diffs[..i] == diffs[..i - 1] + [d.value];
      }
      assert diffs[..shardLen] == diffs[..];
      return Some((diffs[..], diff));
    }

    /** Pays every payable shard of the range up to minedTs and stamps its record. On a revert
        the records written so far are restored. */
    method RewardMiner(startShardId: nat, shardLen: nat, minedTs: nat, diffs: seq<nat>, hash0: Word)
      returns (r: Option<nat>)
      requires Valid() && shardLen <= |diffs|
      modifies this`infos
      ensures var spec := KvState.Rewarded(cfg, old(infos), KvState.LastMinableShard(cfg, lastKvIdx), startShardId,
                                           shardLen, diffs, minedTs, hash0);
              if spec.None? then r.None? && infos == old(infos)
              else r == Some(spec.value.0) && infos == spec.value.1
    {
      var totalReward: nat := 0;
      var last := KvState.LastMinableShard(cfg, lastKvIdx);
      var infosBefore := infos;
      var i: nat := 0;
      while i < shardLen
        invariant i <= shardLen
        invariant KvState.Rewarded(cfg, infosBefore, last, startShardId, i, diffs, minedTs, hash0)
               == Some((totalReward, infos))
      {
        var shardId := startShardId + i;
        if shardId <= last {
          var info := KvState.InfoAt(infos, shardId);
          var paid := PaymentIn(cfg.ShardCost(), info.lastMineTime, minedTs);
          if paid.None? {
            RewardedFail(cfg, infosBefore, last, startShardId, i + 1, shardLen, diffs, minedTs, hash0);
            infos := infosBefore;
            return None;
          }
          totalReward := totalReward + paid.value;
          infos := infos[shardId := Update(info, minedTs, diffs[i], hash0)];
        }
        i := i + 1;
      }
      return Some(totalReward);
    }

    /** mine: what the coinbase and the miner receive. The two parts make up the whole reward,
        and the balance falls by exactly that. */
    method Mine(startShardId: nat, shardLenBits: nat, minedTs: nat, proof: Option<Word>)
      returns (r: Option<(nat, nat)>)
      requires Valid()
      modifies this`infos, this`balance
      ensures Valid()
      ensures var t := KvState.Mine(cfg, old(Snapshot()), startShardId, shardLenBits, minedTs, proof);
              if t.None? then r.None? && Snapshot() == old(Snapshot())
              else r.Some? && Snapshot() == t.value && balance + r.value.0 + r.value.1 == old(balance)
                   && Floors(r.value.0, (r.value.0 + r.value.1) * cfg.coinbaseShare, 10000)
    {
      hide KvState.Rewarded, KvState.Difficulties;
      ghost var s := Snapshot();
      if minedTs > timestamp {
        return None;
      }
      var shardLen := OneShiftedBy(shardLenBits);
      var calculated := CalculateDiff(startShardId, shardLen, minedTs);
      if calculated.None? || proof.None? {
        return None;
      }
      var (diffs, diff) := calculated.value;
      if diff == 0 || proof.value > (TWO_256 - 1) / diff || KvState.LastMinableShard(cfg, lastKvIdx) >= KvState.UINT40 {
        return None;
      }
      KvState.DifficultiesLength(cfg, infos, startShardId, shardLen, minedTs);
      var infosBefore := infos;
      var totalReward := RewardMiner(startShardId, shardLen, minedTs, diffs, proof.value);
      if totalReward.None? {
        return None;
      }
      var coinbaseReward := KvState.CoinbaseReward(cfg, totalReward.value);
      if totalReward.value * cfg.coinbaseShare >= TWO_256 || coinbaseReward > totalReward.value
         || balance < totalReward.value
      {
        infos := infosBefore;
        return None;
      }
      var minerReward := totalReward.value - coinbaseReward;
      balance := balance - coinbaseReward;
      balance := balance - minerReward;
      FloorsDiv(totalReward.value * cfg.coinbaseShare, 10000);
      return Some((coinbaseReward, minerReward));
    }

    method SendValue(value: nat)
      modifies this`balance
      ensures Snapshot() == old(Snapshot()).(balance := old(balance) + value)
    {
      balance := balance + value;
    }

    /** The next block may carry any later timestamp. */
    method AdvanceTime(seconds: nat)
      modifies this`timestamp
      ensures Snapshot() == old(Snapshot()).(now := old(timestamp) + seconds)
    {
      timestamp := timestamp + seconds;
    }
  }

  /** The product of an interval payment does not fit in uint256. */
  ghost predicate ProductOverflows(cfg: KvState.Config, x: nat, fromTs: nat, toTs: nat) {
    cfg.startTime <= fromTs && cfg.startTime <= toTs
    && x * (BinaryRelated.Pow(cfg.dcfFactor, fromTs - cfg.startTime)
            - BinaryRelated.Pow(cfg.dcfFactor, toTs - cfg.startTime)) >= TWO_256
  }

  lemma StorageCostFits(cfg: KvState.Config)
    requires cfg.Valid()
    ensures cfg.storageCost < TWO_128
  {
    Arithmetic.MulMonotone(cfg.storageCost, 1, cfg.storageCost, cfg.Entries());
  }

  lemma {:induction false} DifficultiesFail(cfg: KvState.Config, infos: map<nat, MiningInfo>, start: nat, n: nat,
                                            m: nat, minedTs: nat)
    requires n <= m && KvState.Difficulties(cfg, infos, start, n, minedTs).None?
    ensures KvState.Difficulties(cfg, infos, start, m, minedTs).None?
  {
    if n < m { DifficultiesFail(cfg, infos, start, n, m - 1, minedTs); }
  }

  lemma {:induction false} RewardedFail(cfg: KvState.Config, infos: map<nat, MiningInfo>, last: nat, start: nat,
                                        n: nat, m: nat, diffs: seq<nat>, minedTs: nat, hash: Word)
    requires n <= m <= |diffs| && KvState.Rewarded(cfg, infos, last, start, n, diffs, minedTs, hash).None?
    ensures KvState.Rewarded(cfg, infos, last, start, m, diffs, minedTs, hash).None?
  {
    if n < m { RewardedFail(cfg, infos, last, start, n, m - 1, diffs, minedTs, hash); }
  }
}
