/** contracts/DecentralizedKV.sol and contracts/DKVDaggerHashimoto.sol: the storage of the
    contract as a value, and each transaction as a function on it. None is a revert. */
module KvState {
  import opened Words
  import opened MerkleTree
  import opened MiningLib
  import opened Rent

  /** Where an entry lives: uint40 index, uint24 size, bytes24 commitment (as a number). */
  datatype PhyAddr = PhyAddr(kvIdx: nat, kvSize: nat, hash: nat)

  const NO_ADDR := PhyAddr(0, 0, 0)

  const UINT40: nat := 0x100_0000_0000
  const UINT24: nat := 0x100_0000

  datatype Config = Config(keccak: Keccak, startTime: nat, storageCost: nat, dcfFactor: nat, maxKvSize: nat,
                           chunkSize: nat, shardEntryBits: nat, coinbaseShare: nat, tuning: Tuning)
  {
    /** What a deployment needs for its own arithmetic: otherwise every later price (dcfFactor),
        the very first price (storageCost) or every put (the others) reverts. */
    ghost predicate Valid() {
      dcfFactor < TWO_128 && storageCost * Pow2(shardEntryBits) < TWO_128 && shardEntryBits < 256
      && 0 < chunkSize <= TWO_256 / 2
    }

    function Entries(): nat { Pow2(shardEntryBits) }

    /** storageCost << shardEntryBits: the principal of a whole shard. */
    function ShardCost(): nat { storageCost * Entries() }

    function SKey(sender: Word, key: Word): Word { keccak(Pair(sender, key)) }
  }

  /** kvMap, idxMap, lastKvIdx and infos of the contract, its balance, dataMap of the storage
      manager it writes through, and the block timestamp. */
  datatype State = State(kvMap: map<Word, PhyAddr>, idxMap: map<nat, Word>, dataMap: map<nat, seq<Byte>>,
                         lastKvIdx: nat, infos: map<nat, MiningInfo>, balance: nat, now: nat)

  /** Reading a Solidity mapping: unwritten slots hold zero. */
  function Slot<K, V>(m: map<K, V>, k: K, zero: V): V {
    if k in m then m[k] else zero
  }

  function Addr(kvMap: map<Word, PhyAddr>, skey: Word): PhyAddr { Slot(kvMap, skey, NO_ADDR) }

  function KeyAt(idxMap: map<nat, Word>, i: nat): Word { Slot(idxMap, i, ZERO_WORD) }

  function DataAt(dataMap: map<nat, seq<Byte>>, i: nat): seq<Byte> { Slot(dataMap, i, []) }

  function InfoAt(infos: map<nat, MiningInfo>, shard: nat): MiningInfo { Slot(infos, shard, NEVER_MINED) }

  function Live(s: State, skey: Word): bool { Addr(s.kvMap, skey).hash != 0 }

  /** bytes24(root): the top 24 of 32 bytes. */
  function Trunc24(root: Word): nat { root / TWO_64 }

  ghost function Commitment(cfg: Config, data: seq<Byte>): nat
    requires cfg.chunkSize > 0
  {
    Trunc24(MinRoot(cfg.keccak, data, cfg.chunkSize))
  }

  // ---------------------------------------------------------------- deployment

  function Deployed(cfg: Config, genesisHash: Word, value: nat, now: nat): State {
    var first := MiningInfo(genesisHash, cfg.startTime, 0, 0);
    State(map[], map[], map[], 0, map[0 := first, 1 := first], value, now)
  }

  // ---------------------------------------------------------------- prices

  /** upfrontPayment: the subtraction reverts before startTime. */
  function Upfront(cfg: Config, ts: nat): Option<nat> {
    if ts < cfg.startTime then None
    else Some(PaymentInf(cfg.dcfFactor, cfg.storageCost, ts - cfg.startTime))
  }

  function PaymentIn(cfg: Config, x: nat, fromTs: nat, toTs: nat): Option<nat> {
    if fromTs < cfg.startTime || toTs < cfg.startTime then None
    else PaymentInInterval(cfg.dcfFactor, x, fromTs - cfg.startTime, toTs - cfg.startTime)
  }

  function LastMinableShard(cfg: Config, lastKvIdx: nat): nat { lastKvIdx / cfg.Entries() + 1 }

  // ---------------------------------------------------------------- put

  /** _preparePutWithTimestamp: before every put, appending or not. Both additions on uint40
      are checked. */
  function Prepare(cfg: Config, s: State): Option<map<nat, MiningInfo>> {
    if s.lastKvIdx + 1 >= UINT40 then None
    else if (s.lastKvIdx + 1) % cfg.Entries() != 0 then Some(s.infos)
    else
      var next := (s.lastKvIdx + 1) / cfg.Entries() + 1;
      if next >= UINT40 then None
      else Some(s.infos[next := InfoAt(s.infos, next).(lastMineTime := s.now,
                                                        miningHash := InfoAt(s.infos, next - 1).miningHash)])
  }

  ghost function Put(cfg: Config, s: State, skey: Word, data: seq<Byte>, value: nat): Option<State>
    requires cfg.chunkSize > 0
  {
    var infos := Prepare(cfg, s);
    var price := Upfront(cfg, s.now);
    if |data| > cfg.maxKvSize || infos.None? then None
    else if Live(s, skey) then
      Some(Stored(cfg, s.(infos := infos.value), skey, Addr(s.kvMap, skey).kvIdx, data, value))
    else if price.None? || value < price.value then None
    else
      Some(Stored(cfg, s.(infos := infos.value, idxMap := s.idxMap[s.lastKvIdx := skey], lastKvIdx := s.lastKvIdx + 1),
                  skey, s.lastKvIdx, data, value))
  }

  /** The common tail of put: record size and commitment, hand the data to the storage manager. */
  ghost function Stored(cfg: Config, s: State, skey: Word, kvIdx: nat, data: seq<Byte>, value: nat): State
    requires cfg.chunkSize > 0
  {
    s.(kvMap := s.kvMap[skey := PhyAddr(kvIdx, |data| % UINT24, Commitment(cfg, data))],
       dataMap := s.dataMap[kvIdx := data],
       balance := s.balance + value)
  }

  // ---------------------------------------------------------------- removeTo

  /** kvMap after the entry is cleared and the last entry is told its new index. */
  function Relinked(kvMap: map<Word, PhyAddr>, skey: Word, lastSkey: Word): map<Word, PhyAddr> {
    var cleared := kvMap[skey := NO_ADDR];
    cleared[lastSkey := Addr(cleared, lastSkey).(kvIdx := Addr(kvMap, skey).kvIdx)]
  }

  function RemoveTo(cfg: Config, s: State, skey: Word): Option<State> {
    var price := Upfront(cfg, s.now);
    if !Live(s, skey) || s.lastKvIdx == 0 || price.None? || s.balance < price.value then None
    else
      var last := s.lastKvIdx - 1;
      var kvIdx, lastSkey := Addr(s.kvMap, skey).kvIdx, KeyAt(s.idxMap, last);
      Some(s.(kvMap := Relinked(s.kvMap, skey, lastSkey),
              idxMap := s.idxMap[kvIdx := lastSkey][last := ZERO_WORD],
              dataMap := s.dataMap[kvIdx := DataAt(s.dataMap, last)][last := []],
              lastKvIdx := last,
              balance := s.balance - price.value))
  }

  // ---------------------------------------------------------------- mine

  /** _calculateDiffAndInitHash over the first n shards: their difficulties and the sum. */
  function Difficulties(cfg: Config, infos: map<nat, MiningInfo>, start: nat, n: nat, minedTs: nat)
    : Option<(seq<nat>, nat)>
  {
    if n == 0 then Some(([], 0))
    else
      var before := Difficulties(cfg, infos, start, n - 1, minedTs);
      var shard := start + n - 1;
      if before.None? || shard >= TWO_256 || minedTs < InfoAt(infos, shard).lastMineTime then None
      else
        var d := ExpectedDiff(InfoAt(infos, shard), minedTs, cfg.tuning);
        if !d.Diff? || before.value.1 + d.value >= TWO_256 then None
        else Some((before.value.0 + [d.value], before.value.1 + d.value))
  }

  /** The loop of _rewardMiner over the first n shards: the reward and the updated records. */
  function Rewarded(cfg: Config, infos: map<nat, MiningInfo>, last: nat, start: nat, n: nat, diffs: seq<nat>,
                    minedTs: nat, hash: Word): Option<(nat, map<nat, MiningInfo>)>
    requires n <= |diffs|
  {
    if n == 0 then Some((0, infos))
    else
      var before := Rewarded(cfg, infos, last, start, n - 1, diffs, minedTs, hash);
      var shard := start + n - 1;
      if before.None? || shard > last then before
      else
        var info := InfoAt(before.value.1, shard);
        var paid := PaymentIn(cfg, cfg.ShardCost(), info.lastMineTime, minedTs);
        if paid.None? then None
        else Some((before.value.0 + paid.value,
                   before.value.1[shard := Update(info, minedTs, diffs[n - 1], hash)]))
  }

  lemma {:induction false} DifficultiesLength(cfg: Config, infos: map<nat, MiningInfo>, start: nat, n: nat,
                                              minedTs: nat)
    requires Difficulties(cfg, infos, start, n, minedTs).Some?
    ensures |Difficulties(cfg, infos, start, n, minedTs).value.0| == n
    ensures forall shard :: start <= shard < start + n ==> InfoAt(infos, shard).lastMineTime <= minedTs
  {
    if n > 0 { DifficultiesLength(cfg, infos, start, n - 1, minedTs); }
  }

  /** The reward a miner earns and the records it leaves. proof is the Hashimoto digest of the
      submitted data, or None when the data does not check out against the commitments. */
  function MineReward(cfg: Config, s: State, start: nat, shardLenBits: nat, minedTs: nat, proof: Option<Word>)
    : Option<(nat, map<nat, MiningInfo>)>
  {
    var diffs := Difficulties(cfg, s.infos, start, OneShiftedBy(shardLenBits), minedTs);
    if minedTs > s.now || diffs.None? || proof.None? then None
    else if diffs.value.1 == 0 || proof.value > (TWO_256 - 1) / diffs.value.1 then None
    else if LastMinableShard(cfg, s.lastKvIdx) >= UINT40 then None
    else
      DifficultiesLength(cfg, s.infos, start, OneShiftedBy(shardLenBits), minedTs);
      Rewarded(cfg, s.infos, LastMinableShard(cfg, s.lastKvIdx), start, OneShiftedBy(shardLenBits),
               diffs.value.0, minedTs, proof.value)
  }

  function CoinbaseReward(cfg: Config, reward: nat): nat { reward * cfg.coinbaseShare / 10000 }

  function Mine(cfg: Config, s: State, start: nat, shardLenBits: nat, minedTs: nat, proof: Option<Word>)
    : Option<State>
  {
    var r := MineReward(cfg, s, start, shardLenBits, minedTs, proof);
    if r.None? || r.value.0 * cfg.coinbaseShare >= TWO_256 || CoinbaseReward(cfg, r.value.0) > r.value.0
       || s.balance < r.value.0 then None
    else Some(s.(infos := r.value.1, balance := s.balance - r.value.0))
  }

  // ---------------------------------------------------------------- runs

  datatype Step =
    | PutTx(sender: Word, key: Word, data: seq<Byte>, value: nat)
    | RemoveTx(sender: Word, key: Word)
    | MineTx(startShard: nat, shardLenBits: nat, minedTs: nat, proof: Option<Word>)
    | SendTx(value: nat)
    | Tick(seconds: nat)

  ghost function Try(cfg: Config, s: State, step: Step): Option<State>
    requires cfg.chunkSize > 0
  {
    match step
    case PutTx(sender, key, data, value) => Put(cfg, s, cfg.SKey(sender, key), data, value)
    case RemoveTx(sender, key) => RemoveTo(cfg, s, cfg.SKey(sender, key))
    case MineTx(start, bits, minedTs, proof) => Mine(cfg, s, start, bits, minedTs, proof)
    case SendTx(value) => Some(s.(balance := s.balance + value))
    case Tick(seconds) => Some(s.(now := s.now + seconds))
  }

  /** A reverted transaction leaves everything as it was. */
  ghost function Apply(cfg: Config, s: State, step: Step): State
    requires cfg.chunkSize > 0
  {
    var t := Try(cfg, s, step);
    if t.Some? then t.value else s
  }

  ghost function Run(cfg: Config, s: State, steps: seq<Step>): State
    requires cfg.chunkSize > 0
  {
    if |steps| == 0 then s
    else Apply(cfg, Run(cfg, s, steps[..|steps| - 1]), steps[|steps| - 1])
  }
}
