/** contracts/DKVDaggerHashimoto.sol: what was paid in covers the rent that can still be claimed. */
module Solvency {
  import opened Words
  import opened Arithmetic
  import opened BinaryRelated
  import opened MiningLib
  import opened Rent
  import opened KvState

  // ---------------------------------------------------------------- what is owed

  ghost function Elapsed(cfg: Config, ts: nat): nat {
    if ts < cfg.startTime then 0 else ts - cfg.startTime
  }

  /** The upfront price of one entry at ts. */
  ghost function Price(cfg: Config, ts: nat): nat {
    PaymentInf(cfg.dcfFactor, cfg.storageCost, Elapsed(cfg, ts))
  }

  /** All rent a shard can still earn when it was last mined at ts. */
  ghost function Owed(cfg: Config, ts: nat): nat {
    PaymentInf(cfg.dcfFactor, cfg.ShardCost(), Elapsed(cfg, ts))
  }

  /** All rent that the first n shards can still earn. */
  ghost function Liability(cfg: Config, infos: map<nat, MiningInfo>, n: nat): nat {
    if n == 0 then 0 else Liability(cfg, infos, n - 1) + Owed(cfg, InfoAt(infos, n - 1).lastMineTime)
  }

  ghost function PayableShards(cfg: Config, lastKvIdx: nat): nat {
    LastMinableShard(cfg, lastKvIdx) + 1
  }

  /** The balance beyond the rent of the payable shards and the refunds of the entries of the
      shard that is filling up. Negative would mean a shortfall. */
  ghost function Slack(cfg: Config, s: State): int {
    s.balance - Liability(cfg, s.infos, PayableShards(cfg, s.lastKvIdx))
    - s.lastKvIdx % cfg.Entries() * Price(cfg, s.now)
  }

  /** Payable shards carry a time between startTime and now (shards 0 and 1 carry startTime even
      before it), and nothing is stored before startTime. */
  ghost predicate LedgerOk(cfg: Config, s: State) {
    LastMinableShard(cfg, s.lastKvIdx) < UINT40
    && (s.lastKvIdx > 0 ==> cfg.startTime <= s.now)
    && forall shard: nat :: shard <= LastMinableShard(cfg, s.lastKvIdx) ==>
         MinedBetween(cfg, InfoAt(s.infos, shard), s.now)
  }

  ghost predicate MinedBetween(cfg: Config, info: MiningInfo, now: nat) {
    cfg.startTime <= info.lastMineTime && (info.lastMineTime <= now || info.lastMineTime == cfg.startTime)
  }

  lemma {:induction false} LiabilityAgrees(cfg: Config, a: map<nat, MiningInfo>, b: map<nat, MiningInfo>, n: nat)
    requires forall shard: nat :: shard < n ==> InfoAt(a, shard).lastMineTime == InfoAt(b, shard).lastMineTime
    ensures Liability(cfg, a, n) == Liability(cfg, b, n)
  {
    if n > 0 { LiabilityAgrees(cfg, a, b, n - 1); }
  }

  lemma {:induction false} LiabilityUpdate(cfg: Config, infos: map<nat, MiningInfo>, n: nat, shard: nat,
                                           info: MiningInfo)
    requires shard < n
    ensures Liability(cfg, infos[shard := info], n)
            == Liability(cfg, infos, n) - Owed(cfg, InfoAt(infos, shard).lastMineTime) + Owed(cfg, info.lastMineTime)
  {
    hide Owed;
    if shard < n - 1 {
      LiabilityUpdate(cfg, infos, n - 1, shard, info);
    } else {
      LiabilityAgrees(cfg, infos[shard := info], infos, n - 1);
    }
  }

  lemma OwedNonIncreasing(cfg: Config, t0: nat, t1: nat)
    requires cfg.Valid() && t0 <= t1
    ensures Owed(cfg, t1) <= Owed(cfg, t0) && Price(cfg, t1) <= Price(cfg, t0)
  {
    hide PaymentInf;
    PaymentNonIncreasing(cfg.dcfFactor, cfg.ShardCost(), Elapsed(cfg, t0), Elapsed(cfg, t1));
    PaymentNonIncreasing(cfg.dcfFactor, cfg.storageCost, Elapsed(cfg, t0), Elapsed(cfg, t1));
  }

  /** The part of a shard's rent that e separately rounded prices do not cover. */
  ghost function OpeningGap(cfg: Config, ts: nat): nat {
    cfg.Entries() * (cfg.storageCost * Pow(cfg.dcfFactor, Elapsed(cfg, ts)) % TWO_128) / TWO_128
  }

  /** The rent of a whole shard against the prices of its entries. */
  lemma ShardAgainstEntries(cfg: Config, ts: nat)
    ensures Owed(cfg, ts) == cfg.Entries() * Price(cfg, ts) + OpeningGap(cfg, ts)
    ensures OpeningGap(cfg, ts) <= cfg.Entries() - 1
  {
    hide PaymentInf, Pow;
    BulkPrice(cfg.dcfFactor, cfg.storageCost, cfg.Entries(), Elapsed(cfg, ts));
    assert cfg.ShardCost() == cfg.Entries() * cfg.storageCost;
  }

  // ---------------------------------------------------------------- shard arithmetic

  lemma NextIndex(n: nat, e: nat)
    requires e > 0
    ensures (n + 1) % e == 0 ==> (n + 1) / e == n / e + 1 && n % e == e - 1
    ensures (n + 1) % e != 0 ==> (n + 1) / e == n / e && (n + 1) % e == n % e + 1
  {
    var q, r := n / e, n % e;
    assert n == q * e + r;
    if r + 1 < e {
      QuotientIs(n + 1, e, q, r + 1);
    } else {
      assert (q + 1) * e == q * e + e;
      QuotientIs(n + 1, e, q + 1, 0);
    }
  }

  // ---------------------------------------------------------------- one put

  /** A put opens a shard when the entry it appends completes the one before. */
  ghost predicate Opens(cfg: Config, s: State, t: State) {
    t.lastKvIdx == s.lastKvIdx + 1 && t.lastKvIdx % cfg.Entries() == 0
  }

  ghost function OpeningLoss(cfg: Config, s: State, t: State): nat {
    if Opens(cfg, s, t) then OpeningGap(cfg, s.now) else 0
  }

  /** Preparing a put writes no record that is payable before it. */
  lemma PrepareKeepsPayable(cfg: Config, s: State)
    requires Prepare(cfg, s).Some?
    ensures forall shard: nat :: shard <= LastMinableShard(cfg, s.lastKvIdx) ==>
              InfoAt(Prepare(cfg, s).value, shard) == InfoAt(s.infos, shard)
    ensures (s.lastKvIdx + 1) % cfg.Entries() == 0 ==>
              LastMinableShard(cfg, s.lastKvIdx + 1) == LastMinableShard(cfg, s.lastKvIdx) + 1 < UINT40
              && InfoAt(Prepare(cfg, s).value, LastMinableShard(cfg, s.lastKvIdx) + 1).lastMineTime == s.now
              && s.lastKvIdx % cfg.Entries() == cfg.Entries() - 1
    ensures (s.lastKvIdx + 1) % cfg.Entries() != 0 ==>
              LastMinableShard(cfg, s.lastKvIdx + 1) == LastMinableShard(cfg, s.lastKvIdx)
              && (s.lastKvIdx + 1) % cfg.Entries() == s.lastKvIdx % cfg.Entries() + 1
  {
    NextIndex(s.lastKvIdx, cfg.Entries());
  }

  lemma PutKeepsLedger(cfg: Config, s: State, skey: Word, data: seq<Byte>, value: nat)
    requires cfg.Valid() && LedgerOk(cfg, s) && Put(cfg, s, skey, data, value).Some?
    ensures LedgerOk(cfg, Put(cfg, s, skey, data, value).value)
  {
    hide Commitment, Prepare, PaymentInf;
    PrepareKeepsPayable(cfg, s);
  }

  lemma PutSlack(cfg: Config, s: State, skey: Word, data: seq<Byte>, value: nat)
    requires cfg.Valid() && Put(cfg, s, skey, data, value).Some?
    ensures var t := Put(cfg, s, skey, data, value).value;
            Slack(cfg, t) == Slack(cfg, s) + value
                             - (if Live(s, skey) then 0 else Price(cfg, s.now) + OpeningLoss(cfg, s, t))
    ensures Slack(cfg, Put(cfg, s, skey, data, value).value)
            >= Slack(cfg, s) - OpeningLoss(cfg, s, Put(cfg, s, skey, data, value).value)
  {
    hide Commitment, Prepare, PaymentInf, Liability, OpeningGap;
    PrepareKeepsPayable(cfg, s);
    var infos, n := Prepare(cfg, s).value, PayableShards(cfg, s.lastKvIdx);
    LiabilityAgrees(cfg, infos, s.infos, n);
    if !Live(s, skey) {
      AppendSlack(cfg, s, Put(cfg, s, skey, data, value).value, value);
    }
  }

  /** An appending put raises the surplus by what it pays above the price, and an opening one
      lowers it by the gap. */
  lemma AppendSlack(cfg: Config, s: State, t: State, value: nat)
    requires cfg.Valid() && Prepare(cfg, s).Some? && t.infos == Prepare(cfg, s).value
    requires t.lastKvIdx == s.lastKvIdx + 1 && t.now == s.now && t.balance == s.balance + value
    ensures Slack(cfg, t) == Slack(cfg, s) + (value - Price(cfg, s.now)) - OpeningLoss(cfg, s, t)
  {
    hide Prepare, PaymentInf, LastMinableShard, OpeningGap;
    PrepareKeepsPayable(cfg, s);
    var e, p, r := cfg.Entries(), Price(cfg, s.now), s.lastKvIdx % cfg.Entries();
    var n := PayableShards(cfg, s.lastKvIdx);
    LiabilityAgrees(cfg, t.infos, s.infos, n);
    if Opens(cfg, s, t) {
      ShardAgainstEntries(cfg, s.now);
      assert Liability(cfg, t.infos, n + 1) == Liability(cfg, t.infos, n) + Owed(cfg, s.now);
      OneMore(e - 1, p);
    } else {
      OneMore(r, p);
    }
  }

  // ---------------------------------------------------------------- one removal

  lemma RemoveKeepsLedger(cfg: Config, s: State, skey: Word)
    requires cfg.Valid() && LedgerOk(cfg, s) && RemoveTo(cfg, s, skey).Some?
    ensures LedgerOk(cfg, RemoveTo(cfg, s, skey).value)
  {
    hide PaymentInf, Relinked;
    NextIndex(s.lastKvIdx - 1, cfg.Entries());
  }

  /** What a removal frees: when it empties a shard again, the shard after it stops being payable,
      and its claim is worth at least e refunds; otherwise nothing. */
  ghost function Released(cfg: Config, s: State): int {
    if s.lastKvIdx % cfg.Entries() != 0 then 0
    else Owed(cfg, InfoAt(s.infos, LastMinableShard(cfg, s.lastKvIdx)).lastMineTime) - cfg.Entries() * Price(cfg, s.now)
  }

  /** A removal takes out of the balance what it takes out of the promises, and frees the rest of
      the claim of a shard that it makes unpayable. */
  lemma RemoveSlack(cfg: Config, s: State, skey: Word)
    requires cfg.Valid() && LedgerOk(cfg, s) && RemoveTo(cfg, s, skey).Some?
    ensures Slack(cfg, RemoveTo(cfg, s, skey).value) == Slack(cfg, s) + Released(cfg, s)
    ensures Released(cfg, s) >= 0
  {
    hide PaymentInf, Relinked, MinedBetween, Released;
    ReleasedIsNonNegative(cfg, s);
    RemovalSlack(cfg, s, RemoveTo(cfg, s, skey).value);
  }

  lemma RemovalSlack(cfg: Config, s: State, t: State)
    requires cfg.Valid() && LedgerOk(cfg, s) && s.lastKvIdx > 0
    requires t.infos == s.infos && t.lastKvIdx == s.lastKvIdx - 1 && t.now == s.now
    requires t.balance == s.balance - Price(cfg, s.now)
    ensures Slack(cfg, t) == Slack(cfg, s) + Released(cfg, s)
  {
    hide PaymentInf;
    var e, p := cfg.Entries(), Price(cfg, s.now);
    NextIndex(t.lastKvIdx, e);
    if s.lastKvIdx % e == 0 {
      OneMore(e - 1, p);
    } else {
      OneMore(t.lastKvIdx % e, p);
    }
  }

  /** The last payable shard, when it holds no entry yet, is owed at least e refunds. */
  lemma LostShardCovers(cfg: Config, s: State)
    requires cfg.Valid() && LedgerOk(cfg, s) && s.lastKvIdx > 0
    ensures cfg.Entries() * Price(cfg, s.now)
            <= Owed(cfg, InfoAt(s.infos, LastMinableShard(cfg, s.lastKvIdx)).lastMineTime)
  {
    hide PaymentInf;
    OwedNonIncreasing(cfg, InfoAt(s.infos, LastMinableShard(cfg, s.lastKvIdx)).lastMineTime, s.now);
    ShardAgainstEntries(cfg, s.now);
  }

  lemma ReleasedIsNonNegative(cfg: Config, s: State)
    requires cfg.Valid() && LedgerOk(cfg, s)
    ensures s.lastKvIdx > 0 ==> Released(cfg, s) >= 0
  {
    hide PaymentInf, LedgerOk;
    if s.lastKvIdx > 0 { LostShardCovers(cfg, s); }
  }

  // ---------------------------------------------------------------- one mining transaction

  /** Mining a shard pays out the claim it extinguishes, or one wei less. */
  lemma ShardReward(cfg: Config, from: nat, to: nat)
    requires cfg.Valid() && cfg.startTime <= from <= to
    ensures PaymentIn(cfg, cfg.ShardCost(), from, to).Some?
    ensures PaymentIn(cfg, cfg.ShardCost(), from, to).value + Owed(cfg, to) <= Owed(cfg, from)
    ensures Owed(cfg, from) <= PaymentIn(cfg, cfg.ShardCost(), from, to).value + Owed(cfg, to) + 1
  {
    hide PaymentInf, PaymentInInterval;
    IntervalLeavesRest(cfg.dcfFactor, cfg.ShardCost(), from - cfg.startTime, to - cfg.startTime);
  }

  /** How many of the n shards from start on are payable. */
  ghost function PayableIn(last: nat, start: nat, n: nat): (k: nat)
    ensures k <= n
  {
    if start > last then 0 else if start + n - 1 <= last then n else last + 1 - start
  }

  /** After n shards: the reward so far and the remaining claims make up the original ones, less
      at most one wei for each payable shard of the range; records from start + n on are untouched,
      and the payable ones still carry valid times. */
  lemma {:induction false} RewardWithinClaims(cfg: Config, infos: map<nat, MiningInfo>, last: nat, start: nat, n: nat,
                                              diffs: seq<nat>, minedTs: nat, hash: Word, now: nat)
    requires cfg.Valid() && n <= |diffs| && minedTs <= now
    requires forall shard: nat :: shard <= last ==> MinedBetween(cfg, InfoAt(infos, shard), now)
    requires forall shard: nat :: start <= shard < start + n ==> InfoAt(infos, shard).lastMineTime <= minedTs
    ensures var r := Rewarded(cfg, infos, last, start, n, diffs, minedTs, hash);
            r.Some?
            && r.value.0 + Liability(cfg, r.value.1, last + 1) <= Liability(cfg, infos, last + 1)
            && Liability(cfg, infos, last + 1)
               <= r.value.0 + Liability(cfg, r.value.1, last + 1) + PayableIn(last, start, n)
            && (forall shard: nat :: shard >= start + n ==> InfoAt(r.value.1, shard) == InfoAt(infos, shard))
            && (forall shard: nat :: shard <= last ==> MinedBetween(cfg, InfoAt(r.value.1, shard), now))
  {
    hide PaymentIn, Owed, Liability;
    if n > 0 {
      RewardWithinClaims(cfg, infos, last, start, n - 1, diffs, minedTs, hash, now);
      var shard := start + n - 1;
      if shard <= last {
        var before := Rewarded(cfg, infos, last, start, n - 1, diffs, minedTs, hash).value.1;
        var info := InfoAt(before, shard);
        var updated := Update(info, minedTs, diffs[n - 1], hash);
        ShardReward(cfg, info.lastMineTime, minedTs);
        LiabilityUpdate(cfg, before, last + 1, shard, updated);
        var after := before[shard := updated];
        forall k: nat | k <= last ensures MinedBetween(cfg, InfoAt(after, k), now) {
          assert MinedBetween(cfg, InfoAt(before, k), now);
        }
      }
    }
  }

  lemma MineWithinClaims(cfg: Config, s: State, start: nat, bits: nat, minedTs: nat, proof: Option<Word>)
    requires cfg.Valid() && LedgerOk(cfg, s) && MineReward(cfg, s, start, bits, minedTs, proof).Some?
    ensures var r := MineReward(cfg, s, start, bits, minedTs, proof).value;
            var n := PayableShards(cfg, s.lastKvIdx);
            r.0 + Liability(cfg, r.1, n) <= Liability(cfg, s.infos, n)
            && Liability(cfg, s.infos, n)
               <= r.0 + Liability(cfg, r.1, n)
                  + PayableIn(LastMinableShard(cfg, s.lastKvIdx), start, OneShiftedBy(bits))
            && forall shard: nat :: shard < n ==> MinedBetween(cfg, InfoAt(r.1, shard), s.now)
  {
    hide Difficulties, Rewarded, Liability, PayableIn;
    var k := OneShiftedBy(bits);
    var diffs := Difficulties(cfg, s.infos, start, k, minedTs);
    DifficultiesLength(cfg, s.infos, start, k, minedTs);
    RewardWithinClaims(cfg, s.infos, LastMinableShard(cfg, s.lastKvIdx), start, k, diffs.value.0, minedTs,
                       proof.value, s.now);
  }

  lemma MineSlack(cfg: Config, s: State, start: nat, bits: nat, minedTs: nat, proof: Option<Word>)
    requires cfg.Valid() && LedgerOk(cfg, s) && Mine(cfg, s, start, bits, minedTs, proof).Some?
    ensures var t := Mine(cfg, s, start, bits, minedTs, proof).value;
            LedgerOk(cfg, t)
            && Slack(cfg, s) <= Slack(cfg, t)
            && Slack(cfg, t) <= Slack(cfg, s) + PayableIn(LastMinableShard(cfg, s.lastKvIdx), start, OneShiftedBy(bits))
  {
    hide MineReward, Liability, MinedBetween, Price, PayableIn;
    MineWithinClaims(cfg, s, start, bits, minedTs, proof);
  }

  // ---------------------------------------------------------------- every step, every run

  lemma TickSlack(cfg: Config, s: State, seconds: nat)
    requires cfg.Valid() && LedgerOk(cfg, s)
    ensures var t := s.(now := s.now + seconds);
            LedgerOk(cfg, t) && Slack(cfg, t) >= Slack(cfg, s)
  {
    hide Price, Liability;
    OwedNonIncreasing(cfg, s.now, s.now + seconds);
    var stored := s.lastKvIdx % cfg.Entries();
    MulMonotone(stored, Price(cfg, s.now + seconds), stored, Price(cfg, s.now));
  }

  /** What every step keeps, and the most it can lose: the gap of the moment when it opens a shard. */
  lemma StepSlack(cfg: Config, s: State, step: Step)
    requires cfg.Valid() && LedgerOk(cfg, s)
    ensures LedgerOk(cfg, Apply(cfg, s, step))
    ensures Slack(cfg, Apply(cfg, s, step)) >= Slack(cfg, s) - OpeningLoss(cfg, s, Apply(cfg, s, step))
  {
    hide LedgerOk, Slack, OpeningLoss, Put, RemoveTo, Mine, Price, Released, PayableIn, Live;
    var r := Try(cfg, s, step);
    if r.None? {
      OpeningLossOfNothing(cfg, s);
    } else {
      match step
      case PutTx(sender, key, data, value) =>
        PutKeepsLedger(cfg, s, cfg.SKey(sender, key), data, value);
        PutSlack(cfg, s, cfg.SKey(sender, key), data, value);
      case RemoveTx(sender, key) =>
        RemoveKeepsLedger(cfg, s, cfg.SKey(sender, key));
        RemoveSlack(cfg, s, cfg.SKey(sender, key));
      case MineTx(start, bits, minedTs, proof) =>
        MineSlack(cfg, s, start, bits, minedTs, proof);
      case SendTx(value) =>
        SendSlack(cfg, s, value);
      case Tick(seconds) =>
        TickSlack(cfg, s, seconds);
    }
  }

  lemma OpeningLossOfNothing(cfg: Config, s: State)
    ensures OpeningLoss(cfg, s, s) == 0
  {
  }

  lemma SendSlack(cfg: Config, s: State, value: nat)
    requires LedgerOk(cfg, s)
    ensures var t := s.(balance := s.balance + value);
            LedgerOk(cfg, t) && Slack(cfg, t) >= Slack(cfg, s)
  {
    hide Liability, Price;
  }

  /** How many times a run opened a shard. */
  ghost function Openings(cfg: Config, s: State, steps: seq<Step>): nat
    requires cfg.chunkSize > 0
  {
    if |steps| == 0 then 0
    else
      var before := Run(cfg, s, steps[..|steps| - 1]);
      Openings(cfg, s, steps[..|steps| - 1])
      + (if Opens(cfg, before, Apply(cfg, before, steps[|steps| - 1])) then 1 else 0)
  }

  /** What the rounding of the prices costs over a run: the gaps at its openings. */
  ghost function Gaps(cfg: Config, s: State, steps: seq<Step>): nat
    requires cfg.chunkSize > 0
  {
    if |steps| == 0 then 0
    else
      var before := Run(cfg, s, steps[..|steps| - 1]);
      Gaps(cfg, s, steps[..|steps| - 1]) + OpeningLoss(cfg, before, Apply(cfg, before, steps[|steps| - 1]))
  }

  lemma LossBound(cfg: Config, s: State, t: State)
    ensures OpeningLoss(cfg, s, t) <= if Opens(cfg, s, t) then cfg.Entries() - 1 else 0
  {
    hide OpeningGap;
    ShardAgainstEntries(cfg, s.now);
  }

  /** Less than one wei for each entry of an opened shard. */
  lemma {:induction false} GapsBound(cfg: Config, s: State, steps: seq<Step>)
    requires cfg.chunkSize > 0
    ensures Gaps(cfg, s, steps) <= (cfg.Entries() - 1) * Openings(cfg, s, steps)
    decreases |steps|
  {
    hide Apply, Run, OpeningLoss, Opens, Pow2;
    if |steps| > 0 {
      var init := steps[..|steps| - 1];
      GapsBound(cfg, s, init);
      LossBound(cfg, Run(cfg, s, init), Apply(cfg, Run(cfg, s, init), steps[|steps| - 1]));
      OneMore(Openings(cfg, s, init), cfg.Entries() - 1);
    }
  }

  lemma DeployedLedger(cfg: Config, genesis: Word, value: nat, now: nat)
    requires cfg.Valid()
    ensures LedgerOk(cfg, Deployed(cfg, genesis, value, now))
    ensures Slack(cfg, Deployed(cfg, genesis, value, now)) == value - 2 * cfg.ShardCost()
  {
    var s := Deployed(cfg, genesis, value, now);
    assert LastMinableShard(cfg, 0) == 1;
    PaymentAtStart(cfg.dcfFactor, cfg.ShardCost());
    assert Liability(cfg, s.infos, 2) == Liability(cfg, s.infos, 1) + Owed(cfg, cfg.startTime);
    assert Liability(cfg, s.infos, 1) == Liability(cfg, s.infos, 0) + Owed(cfg, cfg.startTime);
  }

  /** Solvency of every run, from deployment on: the balance and the gaps of the opened shards
      cover all rent that the payable shards can still claim and the refunds of the entries in
      the shard that is filling up. */
  lemma {:induction false} RunSolvent(cfg: Config, genesis: Word, value: nat, now: nat, steps: seq<Step>)
    requires cfg.Valid()
    ensures var s := Deployed(cfg, genesis, value, now);
            LedgerOk(cfg, Run(cfg, s, steps))
            && Slack(cfg, Run(cfg, s, steps)) >= value - 2 * cfg.ShardCost() - Gaps(cfg, s, steps)
    decreases |steps|
  {
    hide LedgerOk, Slack, Apply, Deployed, OpeningLoss;
    var s := Deployed(cfg, genesis, value, now);
    if |steps| == 0 {
      DeployedLedger(cfg, genesis, value, now);
    } else {
      var init, step := steps[..|steps| - 1], steps[|steps| - 1];
      RunSolvent(cfg, genesis, value, now, init);
      StepSlack(cfg, Run(cfg, s, init), step);
    }
  }
}
