/** What the ledger invariant means for the callers of contracts/DKVDaggerHashimoto.sol. */
module LedgerResults {
  import opened Words
  import opened Arithmetic
  import opened MiningLib
  import opened Rent
  import opened KvState
  import opened Solvency
  import opened Transactions
  import opened KvStore
  import opened KvReads

  // ---------------------------------------------------------------- funds suffice

  /** A deployment that also deposits the gaps of the shards a run opens never falls short; e - 1
      wei for each of them is always enough. */
  lemma PrefundedRun(cfg: Config, genesis: Word, value: nat, now: nat, steps: seq<Step>)
    requires cfg.Valid()
    requires var s := Deployed(cfg, genesis, value, now);
             value >= 2 * cfg.ShardCost() + Gaps(cfg, s, steps)
             || value >= 2 * cfg.ShardCost() + (cfg.Entries() - 1) * Openings(cfg, s, steps)
    ensures Slack(cfg, Run(cfg, Deployed(cfg, genesis, value, now), steps)) >= 0
  {
    hide Slack, LedgerOk, Run, Openings, Gaps, Deployed;
    RunSolvent(cfg, genesis, value, now, steps);
    GapsBound(cfg, Deployed(cfg, genesis, value, now), steps);
  }

  /** Without a shortfall a removal succeeds exactly for the owner of a stored entry. */
  lemma RemovalIsFunded(cfg: Config, s: State, skey: Word)
    requires cfg.Valid() && LedgerOk(cfg, s) && Slack(cfg, s) >= 0
    ensures RemoveTo(cfg, s, skey).Some? <==> Live(s, skey) && s.lastKvIdx > 0
  {
    hide PaymentInf, Relinked, MinedBetween;
    if s.lastKvIdx > 0 {
      RefundIsPromised(cfg, s);
    }
  }

  lemma RefundIsPromised(cfg: Config, s: State)
    requires cfg.Valid() && LedgerOk(cfg, s) && s.lastKvIdx > 0
    ensures Price(cfg, s.now) <= s.balance - Slack(cfg, s)
  {
    hide PaymentInf, MinedBetween;
    var e, p, n := cfg.Entries(), Price(cfg, s.now), PayableShards(cfg, s.lastKvIdx);
    if s.lastKvIdx % e == 0 {
      LostShardCovers(cfg, s);
      OneMore(e - 1, p);
    } else {
      OneMore(s.lastKvIdx % e - 1, p);
    }
  }

  lemma {:induction false} LiabilityBound(cfg: Config, infos: map<nat, MiningInfo>, n: nat)
    requires cfg.Valid()
    ensures Liability(cfg, infos, n) <= n * TWO_128
  {
    hide PaymentInf;
    if n > 0 {
      LiabilityBound(cfg, infos, n - 1);
      PaymentFits(cfg.dcfFactor, cfg.ShardCost(), Elapsed(cfg, InfoAt(infos, n - 1).lastMineTime));
      OneMore(n - 1, TWO_128);
    }
  }

  lemma RewardSplits(reward: nat, share: nat, bound: nat)
    requires reward <= bound * TWO_128 && bound <= UINT40 && share <= 10000
    ensures reward * share < TWO_256 && reward * share / 10000 <= reward
  {
    assert reward <= UINT40 * TWO_128;
    MulMonotone(reward, share, UINT40 * TWO_128, 10000);
    MulMonotone(reward, share, reward, 10000);
  }

  /** Without a shortfall every accepted proof is paid: no product overflows and the balance
      covers both transfers. */
  lemma MiningIsFunded(cfg: Config, s: State, start: nat, bits: nat, minedTs: nat, proof: Option<Word>)
    requires cfg.Valid() && cfg.coinbaseShare <= 10000 && LedgerOk(cfg, s) && Slack(cfg, s) >= 0
    ensures Mine(cfg, s, start, bits, minedTs, proof).Some?
            <==> MineReward(cfg, s, start, bits, minedTs, proof).Some?
  {
    hide MineReward, Liability, MinedBetween, Price;
    if MineReward(cfg, s, start, bits, minedTs, proof).Some? {
      var r, n := MineReward(cfg, s, start, bits, minedTs, proof).value.0, PayableShards(cfg, s.lastKvIdx);
      MineWithinClaims(cfg, s, start, bits, minedTs, proof);
      LiabilityBound(cfg, s.infos, n);
      RewardSplits(r, cfg.coinbaseShare, n);
    }
  }

  /** From deployment on: as long as the deposit covers the gaps of the opened shards, a
      removal goes through exactly for the keys a plain map would hold, whatever was put,
      replaced, removed and mined before. */
  lemma StoredEntriesAreRefundable(cfg: Config, genesis: Word, value: nat, now: nat, steps: seq<Step>, skey: Word)
    requires cfg.Valid() && forall i :: 0 <= i < |steps| ==> Representable(cfg, steps[i])
    requires var s := Deployed(cfg, genesis, value, now);
             value >= 2 * cfg.ShardCost() + Gaps(cfg, s, steps)
    ensures var s := Deployed(cfg, genesis, value, now);
            RemoveTo(cfg, Run(cfg, s, steps), skey).Some? <==> skey in PlainRun(cfg, s, steps)
  {
    hide Slack, LedgerOk, Run, PlainRun, Gaps, Deployed, RemoveTo, DataOk;
    var t := Run(cfg, Deployed(cfg, genesis, value, now), steps);
    RunSolvent(cfg, genesis, value, now, steps);
    RunRefines(cfg, genesis, value, now, steps);
    RemovalIsFunded(cfg, t, skey);
    ViewKeys(t);
    assert Live(t, skey) ==> KeyOk(t, skey);
  }

  // ---------------------------------------------------------------- the life of a shard

  /** A shard becomes payable only by the put that appends its predecessor's last entry, and
      that put has just stamped its record with the current time. */
  lemma PayableOnlyByOpening(cfg: Config, s: State, step: Step)
    requires cfg.Valid()
    requires LastMinableShard(cfg, Apply(cfg, s, step).lastKvIdx) > LastMinableShard(cfg, s.lastKvIdx)
    ensures step.PutTx? && !Live(s, cfg.SKey(step.sender, step.key)) && Opens(cfg, s, Apply(cfg, s, step))
    ensures var t := Apply(cfg, s, step);
            var newShard := LastMinableShard(cfg, t.lastKvIdx);
            newShard == LastMinableShard(cfg, s.lastKvIdx) + 1
            && InfoAt(t.infos, newShard).lastMineTime == s.now
  {
    hide Commitment, Prepare, PaymentInf, MineReward;
    var t := Apply(cfg, s, step);
    if step.PutTx? {
      PrepareKeepsPayable(cfg, s);
    } else if step.RemoveTx? && t != s {
      NextIndex(t.lastKvIdx, cfg.Entries());
    }
  }

  /** No put, appending or replacing, touches a record that is payable. */
  lemma PutsKeepPayableRecords(cfg: Config, s: State, step: Step, shard: nat)
    requires cfg.Valid() && step.PutTx? && shard <= LastMinableShard(cfg, s.lastKvIdx)
    ensures InfoAt(Apply(cfg, s, step).infos, shard) == InfoAt(s.infos, shard)
  {
    hide Commitment, Prepare, PaymentInf;
    if Apply(cfg, s, step) != s {
      PrepareKeepsPayable(cfg, s);
    }
  }

  /** While a shard stays payable its last mining time only moves forward. */
  lemma MineTimeAdvances(cfg: Config, s: State, step: Step, shard: nat)
    requires cfg.Valid() && shard <= LastMinableShard(cfg, s.lastKvIdx)
    ensures InfoAt(s.infos, shard).lastMineTime <= InfoAt(Apply(cfg, s, step).infos, shard).lastMineTime
  {
    hide Commitment, Prepare, PaymentInf, Difficulties, Rewarded;
    if step.PutTx? {
      PutsKeepPayableRecords(cfg, s, step, shard);
    } else if step.MineTx? && Try(cfg, s, step).Some? {
      var MineTx(start, bits, minedTs, proof) := step;
      var k := OneShiftedBy(bits);
      var diffs := Difficulties(cfg, s.infos, start, k, minedTs).value.0;
      DifficultiesLength(cfg, s.infos, start, k, minedTs);
      RewardedAdvances(cfg, s.infos, LastMinableShard(cfg, s.lastKvIdx), start, k, diffs, minedTs, proof.value, shard);
    }
  }
}
