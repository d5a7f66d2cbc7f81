/** contracts/DKVDaggerHashimoto.sol: when the puts that fill a shard cover the rent of the one
    they open. */
module ShardCover {
  import opened Words
  import opened Arithmetic
  import opened BinaryRelated
  import opened MerkleTree
  import opened MiningLib
  import opened Rent
  import opened KvState
  import opened KvStore
  import opened KvReads
  import opened Solvency

  // ---------------------------------------------------------------- filling a shard

  /** One value put under one key after the other, each at its time and at the price of that time. */
  ghost function FillSteps(cfg: Config, now: nat, sender: Word, data: seq<Byte>, keys: seq<Word>, times: seq<nat>)
    : (steps: seq<Step>)
    requires |keys| == |times| && Ascending([now] + times)
    decreases |keys|
  {
    if |keys| == 0 then []
    else
      var n := |keys| - 1;
      Prefix(now, times, n);
      FillSteps(cfg, now, sender, data, keys[..n], times[..n])
      + [Tick(times[n] - ([now] + times[..n])[n]), PutTx(sender, keys[n], data, Price(cfg, times[n]))]
  }

  lemma Prefix(now: nat, times: seq<nat>, n: nat)
    requires Ascending([now] + times) && n < |times|
    ensures Ascending([now] + times[..n])
    ensures now <= ([now] + times[..n])[n] <= times[n] == ([now] + times)[n + 1]
  {
    var all := [now] + times;
    assert [now] + times[..n] == all[..n + 1];
    assert all[0] <= all[n] <= all[n + 1] == times[n];
  }

  /** What those puts pay. */
  ghost function Paid(cfg: Config, times: seq<nat>): nat {
    if |times| == 0 then 0 else Paid(cfg, times[..|times| - 1]) + Price(cfg, times[|times| - 1])
  }

  /** The keys name as many absent entries. */
  ghost predicate FreshKeys(cfg: Config, s: State, sender: Word, keys: seq<Word>) {
    (forall i :: 0 <= i < |keys| ==> !Live(s, cfg.SKey(sender, keys[i])))
    && forall i, j :: 0 <= i < j < |keys| ==> cfg.SKey(sender, keys[i]) != cfg.SKey(sender, keys[j])
  }

  /** Room for a whole shard, in the index and for the data. */
  ghost predicate CanFill(cfg: Config, s: State, data: seq<Byte>) {
    cfg.Valid() && cfg.startTime <= s.now && s.lastKvIdx % cfg.Entries() == 0
    && s.lastKvIdx + cfg.Entries() + 1 < UINT40 && |data| <= cfg.maxKvSize
  }

  lemma PrepareSucceeds(cfg: Config, s: State)
    requires s.lastKvIdx + 2 < UINT40
    ensures Prepare(cfg, s).Some?
  {
    QuotientAtLeast(s.lastKvIdx + 1, s.lastKvIdx + 2, cfg.Entries());
    MulMonotone(s.lastKvIdx + 2, 1, s.lastKvIdx + 2, cfg.Entries());
  }

  /** A put of a new key at the asked price goes through. */
  lemma AskedPut(cfg: Config, s: State, sender: Word, key: Word, data: seq<Byte>)
    requires cfg.Valid() && cfg.startTime <= s.now && s.lastKvIdx + 2 < UINT40 && |data| <= cfg.maxKvSize
    requires !Live(s, cfg.SKey(sender, key))
    ensures var t := Apply(cfg, s, PutTx(sender, key, data, Price(cfg, s.now)));
            t.lastKvIdx == s.lastKvIdx + 1 && t.now == s.now
            && (forall k :: k != cfg.SKey(sender, key) ==> Live(t, k) == Live(s, k))
            && (Live(t, cfg.SKey(sender, key)) <==> Commitment(cfg, data) != 0)
            && Slack(cfg, t) == Slack(cfg, s) - OpeningLoss(cfg, s, t)
  {
    hide Pow, Slack, OpeningLoss, Commitment, Prepare;
    PrepareSucceeds(cfg, s);
    AppendSlack(cfg, s, Apply(cfg, s, PutTx(sender, key, data, Price(cfg, s.now))), Price(cfg, s.now));
  }

  /** Waiting releases what the stored entries of the filling shard lose in price. */
  lemma TickExact(cfg: Config, s: State, seconds: nat)
    requires cfg.chunkSize > 0
    ensures var t := Apply(cfg, s, Tick(seconds));
            t == s.(now := s.now + seconds)
            && Slack(cfg, t) == Slack(cfg, s) + s.lastKvIdx % cfg.Entries() * Price(cfg, s.now)
                                - s.lastKvIdx % cfg.Entries() * Price(cfg, t.now)
  {
    hide Price, Liability;
  }

  lemma NoSteps(cfg: Config, s: State)
    requires cfg.chunkSize > 0
    ensures Run(cfg, s, []) == s
  {
  }

  lemma RunTwoMore(cfg: Config, s: State, steps: seq<Step>, a: Step, b: Step)
    requires cfg.chunkSize > 0
    ensures Run(cfg, s, steps + [a, b]) == Apply(cfg, Apply(cfg, Run(cfg, s, steps), a), b)
  {
    hide Apply;
    var more := steps + [a];
    assert (steps + [a, b])[..|more|] == more && more[..|steps|] == steps;
  }

  /** One more entry: wait, then put. */
  lemma FillOne(cfg: Config, s: State, ts: nat, sender: Word, key: Word, data: seq<Byte>) returns (t: State)
    requires cfg.Valid() && cfg.startTime <= s.now <= ts && s.lastKvIdx + 2 < UINT40 && |data| <= cfg.maxKvSize
    requires !Live(s, cfg.SKey(sender, key))
    ensures t == Apply(cfg, Apply(cfg, s, Tick(ts - s.now)), PutTx(sender, key, data, Price(cfg, ts)))
    ensures t.lastKvIdx == s.lastKvIdx + 1 && t.now == ts
    ensures forall k :: k != cfg.SKey(sender, key) ==> Live(t, k) == Live(s, k)
    ensures Live(t, cfg.SKey(sender, key)) <==> Commitment(cfg, data) != 0
    ensures var stored := s.lastKvIdx % cfg.Entries();
            Slack(cfg, t) == Slack(cfg, s) + stored * Price(cfg, s.now) - stored * Price(cfg, ts)
                             - (if t.lastKvIdx % cfg.Entries() == 0 then OpeningGap(cfg, ts) else 0)
  {
    hide Apply, Commitment, Slack, Price, OpeningGap, Pow2;
    var waited := Apply(cfg, s, Tick(ts - s.now));
    TickExact(cfg, s, ts - s.now);
    AskedPut(cfg, waited, sender, key, data);
    t := Apply(cfg, waited, PutTx(sender, key, data, Price(cfg, ts)));
  }

  /** Which entries exist after puts under the keys: the keys' own do when stored is true, all
      others are as before. */
  ghost predicate Holds(cfg: Config, s: State, t: State, sender: Word, keys: seq<Word>, stored: bool) {
    (forall k :: (forall i :: 0 <= i < |keys| ==> k != cfg.SKey(sender, keys[i])) ==> Live(t, k) == Live(s, k))
    && (forall i :: 0 <= i < |keys| ==> (Live(t, cfg.SKey(sender, keys[i])) <==> stored))
  }

  lemma HoldsOneMore(cfg: Config, s: State, s0: State, t: State, sender: Word, keys: seq<Word>, n: nat, stored: bool)
    requires |keys| == n + 1 && FreshKeys(cfg, s, sender, keys) && Holds(cfg, s, s0, sender, keys[..n], stored)
    requires forall k :: k != cfg.SKey(sender, keys[n]) ==> Live(t, k) == Live(s0, k)
    requires Live(t, cfg.SKey(sender, keys[n])) <==> stored
    ensures Holds(cfg, s, t, sender, keys, stored)
  {
    hide Live;
    forall k | forall i :: 0 <= i < |keys| ==> k != cfg.SKey(sender, keys[i])
      ensures Live(t, k) == Live(s, k)
    {
      assert k != cfg.SKey(sender, keys[n]);
      forall i | 0 <= i < n ensures k != cfg.SKey(sender, keys[..n][i]) {
        assert keys[..n][i] == keys[i];
      }
    }
    forall i | 0 <= i < n ensures Live(t, cfg.SKey(sender, keys[i])) <==> stored {
      assert keys[..n][i] == keys[i];
    }
  }

  lemma NothingHeld(cfg: Config, s: State, sender: Word, keys: seq<Word>, stored: bool)
    requires |keys| == 0
    ensures Holds(cfg, s, s, sender, keys, stored)
  {
  }

  lemma FewerFresh(cfg: Config, s: State, sender: Word, keys: seq<Word>, n: nat)
    requires n <= |keys| && FreshKeys(cfg, s, sender, keys)
    ensures FreshKeys(cfg, s, sender, keys[..n])
  {
    hide Live;
  }

  lemma StillFresh(cfg: Config, s: State, s0: State, sender: Word, keys: seq<Word>, n: nat, stored: bool)
    requires |keys| == n + 1 && FreshKeys(cfg, s, sender, keys) && Holds(cfg, s, s0, sender, keys[..n], stored)
    ensures !Live(s0, cfg.SKey(sender, keys[n]))
  {
    hide Live;
    forall i | 0 <= i < n ensures cfg.SKey(sender, keys[n]) != cfg.SKey(sender, keys[..n][i]) {
      assert keys[..n][i] == keys[i];
    }
  }

  /** n puts into an empty shard, at any times: the surplus changes by what was paid, less n times
      the price at the end, less the gap if the shard is now full. */
  lemma {:induction false} Filling(cfg: Config, s: State, sender: Word, data: seq<Byte>, keys: seq<Word>,
                                   times: seq<nat>)
    requires CanFill(cfg, s, data) && |keys| == |times| <= cfg.Entries()
    requires Ascending([s.now] + times) && FreshKeys(cfg, s, sender, keys)
    ensures var t := Run(cfg, s, FillSteps(cfg, s.now, sender, data, keys, times));
            var full := |keys| == cfg.Entries();
            t.lastKvIdx == s.lastKvIdx + |keys| && t.now == ([s.now] + times)[|times|]
            && Holds(cfg, s, t, sender, keys, Commitment(cfg, data) != 0)
            && Slack(cfg, t) == Slack(cfg, s) + Paid(cfg, times) - |keys| * Price(cfg, t.now)
                                - (if full then OpeningGap(cfg, t.now) else 0)
    decreases |keys|
  {
    hide Apply, Run, Commitment, Slack, Price, OpeningGap, Pow2, Live, Ascending, Holds, FreshKeys;
    if |keys| == 0 {
      NoSteps(cfg, s);
      NothingHeld(cfg, s, sender, keys, Commitment(cfg, data) != 0);
    } else {
      var n := |keys| - 1;
      Prefix(s.now, times, n);
      FewerFresh(cfg, s, sender, keys, n);
      Filling(cfg, s, sender, data, keys[..n], times[..n]);
      var before := FillSteps(cfg, s.now, sender, data, keys[..n], times[..n]);
      var s0 := Run(cfg, s, before);
      var tick, put := Tick(times[n] - s0.now), PutTx(sender, keys[n], data, Price(cfg, times[n]));
      RunTwoMore(cfg, s, before, tick, put);
      StillFresh(cfg, s, s0, sender, keys, n, Commitment(cfg, data) != 0);
      var t := FillOne(cfg, s0, times[n], sender, keys[n], data);
      HoldsOneMore(cfg, s, s0, t, sender, keys, n, Commitment(cfg, data) != 0);
      InShard(s.lastKvIdx, cfg.Entries(), n);
      OneMore(n, Price(cfg, times[n]));
    }
  }

  lemma InShard(first: nat, e: nat, n: nat)
    requires e > 0 && first % e == 0 && n < e
    ensures (first + n) % e == n
    ensures (first + n + 1) % e == 0 <==> n + 1 == e
  {
    var q := first / e;
    assert first == q * e;
    QuotientIs(first + n, e, q, n);
    if n + 1 < e {
      QuotientIs(first + n + 1, e, q, n + 1);
    } else {
      OneMore(q, e);
      QuotientIs(first + n + 1, e, q + 1, 0);
    }
  }

  // ---------------------------------------------------------------- when the puts cover the shard

  /** A shard filled at the asked prices covers the one it opens exactly when what its entries
      paid above the last price makes up the gap. */
  lemma ShardCoveredIff(cfg: Config, s: State, sender: Word, data: seq<Byte>, keys: seq<Word>, times: seq<nat>)
    requires CanFill(cfg, s, data) && |keys| == |times| == cfg.Entries()
    requires Ascending([s.now] + times) && FreshKeys(cfg, s, sender, keys)
    ensures var t := Run(cfg, s, FillSteps(cfg, s.now, sender, data, keys, times));
            t.lastKvIdx == s.lastKvIdx + cfg.Entries()
            && (Slack(cfg, t) >= Slack(cfg, s)
                <==> Paid(cfg, times) - cfg.Entries() * Price(cfg, times[|times| - 1])
                     >= OpeningGap(cfg, times[|times| - 1]))
  {
    hide Run, FillSteps, Slack, Paid, Price, OpeningGap;
    Filling(cfg, s, sender, data, keys, times);
  }

  lemma {:induction false} PaidAtOnce(cfg: Config, times: seq<nat>, ts: nat)
    requires forall i :: 0 <= i < |times| ==> times[i] == ts
    ensures Paid(cfg, times) == |times| * Price(cfg, ts)
  {
    hide Price;
    if |times| > 0 {
      PaidAtOnce(cfg, times[..|times| - 1], ts);
      OneMore(|times| - 1, Price(cfg, ts));
    }
  }

  /** e entries paid for in the same second leave exactly the gap uncovered. */
  lemma FilledAtOnce(cfg: Config, s: State, sender: Word, data: seq<Byte>, keys: seq<Word>) returns (steps: seq<Step>)
    requires CanFill(cfg, s, data) && |keys| == cfg.Entries() && FreshKeys(cfg, s, sender, keys)
    ensures steps == FillSteps(cfg, s.now, sender, data, keys, seq(|keys|, _ => s.now))
    ensures Slack(cfg, Run(cfg, s, steps)) == Slack(cfg, s) - OpeningGap(cfg, s.now)
  {
    hide Run, FillSteps, Slack, Paid, Price, OpeningGap;
    var times := seq(|keys|, _ => s.now);
    Filling(cfg, s, sender, data, keys, times);
    PaidAtOnce(cfg, times, s.now);
    steps := FillSteps(cfg, s.now, sender, data, keys, times);
  }

  /** The puts before every opening cover the new shard: no run of entries that can be read back
      needs a deposit beyond the rent of shards 0 and 1. */
  ghost predicate CoversEveryRun(cfg: Config)
    requires cfg.Valid()
  {
    forall genesis: Word, value: nat, now: nat, steps: seq<Step> ::
      (forall i :: 0 <= i < |steps| ==> Representable(cfg, steps[i]))
      ==> Slack(cfg, Run(cfg, Deployed(cfg, genesis, value, now), steps)) >= value - 2 * cfg.ShardCost()
  }

  lemma {:induction false} NoGaps(cfg: Config, s: State, steps: seq<Step>)
    requires cfg.chunkSize > 0 && forall ts: nat :: OpeningGap(cfg, ts) == 0
    ensures Gaps(cfg, s, steps) == 0
    decreases |steps|
  {
    hide Apply, OpeningGap, Opens;
    if |steps| > 0 { NoGaps(cfg, s, steps[..|steps| - 1]); }
  }

  lemma {:induction false} FillRepresentable(cfg: Config, now: nat, sender: Word, data: seq<Byte>, keys: seq<Word>,
                                             times: seq<nat>)
    requires cfg.chunkSize > 0 && |keys| == |times| && Ascending([now] + times)
    requires Commitment(cfg, data) != 0 && |data| < UINT24
    ensures forall step <- FillSteps(cfg, now, sender, data, keys, times) :: Representable(cfg, step)
    decreases |keys|
  {
    hide Commitment, Price;
    if |keys| > 0 {
      var n := |keys| - 1;
      Prefix(now, times, n);
      FillRepresentable(cfg, now, sender, data, keys[..n], times[..n]);
    }
  }

  /** The price rounds off so little of e entries at ts that no wei is lost. */
  ghost predicate RoundsCleanly(cfg: Config, ts: nat) {
    cfg.Entries() * (cfg.storageCost * Pow(cfg.dcfFactor, Elapsed(cfg, ts)) % TWO_128) < TWO_128
  }

  lemma GapIff(cfg: Config, ts: nat)
    ensures OpeningGap(cfg, ts) == 0 <==> RoundsCleanly(cfg, ts)
  {
    hide Pow;
  }

  /** The promise made where a shard is opened holds for every run exactly when the price rounds
      cleanly at every time. keys and data stand for any e keys that do not collide and any value
      that can be stored; with 2^40 entries a shard, none is ever opened. */
  lemma CoversEveryRunIff(cfg: Config, sender: Word, data: seq<Byte>, keys: seq<Word>)
    requires cfg.Valid() && cfg.Entries() + 1 < UINT40 && |data| <= cfg.maxKvSize && |data| < UINT24
    requires Commitment(cfg, data) != 0 && |keys| == cfg.Entries()
    requires forall i, j :: 0 <= i < j < |keys| ==> cfg.SKey(sender, keys[i]) != cfg.SKey(sender, keys[j])
    ensures CoversEveryRun(cfg) <==> forall ts: nat :: cfg.startTime <= ts ==> RoundsCleanly(cfg, ts)
  {
    hide Slack, Run, FillSteps, OpeningGap, Commitment, RoundsCleanly, Gaps;
    if CoversEveryRun(cfg) {
      forall ts: nat | cfg.startTime <= ts ensures RoundsCleanly(cfg, ts) {
        var s := Deployed(cfg, 0, 0, ts);
        DeployedLedger(cfg, 0, 0, ts);
        var steps := FilledAtOnce(cfg, s, sender, data, keys);
        FillRepresentable(cfg, ts, sender, data, keys, seq(|keys|, _ => ts));
        assert forall i :: 0 <= i < |steps| ==> Representable(cfg, steps[i]);
        GapIff(cfg, ts);
      }
    }
    if forall ts: nat :: cfg.startTime <= ts ==> RoundsCleanly(cfg, ts) {
      CleanRounding(cfg);
    }
  }

  /** When the price always rounds cleanly, no run at all needs a deposit. */
  lemma CleanRounding(cfg: Config)
    requires cfg.Valid() && forall ts: nat :: cfg.startTime <= ts ==> RoundsCleanly(cfg, ts)
    ensures forall genesis: Word, value: nat, now: nat, steps: seq<Step> ::
              Slack(cfg, Run(cfg, Deployed(cfg, genesis, value, now), steps)) >= value - 2 * cfg.ShardCost()
  {
    hide Slack, Run, OpeningGap, RoundsCleanly, Gaps, LedgerOk, Deployed;
    forall ts: nat ensures OpeningGap(cfg, ts) == 0 {
      GapOfElapsed(cfg, ts);
      GapIff(cfg, if ts < cfg.startTime then cfg.startTime else ts);
    }
    forall genesis: Word, value: nat, now: nat, steps: seq<Step>
      ensures Slack(cfg, Run(cfg, Deployed(cfg, genesis, value, now), steps)) >= value - 2 * cfg.ShardCost()
    {
      RunSolvent(cfg, genesis, value, now, steps);
      NoGaps(cfg, Deployed(cfg, genesis, value, now), steps);
    }
  }

  lemma GapOfElapsed(cfg: Config, ts: nat)
    ensures OpeningGap(cfg, ts) == OpeningGap(cfg, if ts < cfg.startTime then cfg.startTime else ts)
  {
    hide Pow;
  }

  // ---------------------------------------------------------------- one wei short

  /** Two entries a shard at one wei each and a discount of one part in 2^128: one second after
      the start an entry is free, a shard still earns one wei, and nobody has paid it. Both
      entries are stored in good order. */
  lemma ClaimFailsByOneWei(keccak: Keccak) returns (cfg: Config, steps: seq<Step>)
    requires keccak(Pair(0, 1)) != keccak(Pair(0, 2)) && Trunc24(keccak(Bytes([1]))) != 0
    ensures cfg.Valid() && cfg.keccak == keccak
    ensures var t := Run(cfg, Deployed(cfg, 0, 2 * cfg.ShardCost(), 1), steps);
            Slack(cfg, t) == -1 && t.lastKvIdx == 2
            && Live(t, cfg.SKey(0, 1)) && Live(t, cfg.SKey(0, 2)) && IndexOk(t)
  {
    hide Slack, Run, FillSteps, OpeningGap, Commitment, Price, Paid;
    cfg := Config(keccak, 0, 1, TWO_128 - 1, 32, 32, 1, 0, Tuning(1, 1, 1, 1));
    assert Pow2(1) == 2;
    var s := Deployed(cfg, 0, 4, 1);
    var keys: seq<Word> := [1, 2];
    OneByte(cfg);
    DeployedLedger(cfg, 0, 4, 1);
    GapAfterOneSecond(cfg);
    steps := FilledAtOnce(cfg, s, 0, [1], keys);
    Filling(cfg, s, 0, [1], keys, seq(2, _ => 1));
    FillRepresentable(cfg, 1, 0, [1], keys, seq(2, _ => 1));
    RunRefines(cfg, 0, 4, 1, steps);
    assert keys[0] == 1 && keys[1] == 2;
  }

  lemma OneByte(cfg: Config)
    requires cfg.chunkSize == 32 && Trunc24(cfg.keccak(Bytes([1]))) != 0
    ensures Commitment(cfg, [1]) != 0
  {
    hide MinRoot;
    OneChunk(cfg.keccak, [1], 32);
  }

  lemma GapAfterOneSecond(cfg: Config)
    requires cfg.startTime == 0 && cfg.storageCost == 1 && cfg.dcfFactor == TWO_128 - 1 && cfg.Entries() == 2
    ensures OpeningGap(cfg, 1) == 1
  {
    assert Pow(cfg.dcfFactor, 1) == PowFrom(TWO_128 - 1, MulFp(TWO_128 - 1, TWO_128 - 1), 0) == TWO_128 - 1;
  }
}
