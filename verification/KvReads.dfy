/** contracts/DecentralizedKV.sol: get and verify, and whole runs against a plain map. */
module KvReads {
  import opened Words
  import opened MerkleTree
  import opened KvState
  import opened KvStore

  /** CHUNK_SIZE of contracts/TestStorageManager.sol. */
  const CHUNK_SIZE: nat := 4096

  ghost function ManagerCommitment(keccak: Keccak, data: seq<Byte>): nat {
    Trunc24(MinRoot(keccak, data, CHUNK_SIZE))
  }

  /** getRaw: the manager recomputes the commitment with its own chunk size. */
  ghost function GetRaw(keccak: Keccak, dataMap: map<nat, seq<Byte>>, hash: nat, kvIdx: nat, off: nat, len: nat)
    : Option<seq<Byte>>
  {
    var data := DataAt(dataMap, kvIdx);
    if hash != ManagerCommitment(keccak, data) then None
    else if off >= |data| then Some([])
    else Some(data[off..off + Min(len, |data| - off)])
  }

  ghost function Get(cfg: Config, s: State, skey: Word, off: nat, len: nat): Option<seq<Byte>> {
    var a := Addr(s.kvMap, skey);
    if len == 0 || off >= a.kvSize then Some([])
    else if len + off >= TWO_256 then None
    else GetRaw(cfg.keccak, s.dataMap, a.hash, a.kvIdx, off, if len + off > a.kvSize then a.kvSize - off else len)
  }

  /** verify: reverts for an absent key. */
  ghost function VerifyValue(cfg: Config, s: State, skey: Word, data: seq<Byte>): Option<bool>
    requires cfg.chunkSize > 0
  {
    var a := Addr(s.kvMap, skey);
    if a.hash == 0 then None
    else if a.kvSize != |data| then Some(false)
    else Some(a.hash == Commitment(cfg, data))
  }

  // ---------------------------------------------------------------- chunk sizes

  /** Contract and manager commit to the data alike. */
  ghost predicate SameCommitment(cfg: Config, data: seq<Byte>)
    requires cfg.chunkSize > 0
  {
    Commitment(cfg, data) == ManagerCommitment(cfg.keccak, data)
  }

  lemma OneChunk(keccak: Keccak, data: seq<Byte>, chunkSize: nat)
    requires 0 < |data| <= chunkSize
    ensures MinRoot(keccak, data, chunkSize) == keccak(Bytes(data))
  {
    CeilDivCovers(|data|, chunkSize, 0);
    CeilDivCovers(|data|, chunkSize, 1);
    assert MinBits(CeilDiv(|data|, chunkSize)) == 0;
    assert Chunk(data, chunkSize, 0) == data;
    OneNode(keccak, Leaves(keccak, data, chunkSize, 1), 0);
  }

  /** They do when the chunk sizes are equal, or when the data fits in one chunk of both. */
  lemma ChunkSizesAgree(cfg: Config, data: seq<Byte>)
    requires cfg.chunkSize > 0
    requires cfg.chunkSize == CHUNK_SIZE || (|data| <= cfg.chunkSize && |data| <= CHUNK_SIZE)
    ensures SameCommitment(cfg, data)
  {
    hide Root, Trunc24;
    if |data| > 0 && cfg.chunkSize != CHUNK_SIZE {
      OneChunk(cfg.keccak, data, cfg.chunkSize);
      OneChunk(cfg.keccak, data, CHUNK_SIZE);
    }
  }

  // ---------------------------------------------------------------- one read

  /** What reading a plain value gives: the requested range, clipped at its end. */
  ghost function Clip(data: seq<Byte>, off: nat, len: nat): (r: seq<Byte>)
    ensures |r| == if off >= |data| then 0 else Min(len, |data| - off)
    ensures forall i :: 0 <= i < |r| ==> r[i] == data[off + i]
  {
    if off >= |data| then [] else data[off..Min(off + len, |data|)]
  }

  /** get returns the clipped slice of the plain map's value, and nothing for an absent key. It
      reverts exactly when a range inside the value overflows uint256 or the chunk sizes give
      the value two different commitments. */
  lemma GetRefines(cfg: Config, s: State, skey: Word, off: nat, len: nat)
    requires cfg.chunkSize > 0 && DataOk(cfg, s)
    ensures skey !in View(s) ==> Get(cfg, s, skey, off, len) == Some([])
    ensures skey in View(s) ==>
              var v := View(s)[skey];
              if len == 0 || off >= |v| then Get(cfg, s, skey, off, len) == Some([])
              else Get(cfg, s, skey, off, len)
                   == if len + off < TWO_256 && SameCommitment(cfg, v) then Some(Clip(v, off, len)) else None
  {
    hide Commitment, ManagerCommitment;
    assert EntryOk(cfg, s, skey);
    ViewKeys(s);
  }

  /** A whole value can be read back after its put exactly when it has fewer than 2^24 bytes:
      the recorded size keeps only 24 bits of the length. */
  lemma ReadBackIff(cfg: Config, s: State, skey: Word, data: seq<Byte>, value: nat)
    requires cfg.chunkSize > 0 && IndexOk(s) && Put(cfg, s, skey, data, value).Some?
    requires Commitment(cfg, data) != 0 && SameCommitment(cfg, data) && |data| < TWO_64
    ensures Get(cfg, Put(cfg, s, skey, data, value).value, skey, 0, |data|) == Some(data) <==> |data| < UINT24
  {
    hide Commitment, ManagerCommitment, Prepare, Upfront, IndexOk;
    var t := Put(cfg, s, skey, data, value).value;
    assert Addr(t.kvMap, skey).kvSize == |data| % UINT24;
    assert DataAt(t.dataMap, Addr(t.kvMap, skey).kvIdx) == data;
    if |data| >= UINT24 {
      var got := Get(cfg, t, skey, 0, |data|);
      assert got.Some? ==> |got.value| <= |data| % UINT24;
    } else if |data| > 0 {
      assert data[0..|data|] == data;
    }
  }

  /** Such a put does go through, on the first transaction of any deployment that admits values
      of 2^24 bytes: paid at the asked price, the value is stored and does not come back. */
  lemma LongDataIsLost(cfg: Config, genesis: Word, value: nat, now: nat, skey: Word, data: seq<Byte>)
    requires cfg.Valid() && cfg.startTime <= now && UINT24 <= |data| <= cfg.maxKvSize && |data| < TWO_64
    requires Commitment(cfg, data) != 0 && SameCommitment(cfg, data)
    ensures var s := Deployed(cfg, genesis, value, now);
            Upfront(cfg, now).Some?
            && var r := Put(cfg, s, skey, data, Upfront(cfg, now).value);
               r.Some? && View(r.value) == map[skey := data]
               && Get(cfg, r.value, skey, 0, |data|) != Some(data)
  {
    hide Commitment, ManagerCommitment, IndexOk, Upfront, Prepare;
    FirstPut(cfg, genesis, value, now, skey, data);
    ReadBackIff(cfg, Deployed(cfg, genesis, value, now), skey, data, Upfront(cfg, now).value);
  }

  // ---------------------------------------------------------------- verify

  /** Two different inputs whose hashes share their first 24 bytes. */
  ghost predicate Collision24(keccak: Keccak, x: Preimage, y: Preimage) {
    x != y && Trunc24(keccak(x)) == Trunc24(keccak(y))
  }

  /** On the way from chunk idx to the root, the trees over a and b hash two different inputs in
      step j to the same word; in the last step the first 24 bytes agreeing is enough. */
  ghost predicate TreesCollide(keccak: Keccak, a: seq<Byte>, b: seq<Byte>, chunkSize: nat, idx: nat, j: nat)
    requires chunkSize > 0
  {
    var bits := MinBits(CeilDiv(|a|, chunkSize));
    idx * chunkSize < |a| && idx * chunkSize < |b| && j <= bits
    && var x, y := DataInput(keccak, a, chunkSize, bits, idx, j), DataInput(keccak, b, chunkSize, bits, idx, j);
       if j == bits then Collision24(keccak, x, y) else Collision(keccak, x, y)
  }

  /** Data that verify accepts is the stored value, or the trees over the two collide in step j. */
  lemma VerifyBinds(cfg: Config, s: State, skey: Word, data: seq<Byte>) returns (idx: nat, j: nat)
    requires cfg.chunkSize > 0 && DataOk(cfg, s) && VerifyValue(cfg, s, skey, data) == Some(true)
    ensures skey in View(s)
            && (View(s)[skey] == data || TreesCollide(cfg.keccak, View(s)[skey], data, cfg.chunkSize, idx, j))
  {
    hide MinRoot, DataInput, MinBits;
    assert EntryOk(cfg, s, skey);
    ViewKeys(s);
    var v, bits := View(s)[skey], MinBits(CeilDiv(|data|, cfg.chunkSize));
    idx, j := 0, bits;
    if |data| > 0 {
      RootInput(cfg.keccak, v, cfg.chunkSize, 0);
      RootInput(cfg.keccak, data, cfg.chunkSize, 0);
      if DataInput(cfg.keccak, v, cfg.chunkSize, bits, 0, bits)
         == DataInput(cfg.keccak, data, cfg.chunkSize, bits, 0, bits)
      {
        idx, j := MinRootBinding(cfg.keccak, v, data, cfg.chunkSize);
      }
    }
  }

  /** verify accepts the stored value, and answers for exactly the keys of the plain map. */
  lemma VerifyAccepts(cfg: Config, s: State, skey: Word, data: seq<Byte>)
    requires cfg.chunkSize > 0 && DataOk(cfg, s)
    ensures VerifyValue(cfg, s, skey, data).Some? <==> skey in View(s)
    ensures skey in View(s) ==> VerifyValue(cfg, s, skey, View(s)[skey]) == Some(true)
  {
    hide Commitment;
    assert EntryOk(cfg, s, skey);
    ViewKeys(s);
  }

  // ---------------------------------------------------------------- runs

  /** Puts whose data is representable: a nonzero commitment and a 24-bit length. */
  ghost predicate Representable(cfg: Config, step: Step)
    requires cfg.chunkSize > 0
  {
    step.PutTx? ==> Commitment(cfg, step.data) != 0 && |step.data| < UINT24
  }

  /** The same run on a plain map, following which transactions went through. */
  ghost function PlainRun(cfg: Config, s: State, steps: seq<Step>): map<Word, seq<Byte>>
    requires cfg.chunkSize > 0
  {
    if |steps| == 0 then map[]
    else
      var init, step := steps[..|steps| - 1], steps[|steps| - 1];
      var m, before := PlainRun(cfg, s, init), Run(cfg, s, init);
      if Try(cfg, before, step).None? then m else PlainStep(cfg, m, step)
  }

  ghost function PlainStep(cfg: Config, m: map<Word, seq<Byte>>, step: Step): map<Word, seq<Byte>> {
    match step
    case PutTx(sender, key, data, _) => m[cfg.SKey(sender, key) := data]
    case RemoveTx(sender, key) => m - {cfg.SKey(sender, key)}
    case MineTx(_, _, _, _) => m
    case SendTx(_) => m
    case Tick(_) => m
  }

  lemma StepRefines(cfg: Config, s: State, step: Step)
    requires cfg.chunkSize > 0 && IndexOk(s) && DataOk(cfg, s) && Representable(cfg, step)
    ensures var t := Apply(cfg, s, step);
            IndexOk(t) && DataOk(cfg, t)
            && View(t) == if Try(cfg, s, step).Some? then PlainStep(cfg, View(s), step) else View(s)
  {
    hide Commitment, IndexOk, DataOk, View, Put, RemoveTo, MineReward;
    if Try(cfg, s, step).Some? {
      match step
      case PutTx(sender, key, data, value) => PutRefines(cfg, s, cfg.SKey(sender, key), data, value);
      case RemoveTx(sender, key) => RemoveRefines(cfg, s, cfg.SKey(sender, key));
      case MineTx(_, _, _, _) => SameStore(cfg, s, Apply(cfg, s, step));
      case SendTx(_) => SameStore(cfg, s, Apply(cfg, s, step));
      case Tick(_) => SameStore(cfg, s, Apply(cfg, s, step));
    }
  }

  lemma SameStore(cfg: Config, s: State, t: State)
    requires cfg.chunkSize > 0 && IndexOk(s) && DataOk(cfg, s)
    requires t.kvMap == s.kvMap && t.idxMap == s.idxMap && t.dataMap == s.dataMap && t.lastKvIdx == s.lastKvIdx
    ensures IndexOk(t) && DataOk(cfg, t) && View(t) == View(s)
  {
    hide Commitment;
    forall i: nat | i < t.lastKvIdx ensures SlotOk(t, i) { assert SlotOk(s, i); }
    forall k | Live(t, k) ensures KeyOk(t, k) { assert Live(s, k); }
    forall k ensures EntryOk(cfg, t, k) { assert EntryOk(cfg, s, k); }
  }

  /** In every run of representable puts, removals, mining and time, the index stays a bijection
      and the store holds exactly what a plain map would. */
  lemma {:induction false} RunRefines(cfg: Config, genesis: Word, value: nat, now: nat, steps: seq<Step>)
    requires cfg.chunkSize > 0 && forall i :: 0 <= i < |steps| ==> Representable(cfg, steps[i])
    ensures var s := Deployed(cfg, genesis, value, now);
            IndexOk(Run(cfg, s, steps)) && DataOk(cfg, Run(cfg, s, steps))
            && View(Run(cfg, s, steps)) == PlainRun(cfg, s, steps)
    decreases |steps|
  {
    hide Commitment, Try, PlainStep;
    var s := Deployed(cfg, genesis, value, now);
    if |steps| > 0 {
      var init := steps[..|steps| - 1];
      RunRefines(cfg, genesis, value, now, init);
      StepRefines(cfg, Run(cfg, s, init), steps[|steps| - 1]);
    }
  }

  /** After any such run, get reads the plain map: the last value put, sliced. */
  lemma RunReads(cfg: Config, genesis: Word, value: nat, now: nat, steps: seq<Step>, skey: Word, off: nat, len: nat)
    requires cfg.chunkSize > 0 && forall i :: 0 <= i < |steps| ==> Representable(cfg, steps[i])
    requires off + len < TWO_256
    requires var m := PlainRun(cfg, Deployed(cfg, genesis, value, now), steps);
             skey in m ==> SameCommitment(cfg, m[skey])
    ensures var s := Deployed(cfg, genesis, value, now);
            var m := PlainRun(cfg, s, steps);
            Get(cfg, Run(cfg, s, steps), skey, off, len) == Some(if skey in m then Clip(m[skey], off, len) else [])
  {
    hide Commitment, Run, PlainRun, Deployed, View, DataOk, Get, SameCommitment;
    RunRefines(cfg, genesis, value, now, steps);
    GetRefines(cfg, Run(cfg, Deployed(cfg, genesis, value, now), steps), skey, off, len);
    var m := PlainRun(cfg, Deployed(cfg, genesis, value, now), steps);
    if skey in m && len == 0 && off < |m[skey]| {
      assert Clip(m[skey], off, 0) == [];
    }
  }

  /** A transaction on one (sender, key) leaves the value of any other as it was, or the two
      pairs hash to the same storage key. */
  lemma OthersUnaffected(cfg: Config, s: State, step: Step, sender: Word, key: Word)
    requires cfg.chunkSize > 0 && IndexOk(s) && DataOk(cfg, s) && Representable(cfg, step)
    requires step.PutTx? || step.RemoveTx?
    requires (step.sender, step.key) != (sender, key)
    ensures var t, k := Apply(cfg, s, step), cfg.SKey(sender, key);
            ((k in View(t) <==> k in View(s)) && (k in View(s) ==> View(t)[k] == View(s)[k]))
            || Collision(cfg.keccak, Pair(step.sender, step.key), Pair(sender, key))
  {
    hide Commitment, IndexOk, DataOk, View, Try;
    StepRefines(cfg, s, step);
  }
}
