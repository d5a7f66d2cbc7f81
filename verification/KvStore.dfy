/** contracts/DecentralizedKV.sol over contracts/TestStorageManager.sol: the swap-with-last index
    and the backing store behave like one plain map from key to value. */
module KvStore {
  import opened Words
  import opened Arithmetic
  import opened BinaryRelated
  import opened MerkleTree
  import opened Rent
  import opened KvState

  // ---------------------------------------------------------------- the index

  /** Every slot below lastKvIdx names a live key that points back to it. */
  ghost predicate SlotOk(s: State, i: nat) {
    Live(s, KeyAt(s.idxMap, i)) && Addr(s.kvMap, KeyAt(s.idxMap, i)).kvIdx == i
  }

  /** Every live key points to a slot below lastKvIdx that names it. */
  ghost predicate KeyOk(s: State, skey: Word) {
    Addr(s.kvMap, skey).kvIdx < s.lastKvIdx && KeyAt(s.idxMap, Addr(s.kvMap, skey).kvIdx) == skey
  }

  ghost predicate IndexOk(s: State) {
    (forall i: nat :: i < s.lastKvIdx ==> SlotOk(s, i))
    && (forall skey :: Live(s, skey) ==> KeyOk(s, skey))
    && (forall i: nat :: s.lastKvIdx <= i ==> KeyAt(s.idxMap, i) == ZERO_WORD)
  }

  /** Size and commitment of every live entry are those of its data; absent entries are empty. */
  ghost predicate DataOk(cfg: Config, s: State)
    requires cfg.chunkSize > 0
  {
    forall skey :: EntryOk(cfg, s, skey)
  }

  ghost predicate EntryOk(cfg: Config, s: State, skey: Word)
    requires cfg.chunkSize > 0
  {
    var a, data := Addr(s.kvMap, skey), DataAt(s.dataMap, Addr(s.kvMap, skey).kvIdx);
    if a.hash == 0 then a.kvSize == 0 else a.kvSize == |data| && a.hash == Commitment(cfg, data)
  }

  /** The plain map the store stands for. */
  ghost function View(s: State): map<Word, seq<Byte>> {
    map skey | skey in s.kvMap && Live(s, skey) :: DataAt(s.dataMap, Addr(s.kvMap, skey).kvIdx)
  }

  lemma ViewKeys(s: State)
    ensures forall skey :: skey in View(s) <==> Live(s, skey)
  {
  }

  // ---------------------------------------------------------------- put

  /** A put keeps the index a bijection exactly when the commitment of the data is not zero,
      the value that marks an absent entry: empty data breaks it. */
  lemma PutIndexIff(cfg: Config, s: State, skey: Word, data: seq<Byte>, value: nat)
    requires cfg.chunkSize > 0 && IndexOk(s) && Put(cfg, s, skey, data, value).Some?
    ensures IndexOk(Put(cfg, s, skey, data, value).value) <==> Commitment(cfg, data) != 0
  {
    hide Commitment, Prepare, Upfront;
    var t := Put(cfg, s, skey, data, value).value;
    var i := Addr(t.kvMap, skey).kvIdx;
    assert KeyAt(t.idxMap, i) == skey && i < t.lastKvIdx by {
      assert Live(s, skey) ==> KeyOk(s, skey);
    }
    if Commitment(cfg, data) == 0 {
      assert !SlotOk(t, i);
    } else {
      PutSlots(cfg, s, t, skey);
    }
  }

  lemma PutSlots(cfg: Config, s: State, t: State, skey: Word)
    requires IndexOk(s) && Live(t, skey)
    requires var i := Addr(t.kvMap, skey).kvIdx;
             t.kvMap == s.kvMap[skey := Addr(t.kvMap, skey)]
             && (if Live(s, skey)
                 then t.idxMap == s.idxMap && t.lastKvIdx == s.lastKvIdx && i == Addr(s.kvMap, skey).kvIdx
                 else t.idxMap == s.idxMap[i := skey] && t.lastKvIdx == s.lastKvIdx + 1 && i == s.lastKvIdx)
    ensures IndexOk(t)
  {
    var i := Addr(t.kvMap, skey).kvIdx;
    forall j: nat | j < t.lastKvIdx ensures SlotOk(t, j) {
      if j < s.lastKvIdx { assert SlotOk(s, j); }
    }
    forall k | Live(t, k) ensures KeyOk(t, k) {
      if k != skey || Live(s, skey) { assert Live(s, k); assert KeyOk(s, k); }
    }
    forall j: nat | t.lastKvIdx <= j ensures KeyAt(t.idxMap, j) == ZERO_WORD {
      assert KeyAt(s.idxMap, j) == ZERO_WORD;
    }
  }

  /** The first put of a deployment, at any time from startTime on, succeeds at the asked price. */
  lemma FirstPut(cfg: Config, genesis: Word, value: nat, now: nat, skey: Word, data: seq<Byte>)
    requires cfg.Valid() && cfg.startTime <= now && |data| <= cfg.maxKvSize
    ensures var s := Deployed(cfg, genesis, value, now);
            IndexOk(s) && Upfront(cfg, now).Some? && Put(cfg, s, skey, data, Upfront(cfg, now).value).Some?
  {
    hide Commitment, Pow;
    FirstPrepare(cfg, Deployed(cfg, genesis, value, now));
  }

  /** The very first put shows it: paid for and empty, it takes slot 0 for a key that is then
      still absent. */
  lemma EmptyDataBreaksIndex(cfg: Config, genesis: Word, value: nat, now: nat, skey: Word)
    requires cfg.Valid() && cfg.startTime <= now
    ensures var s := Deployed(cfg, genesis, value, now);
            IndexOk(s) && Upfront(cfg, now).Some?
            && var r := Put(cfg, s, skey, [], Upfront(cfg, now).value);
               r.Some? && !Live(r.value, skey) && KeyAt(r.value.idxMap, 0) == skey && !IndexOk(r.value)
  {
    hide Pow, Prepare;
    var s := Deployed(cfg, genesis, value, now);
    FirstPut(cfg, genesis, value, now, skey, []);
    PutIndexIff(cfg, s, skey, [], Upfront(cfg, now).value);
  }

  lemma FirstPrepare(cfg: Config, s: State)
    requires s.lastKvIdx == 0
    ensures Prepare(cfg, s).Some?
  {
    if cfg.Entries() > 1 { QuotientIs(1, cfg.Entries(), 0, 1); }
  }

  lemma PutKeepsData(cfg: Config, s: State, skey: Word, data: seq<Byte>, value: nat, k: Word)
    requires cfg.chunkSize > 0 && IndexOk(s) && DataOk(cfg, s) && Put(cfg, s, skey, data, value).Some?
    requires Commitment(cfg, data) != 0 && |data| < UINT24
    ensures var t := Put(cfg, s, skey, data, value).value;
            EntryOk(cfg, t, k)
            && (k == skey ==> Live(t, k) && DataAt(t.dataMap, Addr(t.kvMap, k).kvIdx) == data)
            && (k != skey ==> (Live(t, k) <==> Live(s, k)))
            && (k != skey && Live(s, k) ==>
                  DataAt(t.dataMap, Addr(t.kvMap, k).kvIdx) == DataAt(s.dataMap, Addr(s.kvMap, k).kvIdx))
  {
    hide Commitment, Prepare, Upfront;
    assert EntryOk(cfg, s, k);
    if k != skey && Live(s, k) {
      assert KeyOk(s, k) && (Live(s, skey) ==> KeyOk(s, skey));
    }
  }

  /** A put of data below 2^24 bytes with a nonzero commitment sets its key and nothing else. */
  lemma PutRefines(cfg: Config, s: State, skey: Word, data: seq<Byte>, value: nat)
    requires cfg.chunkSize > 0 && IndexOk(s) && DataOk(cfg, s) && Put(cfg, s, skey, data, value).Some?
    requires Commitment(cfg, data) != 0 && |data| < UINT24
    ensures var t := Put(cfg, s, skey, data, value).value;
            IndexOk(t) && DataOk(cfg, t) && View(t) == View(s)[skey := data]
  {
    hide Commitment, Put, EntryOk, IndexOk;
    PutIndexIff(cfg, s, skey, data, value);
    forall k { PutKeepsData(cfg, s, skey, data, value, k); }
    ViewKeys(s);
    ViewKeys(Put(cfg, s, skey, data, value).value);
  }

  // ---------------------------------------------------------------- remove

  /** The state after the last entry has taken the place of the removed one. */
  lemma RemoveAddr(cfg: Config, s: State, skey: Word, k: Word)
    requires IndexOk(s) && RemoveTo(cfg, s, skey).Some?
    ensures var t := RemoveTo(cfg, s, skey).value;
            var i, last := Addr(s.kvMap, skey).kvIdx, s.lastKvIdx - 1;
            i <= last
            && (Live(t, k) <==> Live(s, k) && k != skey)
            && (!Live(t, k) ==> Addr(t.kvMap, k).kvSize == (if k == skey then 0 else Addr(s.kvMap, k).kvSize))
            && (Live(t, k) ==> Addr(t.kvMap, k) == Addr(s.kvMap, k).(kvIdx := if Addr(s.kvMap, k).kvIdx == last then i
                                                                            else Addr(s.kvMap, k).kvIdx))
  {
    hide Upfront;
    var last := s.lastKvIdx - 1;
    assert SlotOk(s, last) && KeyOk(s, skey);
    assert Live(s, k) ==> KeyOk(s, k);
  }

  lemma RemoveKeepsIndex(cfg: Config, s: State, skey: Word)
    requires IndexOk(s) && RemoveTo(cfg, s, skey).Some?
    ensures IndexOk(RemoveTo(cfg, s, skey).value)
  {
    hide Upfront, Relinked;
    var t := RemoveTo(cfg, s, skey).value;
    var i, last := Addr(s.kvMap, skey).kvIdx, s.lastKvIdx - 1;
    assert SlotOk(s, last) && KeyOk(s, skey);
    forall j: nat | j < t.lastKvIdx ensures SlotOk(t, j) {
      assert SlotOk(s, j);
      RemoveAddr(cfg, s, skey, KeyAt(t.idxMap, j));
    }
    forall k | Live(t, k) ensures KeyOk(t, k) {
      RemoveAddr(cfg, s, skey, k);
      assert KeyOk(s, k);
    }
    forall j: nat | t.lastKvIdx <= j ensures KeyAt(t.idxMap, j) == ZERO_WORD {
      if j > last { assert KeyAt(s.idxMap, j) == ZERO_WORD; }
    }
  }

  /** A removal deletes its key and moves no other key's value, whichever entry was last. */
  lemma RemoveRefines(cfg: Config, s: State, skey: Word)
    requires cfg.chunkSize > 0 && IndexOk(s) && DataOk(cfg, s) && RemoveTo(cfg, s, skey).Some?
    ensures var t := RemoveTo(cfg, s, skey).value;
            IndexOk(t) && DataOk(cfg, t) && View(t) == View(s) - {skey}
  {
    hide Upfront, Relinked, Commitment;
    var t := RemoveTo(cfg, s, skey).value;
    RemoveKeepsIndex(cfg, s, skey);
    forall k
      ensures EntryOk(cfg, t, k)
      ensures Live(t, k) ==> Live(s, k)
      ensures Live(t, k) ==> DataAt(t.dataMap, Addr(t.kvMap, k).kvIdx) == DataAt(s.dataMap, Addr(s.kvMap, k).kvIdx)
    {
      RemoveAddr(cfg, s, skey, k);
      assert Live(s, k) ==> KeyOk(s, k);
      assert KeyOk(s, skey) && EntryOk(cfg, s, k);
    }
    forall k | Live(s, k) && k != skey ensures Live(t, k) {
      RemoveAddr(cfg, s, skey, k);
    }
    RemoveAddr(cfg, s, skey, skey);
    ViewKeys(s);
    ViewKeys(t);
  }
}
