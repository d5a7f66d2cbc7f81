/** scripts/dagger/golang/ethash.go: the dataset written by many goroutines at once. */
module EthashParallel {
  import opened Words
  import opened Arithmetic
  import opened FnvMix
  import opened Ethash

  /** The parameters of one run of generateDataset. */
  datatype Job = Job(k512: Hasher512, cache: seq<Word32>, dest: seq<Word32>, threads: nat) {
    ghost predicate Valid() { threads > 0 && CacheRows(cache) > 0 }

    /** size / hashBytes, where size is the byte length of dest. */
    function Rows(): nat { |dest| * 4 / HASH_BYTES }

    function Batch(): nat
      requires threads > 0
    {
      (|dest| * 4 + HASH_BYTES * threads - 1) / (HASH_BYTES * threads)
    }

    function First(id: nat): nat
      requires threads > 0
    {
      id * Batch()
    }

    function Limit(id: nat): nat
      requires threads > 0
    {
      if First(id) + Batch() > Rows() then Rows() else First(id) + Batch()
    }

    /** The words copied into row index; the index is passed on as a uint32. */
    ghost function Item(index: nat): (row: seq<Word32>)
      requires CacheRows(cache) > 0
      ensures |row| == 16
    {
      WordsOf(DatasetItem(k512, cache, index % TWO_32))
    }
  }

  // ---------------------------------------------------------------- the ranges

  /** The batches together reach past the last row. */
  lemma BatchesCover(job: Job)
    requires job.Valid()
    ensures job.Rows() <= job.threads * job.Batch()
    ensures job.Rows() > 0 ==> job.Batch() > 0
  {
    var t, s, b := job.threads, |job.dest| * 4, job.Batch();
    QuotientAtLeast(s + 64 * t - 1, b + 1, 64 * t);
    OneMore(b, 64 * t);
    assert s <= b * (64 * t);
    assert b * (64 * t) == 64 * (t * b);
  }

  /** The goroutine that writes row r. */
  function Owner(job: Job, r: nat): nat
    requires job.threads > 0 && job.Batch() > 0
  {
    r / job.Batch()
  }

  /** The ranges of the goroutines are disjoint and cover the rows exactly: each row lies in the
      range of its owner and of no other thread. */
  lemma RangesPartition(job: Job, r: nat, id: nat)
    requires job.Valid() && r < job.Rows()
    ensures job.Batch() > 0 && Owner(job, r) < job.threads
    ensures job.First(id) <= r < job.Limit(id) <==> id == Owner(job, r)
  {
    BatchesCover(job);
    var b, q := job.Batch(), Owner(job, r);
    assert r == q * b + r % b;
    if q >= job.threads { MulOrder(job.threads, q, b); }
    if job.First(id) <= r < job.Limit(id) {
      QuotientIs(r, b, id, r - id * b);
    }
  }

  // ---------------------------------------------------------------- interleavings

  /** Where each goroutine stands, and the shared dataset. */
  datatype Progress = Progress(next: seq<nat>, dataset: seq<Word32>)

  ghost function WriteRow(dataset: seq<Word32>, r: nat, row: seq<Word32>): (d: seq<Word32>)
    requires r * 16 + 16 <= |dataset| && |row| == 16
    ensures |d| == |dataset|
  {
    dataset[..r * 16] + row + dataset[r * 16 + 16..]
  }

  ghost predicate Shaped(job: Job, p: Progress) {
    |p.next| == job.threads && |p.dataset| == |job.dest|
  }

  lemma RowFits(job: Job, r: nat)
    requires r < job.Rows()
    ensures r * 16 + 16 <= |job.dest|
  {
  }

  /** Goroutine id writes its next row, if it has one left. */
  ghost function Step(job: Job, p: Progress, id: nat): (q: Progress)
    requires job.Valid() && Shaped(job, p)
    ensures Shaped(job, q)
  {
    if id >= job.threads || p.next[id] >= job.Limit(id) then p
    else
      RowFits(job, p.next[id]);
      Progress(p.next[id := p.next[id] + 1], WriteRow(p.dataset, p.next[id], job.Item(p.next[id])))
  }

  ghost function Start(job: Job): (p: Progress)
    requires job.Valid()
    ensures Shaped(job, p)
  {
    Progress(seq(job.threads, id requires 0 <= id < job.threads => job.First(id)), job.dest)
  }

  /** The scheduler picks which goroutine goes next. */
  ghost function Run(job: Job, schedule: seq<nat>): (p: Progress)
    requires job.Valid()
    ensures Shaped(job, p)
  {
    if |schedule| == 0 then Start(job)
    else Step(job, Run(job, schedule[..|schedule| - 1]), schedule[|schedule| - 1])
  }

  ghost function Turns(schedule: seq<nat>, id: nat): nat {
    if |schedule| == 0 then 0
    else Turns(schedule[..|schedule| - 1], id) + (if schedule[|schedule| - 1] == id then 1 else 0)
  }

  /** How far a goroutine is depends only on its own turns. */
  lemma {:induction false} NextIs(job: Job, schedule: seq<nat>, id: nat)
    requires job.Valid() && id < job.threads
    ensures var first, limit, n := job.First(id), job.Limit(id), Run(job, schedule).next[id];
            first <= n && (n == first || n <= limit)
            && (n == first + Turns(schedule, id) || (n <= first + Turns(schedule, id) && n >= limit))
    decreases |schedule|
  {
    hide WriteRow, Job.Item, Job.Batch;
    if |schedule| > 0 { NextIs(job, schedule[..|schedule| - 1], id); }
  }

  ghost function RowOf(dataset: seq<Word32>, r: nat): seq<Word32>
    requires r * 16 + 16 <= |dataset|
  {
    dataset[r * 16..r * 16 + 16]
  }

  lemma WriteRowReads(dataset: seq<Word32>, r: nat, row: seq<Word32>, k: nat)
    requires r * 16 + 16 <= |dataset| && |row| == 16 && k * 16 + 16 <= |dataset|
    ensures RowOf(WriteRow(dataset, r, row), k) == if k == r then row else RowOf(dataset, k)
  {
    if k < r {
      SpliceBefore(dataset, r * 16, row, k * 16);
    } else if k > r {
      SpliceAfter(dataset, r * 16, row, k * 16);
    } else {
      SpliceAt(dataset, r * 16, row);
    }
  }

  lemma SpliceAt(s: seq<Word32>, at: nat, row: seq<Word32>)
    requires at + 16 <= |s| && |row| == 16
    ensures (s[..at] + row + s[at + 16..])[at..at + 16] == row
  {
  }

  lemma SpliceBefore(s: seq<Word32>, at: nat, row: seq<Word32>, from: nat)
    requires from + 16 <= at && at + 16 <= |s| && |row| == 16
    ensures (s[..at] + row + s[at + 16..])[from..from + 16] == s[from..from + 16]
  {
  }

  lemma SpliceAfter(s: seq<Word32>, at: nat, row: seq<Word32>, from: nat)
    requires at + 16 <= from && from + 16 <= |s| && |row| == 16
    ensures (s[..at] + row + s[at + 16..])[from..from + 16] == s[from..from + 16]
  {
  }

  /** At any moment row r holds its item if its owner has passed it, and the old words if not. */
  lemma {:induction false} RowState(job: Job, schedule: seq<nat>, r: nat)
    requires job.Valid() && r < job.Rows()
    ensures job.Batch() > 0 && Owner(job, r) < job.threads && r * 16 + 16 <= |job.dest|
    ensures var p := Run(job, schedule);
            RowOf(p.dataset, r) == if r < p.next[Owner(job, r)] then job.Item(r) else RowOf(job.dest, r)
    decreases |schedule|
  {
    hide WriteRow, RowOf, Job.Item, Job.Batch;
    BatchesCover(job);
    RangesPartition(job, r, Owner(job, r));
    RowFits(job, r);
    if |schedule| > 0 {
      var before, id := schedule[..|schedule| - 1], schedule[|schedule| - 1];
      RowState(job, before, r);
      var p := Run(job, before);
      if id < job.threads && p.next[id] < job.Limit(id) {
        NextIs(job, before, id);
        RowFits(job, p.next[id]);
        WriteRowReads(p.dataset, p.next[id], job.Item(p.next[id]), r);
        RangesPartition(job, p.next[id], id);
      }
    }
  }

  /** Words past the last complete row are never written. */
  lemma {:induction false} TailKept(job: Job, schedule: seq<nat>)
    requires job.Valid()
    ensures 16 * job.Rows() <= |job.dest|
    ensures Run(job, schedule).dataset[16 * job.Rows()..] == job.dest[16 * job.Rows()..]
    decreases |schedule|
  {
    hide Job.Item, Job.Batch;
    if |schedule| > 0 {
      var before, id := schedule[..|schedule| - 1], schedule[|schedule| - 1];
      TailKept(job, before);
      var p := Run(job, before);
      if id < job.threads && p.next[id] < job.Limit(id) {
        WriteRowTail(p.dataset, p.next[id], job.Item(p.next[id]), 16 * job.Rows());
      }
    }
  }

  lemma SpliceTail(s: seq<Word32>, at: nat, row: seq<Word32>, from: nat)
    requires at + 16 <= from <= |s| && |row| == 16
    ensures (s[..at] + row + s[at + 16..])[from..] == s[from..]
  {
  }

  lemma WriteRowTail(dataset: seq<Word32>, r: nat, row: seq<Word32>, from: nat)
    requires r * 16 + 16 <= from <= |dataset| && |row| == 16
    ensures WriteRow(dataset, r, row)[from..] == dataset[from..]
  {
    SpliceTail(dataset, r * 16, row, from);
  }

  // ---------------------------------------------------------------- the dataset

  /** The dataset one loop over all rows would write. */
  ghost function Sequential(job: Job, n: nat): (d: seq<Word32>)
    requires job.Valid() && n <= job.Rows()
    ensures |d| == |job.dest|
  {
    if n == 0 then job.dest
    else
      RowFits(job, n - 1);
      WriteRow(Sequential(job, n - 1), n - 1, job.Item(n - 1))
  }

  lemma {:induction false} SequentialRow(job: Job, n: nat, r: nat)
    requires job.Valid() && n <= job.Rows() && r < job.Rows()
    ensures 16 * job.Rows() <= |job.dest| && r * 16 + 16 <= |job.dest|
    ensures RowOf(Sequential(job, n), r) == if r < n then job.Item(r) else RowOf(job.dest, r)
    ensures Sequential(job, n)[16 * job.Rows()..] == job.dest[16 * job.Rows()..]
    decreases n
  {
    hide WriteRow, RowOf, Job.Item;
    RowFits(job, r);
    if n > 0 {
      SequentialRow(job, n - 1, r);
      RowFits(job, n - 1);
      WriteRowReads(Sequential(job, n - 1), n - 1, job.Item(n - 1), r);
      WriteRowTail(Sequential(job, n - 1), n - 1, job.Item(n - 1), 16 * job.Rows());
    }
  }

  lemma InSlice(s: seq<Word32>, lo: nat, hi: nat, i: nat)
    requires lo <= i < hi <= |s|
    ensures s[lo..hi][i - lo] == s[i]
  {
  }

  lemma InTail(s: seq<Word32>, lo: nat, i: nat)
    requires lo <= i < |s|
    ensures s[lo..][i - lo] == s[i]
  {
  }

  lemma SameRows(a: seq<Word32>, b: seq<Word32>, rows: nat)
    requires |a| == |b| && 16 * rows <= |a| && a[16 * rows..] == b[16 * rows..]
    requires forall r: nat :: r < rows ==> RowEq(a, b, r)
    ensures a == b
  {
    forall i | 0 <= i < |a| ensures a[i] == b[i] {
      if i < 16 * rows {
        var r := i / 16;
        assert RowEq(a, b, r);
        InSlice(a, r * 16, r * 16 + 16, i);
        InSlice(b, r * 16, r * 16 + 16, i);
      } else {
        InTail(a, 16 * rows, i);
        InTail(b, 16 * rows, i);
      }
    }
  }

  ghost predicate RowEq(a: seq<Word32>, b: seq<Word32>, r: nat)
    requires |a| == |b| && r * 16 + 16 <= |a|
  {
    a[r * 16..r * 16 + 16] == b[r * 16..r * 16 + 16]
  }

  /** The goroutines have all run to their ends. */
  ghost predicate AllDone(job: Job, schedule: seq<nat>)
    requires job.Valid()
  {
    forall id :: 0 <= id < job.threads ==> Run(job, schedule).next[id] >= job.Limit(id)
  }

  /** They have once each of them has had as many turns as its batch has rows. */
  lemma EnoughTurns(job: Job, schedule: seq<nat>)
    requires job.Valid() && forall id :: 0 <= id < job.threads ==> Turns(schedule, id) >= job.Batch()
    ensures AllDone(job, schedule)
  {
    hide Run, Job.Batch;
    forall id | 0 <= id < job.threads ensures Run(job, schedule).next[id] >= job.Limit(id) {
      NextIs(job, schedule, id);
    }
  }

  /** Every interleaving of the goroutines, for any number of them, gives the dataset that one
      sequential loop gives. */
  lemma AnyInterleaving(job: Job, schedule: seq<nat>)
    requires job.Valid() && AllDone(job, schedule)
    ensures Run(job, schedule).dataset == Sequential(job, job.Rows())
  {
    hide Run, Sequential, Job.Item, Job.Batch, Owner;
    var a, b := Run(job, schedule).dataset, Sequential(job, job.Rows());
    TailKept(job, schedule);
    if job.Rows() > 0 { SequentialRow(job, job.Rows(), 0); }
    forall r: nat | r < job.Rows() ensures RowEq(a, b, r) {
      RowDone(job, schedule, r);
      SequentialRow(job, job.Rows(), r);
    }
    if job.Rows() == 0 { NoRows(job); }
    SameRows(a, b, job.Rows());
  }

  lemma NoRows(job: Job)
    requires job.Valid() && job.Rows() == 0
    ensures Sequential(job, 0) == job.dest
  {
  }

  /** So a miner may generate its dataset in parallel: hashimoto over it agrees with a verifier
      that only has the cache. */
  lemma ParallelDatasetServesHashimoto(job: Job, schedule: seq<nat>, k256: Hasher256, hash: seq<Byte>, nonce: seq<Byte>)
    requires job.Valid() && AllDone(job, schedule) && |hash| == 32 && |nonce| == 8
    requires MIX_BYTES <= |job.dest| * 4 && |job.dest| < TWO_32
    ensures var dataset := Run(job, schedule).dataset;
            HashimotoFull(job.k512, k256, dataset, hash, nonce).Some?
            && HashimotoFull(job.k512, k256, dataset, hash, nonce)
               == HashimotoLight(job.k512, k256, |dataset| * 4, job.cache, hash, nonce)
  {
    hide Run, AllDone, Generated, HashimotoFull, HashimotoLight;
    GeneratedInParallel(job, schedule);
    LightEqualsFull(job.k512, k256, job.cache, Run(job, schedule).dataset, hash, nonce);
  }

  lemma GeneratedInParallel(job: Job, schedule: seq<nat>)
    requires job.Valid() && AllDone(job, schedule) && |job.dest| < TWO_32
    ensures Generated(job.k512, job.cache, Run(job, schedule).dataset)
  {
    hide Run, AllDone, RowIs;
    var dataset := Run(job, schedule).dataset;
    forall r: nat | r < |dataset| / HASH_WORDS && r < TWO_32 ensures RowIs(job.k512, job.cache, dataset, r) {
      RowGenerated(job, schedule, r);
    }
  }

  lemma RowGenerated(job: Job, schedule: seq<nat>, r: nat)
    requires job.Valid() && AllDone(job, schedule) && r < |job.dest| / HASH_WORDS && r < TWO_32
    ensures RowIs(job.k512, job.cache, Run(job, schedule).dataset, r)
  {
    hide Run, AllDone, DatasetItem, WordsOf;
    RowDone(job, schedule, r);
  }

  lemma RowDone(job: Job, schedule: seq<nat>, r: nat)
    requires job.Valid() && AllDone(job, schedule) && r < job.Rows()
    ensures r * 16 + 16 <= |job.dest| && RowOf(Run(job, schedule).dataset, r) == job.Item(r)
  {
    hide Run, RowOf, Job.Item, Job.Batch, Job.First, Job.Limit, Job.Rows, Owner;
    BatchesCover(job);
    RangesPartition(job, r, Owner(job, r));
    RowState(job, schedule, r);
  }
}
