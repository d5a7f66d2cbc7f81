# Verification model of the storage contracts

This project models, in Dafny 4.11, the storage-rent contracts of the repository and the hash
programs that go with them, and proves what they promise. A Solidity revert, a Go panic and a C
division by zero appear as `None`, a rejected call or an excluded input, as said below. Hash
functions are parameters: a statement that rests on a hash being hard to collide says instead that
its conclusion holds *or the two computations it compares hash two different inputs to the same word
in one named step*.

## What is modelled

* **Prices** (`BinaryRelated`, `PowError`, `Rent`, `RentError`). Everything is priced by a Q128.128
  square-and-multiply power that truncates at every step. The loop reverts exactly when the exponent
  is positive and the factor is at least 1.0; otherwise its result is the real power rounded down by
  at most n units in the last place, and it never rises with n. Rent over consecutive intervals adds
  up to the rent over their union, less at most one wei per cut, and every price is measured against
  the discounted rent in real numbers.
* **The ledger and its shards** (`KvState`, `Transactions`, `Solvency`, `LedgerResults`, `MiningLib`,
  `DaggerKv`).
  `KvState` gives each transaction of the key-value contract with Dagger-Hashimoto mining as a
  function on its storage; the classes of `DaggerKv` run the same transactions step by step, with
  their loops and roll-backs, and are proved equal to those functions. A run is any sequence of
  puts (new, replacing, empty), removals, mining calls, deposits and clock ticks, reverted or not,
  from deployment on, also before `startTime`. The main result is solvency: the balance, plus what
  the rounding of the prices leaves uncovered at each opening of a shard (at most e - 1 wei, where e
  entries make a shard), covers all rent the payable shards can still claim and the refunds of the
  entries in the shard that is filling up. With that deposit every removal of a stored entry and
  every accepted proof is paid. `Transactions` says of each transaction exactly when it goes through
  and what it changes.
* **Filling a shard** (`ShardCover`). When the puts that fill a shard do cover the rent of the one
  they open.
* **The index and its backing store** (`KvStore`, `KvReads`). The three maps `kvMap`, `idxMap` and
  `dataMap` behave as one plain map from key to value, over every run, through swap-with-last removal.
* **The hash tree** (`MerkleTree`, `MerkleLib`, `NextPowerOf2`). The in-place folds, the proofs and
  their verification against the recursive tree root, with soundness, completeness and binding.
* **The index sampler** (`RandomAccess`), which draws entries bit group by bit group from a seed.
* **Hash programs**. Streaming SHA-512 (`Sha512`) against FIPS 180-4 (`Sha512Spec`): the logical
  functions bit by bit (`Sha512Logic`), the constants as roots of the first primes (`Primes`,
  `Sha512Constants`), the padding (`Sha512Padding`) and the digest of "abc" (`Sha512Example`); the scalar
  and the register-cached hashimoto (`DaggerAvx`, with `FnvMix`); Ethash items, light and full
  hashimoto (`Ethash`), the dataset written by many goroutines (`EthashParallel`) and its sizes
  (`EthashSizes`).

## What turned out not to hold

* The comment at contracts/DKVDaggerHashimoto.sol:82 says that the puts before the opening of a
  shard cover its payments. An opening put at the asked price lowers the surplus by exactly the gap
  between the rent of e entries and e separately rounded prices (`AppendSlack`). A shard filled at
  the asked prices covers the next one exactly when the higher prices its earlier entries paid make
  up that gap (`ShardCoveredIff`). No run needs a deposit exactly when e times the rounded-off part
  of the price stays below one wei at every time (`CoversEveryRunIff`). `ClaimFailsByOneWei` is a
  run of two entries in good order that ends one wei short, under any hash that tells their keys apart.
* A put whose commitment is zero, as for empty data, breaks the index: the entry is paid for and
  takes a slot, yet its key still counts as absent. `PutIndexIff` shows that this is the only way,
  `EmptyDataBreaksIndex` shows it on the first put of any deployment.
* A value of 2^24 bytes or more is recorded with its length modulo 2^24 and cannot be read back
  whole (`ReadBackIff`); where the configuration admits such values, the put goes through
  (`LongDataIsLost`).
* The unsigned subtractions of the difficulty rule can go below zero; no interval makes them do so
  exactly when cutoff <= target <= 2 * cutoff (`NeverUnderflowsIff`).
* `findNextPowerOf2` reverts for 0 and 1 and returns zero above 2^255.
* The sampler works up to 255 entry bits, not 256: `1 << 256` is zero and the draw divides by it.
* The dataset lookup of the full hashimoto reaches every row exactly below 2^32 words
  (`FullLookupExactIff`).

## Model

| member | source | states |
|---|---|---|
| BinaryRelated.PowLoop | contracts/BinaryRelated.sol:5-16 | pow succeeds exactly when n is 0 or the factor is below 1.0, so that no product then reaches 2^256, and returns the specified power |
| BinaryRelated.CarryNeverGains | contracts/BinaryRelated.sol:8-14 | passing from n to n + 1, the run of trailing ones truncates to at least what the single carried bit gives |
| BinaryRelated.PowNonIncreasing | contracts/BinaryRelated.sol:5-16 | pow never rises with the exponent, despite truncation at each step |
| PowError.PowFromLowerBound | contracts/BinaryRelated.sol:8-14 | from any accumulator, the loop loses at most one unit in the last place per unit of the exponent |
| PowError.PowFromUpperBound | contracts/BinaryRelated.sol:8-14 | from any accumulator, the loop never exceeds the real product |
| PowError.PowErrorBound | contracts/BinaryRelated.sol:5-16 | 2^128 x^n - n <= pow <= 2^128 x^n for every fraction x below 1 and every n |
| RentError.PaymentInfError | contracts/DecentralizedKV.sol:66-68 | the price never exceeds the real discounted rent and misses it by less than one wei and x * t / 2^128 |
| RentError.IntervalError | contracts/DecentralizedKV.sol:57-63 | what an interval pays is its real rent, within x * t1 / 2^128 above and one wei and x * t0 / 2^128 below |
| NextPowerOf2.ClearLowestBit | contracts/BinaryRelated.sol:20 | n & (n - 1) is smaller than n, is zero exactly for powers of two, and otherwise keeps the highest bit |
| NextPowerOf2.FindNextPowerOf2 | contracts/BinaryRelated.sol:18-22 | terminates with the least power of two >= n, less than 2n; reverts below 2; returns 0 above 2^255 |
| Rent.PaymentFits | contracts/DecentralizedKV.sol:66-68 | no payment product overflows and no payment exceeds its principal |
| Rent.PaymentNonIncreasing | contracts/DecentralizedKV.sol:66-68 | prices only fall with time |
| Rent.IntervalLeavesRest | contracts/DecentralizedKV.sol:57-68 | the subtraction of powers never underflows; an interval payment plus what is owed after it makes up what was owed before it, or one wei less |
| Rent.IntervalSplits | contracts/DecentralizedKV.sol:57-63 | cutting an interval in two loses at most one wei and gains none |
| Rent.PaidAlongBounds | contracts/DecentralizedKV.sol:57-77 | rent over k consecutive intervals is at most, and within k - 1 wei of, the rent over their union |
| Rent.BulkPrice | contracts/DecentralizedKV.sol:66-81 | e separate prices against the price of e entries: the difference is the carried remainder, below e |
| MiningLib.NeverUnderflowsIff | contracts/MiningLib.sol:22-36 | no interval makes the unsigned subtractions underflow if and only if cutoff <= target <= 2 * cutoff |
| MiningLib.DifficultyDirection | contracts/MiningLib.sol:12-38 | the difficulty stays at or above the minimum, does not fall after a fast block, does not rise after a slow one |
| MiningLib.LaterIsNotHarder | contracts/MiningLib.sol:12-38 | a later mining time never gives a higher difficulty, across the two branches |
| MiningLib.FastBlock | contracts/MiningLib.sol:23-28 | a block in the first cutoff period raises the difficulty d by d / divisor rounded down, a fast one in the second leaves it, subject to the minimum |
| MiningLib.FastBlockRaises | contracts/MiningLib.sol:23-28 | in the first cutoff period the difficulty strictly rises once it has reached the divisor |
| MiningLib.SlowBlock | contracts/MiningLib.sol:29-36 | a slow block in cutoff period k lowers the difficulty by (k - 1) * d / divisor rounded down, to the minimum at most |
| MiningLib.DifficultyDefined | contracts/MiningLib.sol:12-38 | with a sound tuning the rule reverts only for difficulties near the end of uint256 |
| KvState.DifficultiesLength | contracts/DKVDaggerHashimoto.sol:290-301 | when the difficulty loop passes, no shard in the range was mined after the claimed time |
| Solvency.PrepareKeepsPayable | contracts/DKVDaggerHashimoto.sol:76-88 | preparing a put writes no payable record; when a shard is about to fill, it stamps exactly the record that becomes payable |
| Solvency.AppendSlack | contracts/DecentralizedKV.sol:97-103 | an appending put raises the surplus by exactly what it pays above the price, less the gap of the moment when it opens a shard |
| Solvency.PutSlack | contracts/DecentralizedKV.sol:91-115 | the exact change of the surplus by any put: its value, less the price for a new key and the gap when it opens a shard |
| Solvency.RemoveSlack | contracts/DecentralizedKV.sol:160-182 | the exact change of the surplus by a removal: none, or the rest of the claim of a shard that becomes unpayable, which is never negative |
| Solvency.LostShardCovers | contracts/DKVDaggerHashimoto.sol:304-306 | the claim of the last payable shard is worth at least e refunds |
| Solvency.RewardWithinClaims | contracts/DKVDaggerHashimoto.sol:318-331 | the reward loop pays the claims it extinguishes, less at most one wei for each payable shard of its range, and leaves later records untouched |
| Solvency.MineSlack | contracts/DKVDaggerHashimoto.sol:345-373 | mining keeps the ledger invariant and raises the surplus by at most one wei for each payable shard of the range |
| Solvency.StepSlack | contracts/DKVDaggerHashimoto.sol:76-88 | every step keeps the ledger invariant (payable records carry times between startTime and now) and loses at most the gap of the moment, when it opens a shard |
| Solvency.GapsBound | contracts/DecentralizedKV.sol:66-81 | over a run the gaps stay below one wei for each entry of an opened shard |
| Solvency.DeployedLedger | contracts/DKVDaggerHashimoto.sol:67-71 | a deployment owes the rent of shards 0 and 1 and nothing else |
| Solvency.RunSolvent | contracts/DKVDaggerHashimoto.sol:76-88 | in every run from deployment the balance plus the gaps at the openings covers all rent the payable shards can still claim and the refunds of the entries in the filling shard |
| LedgerResults.PrefundedRun | contracts/DKVDaggerHashimoto.sol:82 | a deposit of the gaps of a run, or of e - 1 wei per opening, keeps it free of a shortfall |
| LedgerResults.RemovalIsFunded | contracts/DecentralizedKV.sol:160-182 | without a shortfall a removal succeeds exactly when the key is stored and the store is not empty |
| LedgerResults.MiningIsFunded | contracts/DKVDaggerHashimoto.sol:332-336 | without a shortfall and with a share of at most 10000, every accepted proof is paid in full |
| LedgerResults.StoredEntriesAreRefundable | contracts/DecentralizedKV.sol:160-182 | over whole runs: with the deposit, a removal goes through exactly for the keys a plain map would hold |
| ShardCover.Filling | contracts/DKVDaggerHashimoto.sol:76-88 | n puts into an empty shard, at any times: which entries then exist, and the surplus as what was paid less n prices at the end, less the gap if the shard is full |
| ShardCover.ShardCoveredIff | contracts/DKVDaggerHashimoto.sol:82 | the puts that fill a shard cover the one they open if and only if what they paid above the last price makes up the gap |
| ShardCover.CoversEveryRunIff | contracts/DKVDaggerHashimoto.sol:82 | given e keys that do not collide and a storable value: the comment holds of every run if and only if at every time e times the rounded-off part of the price is below one wei |
| ShardCover.CleanRounding | contracts/DKVDaggerHashimoto.sol:82 | under that condition no run at all needs a deposit |
| ShardCover.ClaimFailsByOneWei | contracts/DKVDaggerHashimoto.sol:82 | under any hash that tells their keys apart, two entries put at the asked price and stored in good order leave the contract one wei short |
| LedgerResults.PayableOnlyByOpening | contracts/DKVDaggerHashimoto.sol:76-88 | a shard becomes payable only by the append that fills its predecessor, which stamped its record with the current time |
| LedgerResults.PutsKeepPayableRecords | contracts/DKVDaggerHashimoto.sol:90-92 | no put, appending or replacing, touches a payable record |
| Transactions.PrepareIff | contracts/DKVDaggerHashimoto.sol:76-88 | preparing a put reverts exactly when the next index or shard number leaves uint40 |
| Transactions.PrepareStamps | contracts/DKVDaggerHashimoto.sol:76-92 | the one record a put may rewrite, with the current time and the hash of the shard before it, and no other |
| Transactions.PutAnswer | contracts/DecentralizedKV.sol:91-115 | a put goes through if and only if there is room, the data is not too large, and the key is stored already or the price is paid; it takes exactly its value and appends exactly a new key |
| Transactions.RemoveAnswer | contracts/DecentralizedKV.sol:160-182 | a removal goes through if and only if the key is stored, startTime has come and the balance covers the price; it pays out exactly the price |
| Transactions.PutThenRemove | contracts/DecentralizedKV.sol:91-182 | putting a new key at the asked price and removing it in the same second restores balance, plain map and index length |
| Transactions.DifficultiesIff | contracts/DKVDaggerHashimoto.sol:277-302 | the difficulty loop passes if and only if every difficulty is defined and their sum fits; it returns each of them and the sum |
| Transactions.MineAccepts | contracts/DKVDaggerHashimoto.sol:345-373 | a digest is accepted if and only if the time is not in the future, the difficulties are defined, and digest times total difficulty is below 2^256 |
| Transactions.RewardedAdvances | contracts/DKVDaggerHashimoto.sol:320-331 | the reward loop updates exactly the payable records of its range, each once: time, hash, its own difficulty, one more block |
| Transactions.MinedRecord | contracts/MiningLib.sol:40-51 | after an accepted proof every payable record of the range holds its time, its hash, the difficulty of the rule and one more block; all others are as before |
| Transactions.CoinbaseShare | contracts/DKVDaggerHashimoto.sol:332 | the coinbase gets its share in parts of ten thousand, rounded down |
| Transactions.MinePays | contracts/DKVDaggerHashimoto.sol:308-336 | the balance falls by the claims given up, less at most one wei a shard, and nothing but records and balance changes |
| LedgerResults.MineTimeAdvances | contracts/MiningLib.sol:40-51 | while a shard stays payable its last mining time never goes back |
| DaggerKv.TestStorageManager.GetRaw | contracts/TestStorageManager.sol:12-34 | reverts on a commitment mismatch, otherwise copies the clipped range |
| DaggerKv.DecentralizedKVDaggerHashimoto.constructor | contracts/DKVDaggerHashimoto.sol:38-72 | shards 0 and 1 start ready to mine |
| DaggerKv.DecentralizedKVDaggerHashimoto.UpfrontPayment | contracts/DecentralizedKV.sol:79-86 | the current price, or a revert before startTime |
| DaggerKv.DecentralizedKVDaggerHashimoto.PaymentIn | contracts/DecentralizedKV.sol:71-77 | the interval payment with its three checked subtractions and its checked product, which no principal below 2^128 overflows |
| DaggerKv.DecentralizedKVDaggerHashimoto.PreparePut | contracts/DKVDaggerHashimoto.sol:76-88 | the next shard's record, with the checked uint40 additions |
| DaggerKv.DecentralizedKVDaggerHashimoto.Put | contracts/DecentralizedKV.sol:91-115 | the whole state after a put, or the unchanged state after a revert |
| DaggerKv.DecentralizedKVDaggerHashimoto.RemoveTo | contracts/DecentralizedKV.sol:160-182 | the whole state after a removal and the refund taken from the balance, or no change |
| DaggerKv.DecentralizedKVDaggerHashimoto.Get | contracts/DecentralizedKV.sol:130-157 | the read through the storage manager |
| DaggerKv.DecentralizedKVDaggerHashimoto.Verify | contracts/DecentralizedKV.sol:190-202 | the answer on size and commitment, or a revert for an absent key |
| DaggerKv.DecentralizedKVDaggerHashimoto.CalculateDiff | contracts/DKVDaggerHashimoto.sol:277-302 | the difficulties of the range and their checked sum |
| DaggerKv.DecentralizedKVDaggerHashimoto.RewardMiner | contracts/DKVDaggerHashimoto.sol:308-331 | the reward and the new records, or the old records after a revert |
| DaggerKv.DecentralizedKVDaggerHashimoto.Mine | contracts/DKVDaggerHashimoto.sol:345-373 | coinbase and miner together get exactly what leaves the balance; the coinbase gets its share |
| KvStore.PutIndexIff | contracts/DecentralizedKV.sol:97-106 | a put keeps index and key map inverse to each other if and only if the commitment of the data is nonzero |
| KvStore.FirstPut | contracts/DecentralizedKV.sol:91-115 | the first put of any deployment goes through at the asked price |
| KvStore.EmptyDataBreaksIndex | contracts/DecentralizedKV.sol:97-106 | the first put of any deployment, paid and empty, takes slot 0 for a key that stays absent |
| KvStore.PutRefines | contracts/DecentralizedKV.sol:91-115 | a representable put sets its key in the plain map and nothing else |
| KvStore.RemoveKeepsIndex | contracts/DecentralizedKV.sol:167-177 | swap-with-last keeps index and key map inverse to each other |
| KvStore.RemoveRefines | contracts/DecentralizedKV.sol:160-182 | a removal deletes its key in the plain map and moves no other value, whichever entry was last |
| KvReads.ChunkSizesAgree | contracts/TestStorageManager.sol:9-20 | contract and manager commit alike when their chunk sizes are equal or the data fits in one chunk of both |
| KvReads.GetRefines | contracts/DecentralizedKV.sol:130-157 | get returns the clipped slice of the plain map's value, nothing for an absent key, and reverts exactly on an overflowing range or a commitment mismatch |
| KvReads.ReadBackIff | contracts/DecentralizedKV.sol:104 | after a put the value can be read back whole if and only if it has fewer than 2^24 bytes |
| KvReads.LongDataIsLost | contracts/DecentralizedKV.sol:91-115 | where longer values are admitted, the first put of one succeeds, stores it, and get does not return it |
| KvReads.VerifyBinds | contracts/DecentralizedKV.sol:190-202 | data that verify accepts is the stored value, or in one step on the way from one chunk the trees over the two hash different inputs alike, in 24 bytes at the root and in full below it |
| KvReads.VerifyAccepts | contracts/DecentralizedKV.sol:190-202 | verify answers for exactly the stored keys and accepts the stored value |
| KvReads.StepRefines | contracts/DecentralizedKV.sol:91-182 | every transaction does to the plain map what it should, mining and time nothing |
| KvReads.RunRefines | contracts/DecentralizedKV.sol:91-182 | over every run of representable puts the index stays a bijection and the store holds what a plain map would |
| KvReads.RunReads | contracts/DecentralizedKV.sol:130-157 | after any such run get returns the clipped slice of the last value put |
| KvReads.OthersUnaffected | contracts/DecentralizedKV.sol:94 | a transaction leaves the value of any other sender and key as it was, or the two pairs collide |
| MerkleTree.LevelKeepsRoot | contracts/MerkleLib.sol:31-39 | hashing one level pairwise, bottom up, keeps the top-down recursive root |
| MerkleTree.Completeness | contracts/MerkleLib.sol:83-97 | the sibling path of a leaf leads from it to the root |
| MerkleTree.Soundness | contracts/MerkleLib.sol:99-117 | a hash that climbs to the root of a leaf array is the leaf at that index, or in some step the climb and the tree hash two different inputs to the same word |
| MerkleTree.LeafBinding | contracts/MerkleLib.sol:31-39 | two trees with the same root agree at any given leaf, or on the way from that leaf they hash different pairs to the same word |
| MerkleTree.RootBinding | contracts/MerkleLib.sol:31-39 | two leaf arrays of one width with the same root are equal, or on the way from a leaf where they differ they hash different pairs to the same word |
| MerkleTree.MinRootBinding | contracts/MerkleLib.sol:42-75 | two byte strings of one length with the same minimal root are equal, or on the way from a chunk where they differ the two trees hash different inputs to the same word |
| MerkleTree.TwoChunkRoot | contracts/MerkleLib.sol:42-75 | the minimal root of two chunks is the hash of the first chunk hash and the second, in this order |
| MerkleTree.ThreeChunkRoot | contracts/MerkleLib.sol:42-75 | the minimal root of three chunks, with zero for the missing fourth |
| MerkleTree.DeeperRoot | contracts/MerkleLib.sol:13-39 | once the data fits, one more level hashes the root with an all-zero subtree |
| MerkleTree.MinRootDeepened | contracts/MerkleLib.sol:42-75 | the root at any sufficient depth is the minimal root with the missing zero subtrees hashed in |
| MerkleLib.FillLeaves | contracts/MerkleLib.sol:14-30 | the leaves are the chunk hashes, the last chunk short, and zero past the data |
| MerkleLib.FoldLevel | contracts/MerkleLib.sol:33-35 | one in-place pass leaves the pairwise hashes of the old nodes |
| MerkleLib.FoldToRoot | contracts/MerkleLib.sol:31-39 | the in-place fold returns the recursive root for every power-of-two width |
| MerkleLib.MerkleRoot | contracts/MerkleLib.sol:8-40 | the root of the leaf array at the given depth |
| MerkleLib.MerkleRootWithMinTree | contracts/MerkleLib.sol:42-75 | the root at the least sufficient depth, zero for empty data, a revert for chunk size zero |
| MerkleLib.NextIsLeast | contracts/MerkleLib.sol:47-48 | findNextPowerOf2 picks exactly the width of the least sufficient depth |
| MerkleLib.CalculateRootWithProof | contracts/MerkleLib.sol:99-117 | the loop climbs to the root; an index with too many bits reverts |
| MerkleLib.Verify | contracts/MerkleLib.sol:78-97 | an accepted proof pins the leaf of every tree with that root and depth, or the climb of the proof and that very tree collide in some step |
| MerkleLib.SiblingPath | contracts/MerkleLib.sol:144-157 | the siblings read before each in-place fold are those of the original leaves |
| MerkleLib.GetProof | contracts/MerkleLib.sol:119-158 | the sibling path of the chunk, or a revert for an index out of scope |
| MerkleLib.ProofVerifies | contracts/MerkleLib.sol:78-158 | for all data, chunk sizes, depths and indices, also past the data, the proof handed out verifies |
| RandomAccess.SeedUsedUp | contracts/DecentralizedKVMinable.sol:111-113 | too few bits are left exactly after the last digit a seed yields |
| RandomAccess.DigitsRebuild | contracts/DecentralizedKVMinable.sol:103-112 | the digits drawn from a seed are its own: put together they give its low bits, none twice and none skipped |
| RandomAccess.CalculateRandomAccess | contracts/DecentralizedKVMinable.sol:86-119 | index i is the start plus digit i mod q of the seed rehashed i / q times; sizes come from the index; the reverting inputs exactly |
| RandomAccess.SampleInMinedShards | contracts/DecentralizedKVMinable.sol:95-103 | every index lies in one of the mined shards |
| Sha512Spec.ReverseLittleIsBig | scripts/dagger/sha512.c:118-125 | a little-endian load followed by REVERSE64 is the big-endian word |
| Sha512Spec.ReverseBytes | scripts/dagger/sha512.c:118-125 | REVERSE64 reverses the eight bytes of a word |
| Sha512Logic.ChBit | scripts/dagger/sha512.c:190 | each bit of Ch is chosen by x between y and z |
| Sha512Logic.MajBit | scripts/dagger/sha512.c:191 | each bit of Maj is the majority of the three |
| Sha512Logic.BigSigma0Bit | scripts/dagger/sha512.c:194 | each bit is the exclusive or of the bits 28, 34 and 39 places on, around the word |
| Sha512Logic.BigSigma1Bit | scripts/dagger/sha512.c:195 | the same for 14, 18 and 41 |
| Sha512Logic.SmallSigma0Bit | scripts/dagger/sha512.c:196 | the same for 1, 8 and a shift by 7 that brings in zeros |
| Sha512Logic.SmallSigma1Bit | scripts/dagger/sha512.c:197 | the same for 19, 61 and a shift by 6 |
| Primes.FirstPrimes | scripts/dagger/sha512.c:201-242 | the eighty primes behind the round constants are, in order, all primes up to 409 |
| Sha512Constants.RoundConstant | scripts/dagger/sha512.c:201-242 | round constant t holds the first 64 bits of the fraction of the cube root of the t-th prime |
| Sha512Constants.InitialWord | scripts/dagger/sha512.c:245-254 | word t of the initial hash value holds the first 64 bits of the fraction of the square root of the t-th prime |
| Sha512Padding.PadShape | scripts/dagger/sha512.c:397-438 | the padded message is the message, a one bit, zeros and the bit length as a 128-bit number, in the fewest blocks |
| Sha512Padding.PadInjective | scripts/dagger/sha512.c:397-438 | below 2^128 bits different messages are padded differently |
| Sha512Example.AbcDigest | scripts/dagger/sha512.c:469-477 | the digest of "abc" is the one FIPS 180-4 gives, through all eighty rounds |
| Sha512.Sha512Context.constructor | scripts/dagger/sha512.c:262-269 | a fresh context has seen nothing |
| Sha512.Sha512Context.FirstRounds | scripts/dagger/sha512.c:287-309 | sixteen rounds over the reversed block, loaded in place even when the data is the buffer itself |
| Sha512.NextScheduled | scripts/dagger/sha512.c:313-320 | the circular slot update gives the schedule word of section 6.4.2 of FIPS 180-4 |
| Sha512.Sha512Context.LaterRounds | scripts/dagger/sha512.c:311-332 | the sixteen-word circular schedule runs the remaining sixty-four rounds |
| Sha512.Sha512Context.Transform | scripts/dagger/sha512.c:271-346 | one block is compressed into the state, buffer and data aliased or not |
| Sha512.CountStep | scripts/dagger/sha512.c:136-141 | ADDINC128 carries exactly when the low half wraps |
| Sha512.Used | scripts/dagger/sha512.c:360 | the used part of the buffer can be read off the low half of the bit counter |
| Sha512.Sha512Context.Update | scripts/dagger/sha512.c:348-395 | counter, buffer prefix and chaining state account for exactly the bytes seen so far plus the new ones |
| Sha512.PaddedShort | scripts/dagger/sha512.c:407-430 | the padded message ends in one block when the rest leaves room for the length |
| Sha512.PaddedLong | scripts/dagger/sha512.c:414-423 | otherwise it ends in two |
| Sha512.Sha512Context.Last | scripts/dagger/sha512.c:397-438 | padding and final blocks give the hash of the padded message of section 5.1.2 of FIPS 180-4 |
| Sha512.Sha512Context.Final | scripts/dagger/sha512.c:440-467 | the big-endian digest of everything seen, and a wiped context |
| Sha512.OneShot | scripts/dagger/sha512.c:469-477 | the SHA-512 digest, written over its own input if so asked |
| Sha512.HashPieces | scripts/dagger/sha512.c:348-467 | however a message is cut into Update calls, the digest is that of section 6.4 of FIPS 180-4 on the whole |
| FnvMix.FoldInPlace | scripts/dagger/dagger_32.c:153-155 | the final compression in place reads no word after overwriting it |
| FnvMix.FnvCancels | scripts/dagger/dagger_32.c:50-52 | the second word can be taken out again, and what is left is the first times the prime |
| DaggerAvx.Hashimoto | scripts/dagger/dagger_32.c:131-158 | the scalar version leaves the folded final mix |
| DaggerAvx.DrawnRow | scripts/dagger/dagger_32.c:147 | the row a round draws, from the round, the seed and the mix |
| DaggerAvx.ResultOverZeros | scripts/dagger/dagger_32.c:131-158 | over a dataset of zeros: sixty-four multiplications of each hash word, and the fold of four |
| DaggerAvx.FlushGroup | scripts/dagger/dagger_32.c:187-196 | storing one register makes memory current at the word about to be read |
| DaggerAvx.LaneMix | scripts/dagger/dagger_32.c:207-208 | multiply and xor on a register is fnv32 on its words |
| DaggerAvx.HashimotoAvx | scripts/dagger/dagger_32.c:160-230 | the register-cached version leaves exactly what the scalar version leaves, for all inputs with at least one row |
| Ethash.FnvHash | scripts/dagger/golang/ethash.go:240-244 | every word of data is mixed into the word at its place |
| Ethash.LittleEndian | scripts/dagger/golang/ethash.go:264 | a word read from four bytes, in arithmetic |
| Ethash.WordsRoundTrip | scripts/dagger/golang/ethash.go:264-274 | words written as bytes read back as the same words |
| Ethash.DrawnParent | scripts/dagger/golang/ethash.go:268 | the cache row drawn for a parent, from the index, the parent and the mix |
| Ethash.ZeroItem | scripts/dagger/golang/ethash.go:248-277 | over a cache of zeros the item is the hash of two hundred and fifty-six multiplications of the hash of the index |
| Ethash.DrawnAccess | scripts/dagger/golang/ethash.go:414 | the rows drawn by an access, from the access, the seed and the mix |
| Ethash.MixedOverZeros | scripts/dagger/golang/ethash.go:405-421 | over rows of zeros every access multiplies each word of the seed by the prime |
| Ethash.GenerateDatasetItem | scripts/dagger/golang/ethash.go:248-277 | the item as a function of cache and index; panics exactly on a cache without rows |
| Ethash.RunHashimotoEx | scripts/dagger/golang/ethash.go:399-431 | the loop over a mutable mix computes the specified digest pair, and panics exactly when a lookup or the row count does |
| Ethash.FullLookupExactIff | scripts/dagger/golang/ethash.go:455-458 | the uint32 slice bounds reach every dataset row if and only if it has fewer than 2^32 words |
| Ethash.LightEqualsFull | scripts/dagger/golang/ethash.go:436-460 | light and full hashimoto agree, and do not panic, on a generated dataset of at least one row and fewer than 2^32 words |
| EthashParallel.RangesPartition | scripts/dagger/golang/ethash.go:359-364 | each row lies in the range of exactly one goroutine |
| EthashParallel.RowState | scripts/dagger/golang/ethash.go:367-372 | at any moment of any interleaving a row holds its item exactly when its goroutine has passed it |
| EthashParallel.EnoughTurns | scripts/dagger/golang/ethash.go:380-381 | all goroutines are done once each has had as many turns as its batch has rows |
| EthashParallel.AnyInterleaving | scripts/dagger/golang/ethash.go:351-381 | every finished interleaving, for any number of goroutines, gives the sequential dataset |
| EthashParallel.ParallelDatasetServesHashimoto | scripts/dagger/golang/ethash.go:317-460 | over a dataset generated in parallel, full hashimoto agrees with light |
| EthashSizes.CalcCacheSize | scripts/dagger/golang/ethash.go:71-77 | the largest prime number of 64-byte rows below the epoch's linear bound |
| EthashSizes.CalcDatasetSize | scripts/dagger/golang/ethash.go:92-98 | the largest prime number of 128-byte rows below the epoch's linear bound |

## Left out

- Proof checking in `mine` (contracts/DKVDaggerHashimoto.sol:148-274): the Hashimoto digest of the submitted data is an input that may be absent; the seed hash of the range, which only feeds it, is not computed.
- Transfers are balance changes; failing recipients, reentrancy, gas, events and ABI encoding are not part of this model.
- `KvState.Config.Valid` asks for a dcfFactor below 2^128, a shard principal below 2^128 and fewer than 256 shard entry bits: outside these the contract deploys but every price, or every put, reverts.
- `blockMined + 1` is not checked against 2^256.
- Keccak-256 is applied to byte strings and to pairs of words as two disjoint kinds of input; that a 64-byte chunk and a pair of words have the same encoding is not modelled.
- MerkleLib.MerkleRoot: asks for fewer than 256 chunk bits; at 256 the width shifts to zero and the loop never ends.
- MerkleLib.GetProof: the same bound on the chunk bits.
- MerkleLib.MerkleRootWithMinTree: data below 2^64 bytes, more than memory can hold.
- DaggerKv.DecentralizedKVDaggerHashimoto.Put: data below 2^64 bytes, more than memory can hold.
- DaggerAvx.Hashimoto: the mix buffer is separate from the hash and the dataset; dataset and mix of the 32-bit program are word arrays.
- DaggerAvx.HashimotoAvx: the same.
- EthashSizes.CalcCacheSize: epochs whose linear bound stays below 2^64; beyond it the Go arithmetic wraps.
- EthashSizes.CalcDatasetSize: the same.
- Ethash.LightEqualsFull: header hashes of 32 bytes and nonces of 8.
- The base contract's own `put` without shards, and the copy of the ledger in contracts/DecentralizedKVMinable.sol, repeat what is modelled.
- `size` and `exist` of the contract are single reads of the record that `verify` and `get` read.
- Cache generation, `generateMaskItem`, `calculate_dataset_item` and its variants: the same mixing as dataset items.
- The progress report of `generateDataset`, which divides by a hundredth of the row count and so panics below a hundred rows; logging, timing, slice headers and the byte swap of big-endian hosts.
- The big-endian build of scripts/dagger/sha512.c; the size tables; contracts/CallerLibraries.sol and the precompile test contract; the Python scripts.
