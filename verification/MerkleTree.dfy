/** The hash tree of contracts/MerkleLib.sol as a function of its leaves, and what holds of it. */
module MerkleTree {
  import opened Words
  import opened Arithmetic

  function HashPair(keccak: Keccak, a: Word, b: Word): Word {
    keccak(Pair(a, b))
  }

  // ---------------------------------------------------------------- the tree

  /** The root, top down: the hash of the roots of the two halves. Meant for 2^k nodes. */
  ghost function TreeRoot(keccak: Keccak, nodes: seq<Word>, k: nat): Word
    decreases k
  {
    if k == 0 then if |nodes| == 0 then ZERO_WORD else nodes[0]
    else
      var half := |nodes| / 2;
      HashPair(keccak, TreeRoot(keccak, nodes[..half], k - 1), TreeRoot(keccak, nodes[half..], k - 1))
  }

  /** One level of the bottom-up computation: neighbours hashed pairwise. */
  function Level(keccak: Keccak, nodes: seq<Word>): (up: seq<Word>)
    ensures |up| == |nodes| / 2
    ensures forall i :: 0 <= i < |up| ==> up[i] == HashPair(keccak, nodes[2 * i], nodes[2 * i + 1])
  {
    seq(|nodes| / 2, i requires 0 <= i < |nodes| / 2 => HashPair(keccak, nodes[2 * i], nodes[2 * i + 1]))
  }

  lemma LevelConcat(keccak: Keccak, a: seq<Word>, b: seq<Word>, n: nat)
    requires |a| == |b| == 2 * n
    ensures Level(keccak, a + b) == Level(keccak, a) + Level(keccak, b)
  {
  }

  lemma TreeRootConcat(keccak: Keccak, a: seq<Word>, b: seq<Word>, k: nat)
    requires |a| == |b|
    ensures TreeRoot(keccak, a + b, k + 1) == HashPair(keccak, TreeRoot(keccak, a, k), TreeRoot(keccak, b, k))
  {
    assert (a + b)[..|a|] == a && (a + b)[|a|..] == b;
  }

  lemma Halves(nodes: seq<Word>, n: nat) returns (a: seq<Word>, b: seq<Word>)
    requires |nodes| == 2 * n
    ensures nodes == a + b && |a| == |b| == n
  {
    a, b := nodes[..n], nodes[n..];
  }

  /** Folding one level, bottom up, keeps the root. */
  lemma {:induction false} LevelKeepsRoot(keccak: Keccak, nodes: seq<Word>, k: nat)
    requires |nodes| == 2 * Pow2(k)
    ensures TreeRoot(keccak, Level(keccak, nodes), k) == TreeRoot(keccak, nodes, k + 1)
    decreases k, 1
  {
    var a, b := Halves(nodes, Pow2(k));
    TreeRootConcat(keccak, a, b, k);
    if k == 0 {
      assert TreeRoot(keccak, a, 0) == nodes[0] && TreeRoot(keccak, b, 0) == nodes[1];
    } else {
      LevelKeepsRootOfHalves(keccak, a, b, k - 1);
    }
  }

  lemma {:induction false} LevelKeepsRootOfHalves(keccak: Keccak, a: seq<Word>, b: seq<Word>, j: nat)
    requires |a| == |b| == 2 * Pow2(j)
    ensures TreeRoot(keccak, Level(keccak, a + b), j + 1)
            == HashPair(keccak, TreeRoot(keccak, a, j + 1), TreeRoot(keccak, b, j + 1))
    decreases j + 1, 0
  {
    LevelKeepsRoot(keccak, a, j);
    LevelKeepsRoot(keccak, b, j);
    LevelConcat(keccak, a, b, Pow2(j));
    TreeRootConcat(keccak, Level(keccak, a), Level(keccak, b), j);
  }

  // ---------------------------------------------------------------- inclusion proofs

  function Sibling(i: nat): (j: nat)
    ensures j == if i % 2 == 0 then i + 1 else i - 1
  {
    i / 2 * 2 + 1 - i % 2
  }

  lemma LevelAt(keccak: Keccak, nodes: seq<Word>, i: nat, n: nat)
    requires |nodes| == 2 * n && i < |nodes|
    ensures Sibling(i) < |nodes| && i / 2 < n
    ensures Level(keccak, nodes)[i / 2] == keccak(PairAt(nodes[i], nodes[Sibling(i)], i))
  {
    var h := i / 2;
    assert i == 2 * h || i == 2 * h + 1;
  }

  /** A node and its sibling, in the order their parent hashes them. */
  function PairAt(hash: Word, sibling: Word, i: nat): Preimage {
    if i % 2 == 0 then Pair(hash, sibling) else Pair(sibling, hash)
  }

  /** The root that a leaf hash and its proof lead to. */
  function Climb(keccak: Keccak, hash: Word, idx: nat, proofs: seq<Word>): Word
    decreases |proofs|
  {
    if |proofs| == 0 then hash
    else Climb(keccak, keccak(PairAt(hash, proofs[0], idx)), idx / 2, proofs[1..])
  }

  function At(nodes: seq<Word>, i: nat): Word {
    if i < |nodes| then nodes[i] else ZERO_WORD
  }

  /** The siblings met on the way from leaf idx to the root. */
  ghost function ProofOf(keccak: Keccak, nodes: seq<Word>, k: nat, idx: nat): (proofs: seq<Word>)
    ensures |proofs| == k
    decreases k
  {
    if k == 0 then []
    else [At(nodes, Sibling(idx))] + ProofOf(keccak, Level(keccak, nodes), k - 1, idx / 2)
  }

  lemma ClimbCons(keccak: Keccak, hash: Word, idx: nat, sibling: Word, rest: seq<Word>)
    ensures Climb(keccak, hash, idx, [sibling] + rest)
            == Climb(keccak, keccak(PairAt(hash, sibling, idx)), idx / 2, rest)
  {
    assert ([sibling] + rest)[1..] == rest;
  }

  lemma OneNode(keccak: Keccak, nodes: seq<Word>, k: nat)
    requires |nodes| == Pow2(k) && (k == 0 || |nodes| == 1)
    ensures k == 0 && |nodes| == 1 && TreeRoot(keccak, nodes, 0) == nodes[0]
  {
  }

  /** Completeness: the proof of a leaf leads from that leaf to the root. */
  lemma {:induction false} Completeness(keccak: Keccak, nodes: seq<Word>, k: nat, idx: nat)
    requires |nodes| == Pow2(k) && idx < |nodes|
    ensures Climb(keccak, nodes[idx], idx, ProofOf(keccak, nodes, k, idx)) == TreeRoot(keccak, nodes, k)
    decreases k
  {
    hide TreeRoot, HashPair, PairAt, Level;
    if k == 0 {
      OneNode(keccak, nodes, k);
    } else {
      LevelKeepsRoot(keccak, nodes, k - 1);
      Completeness(keccak, Level(keccak, nodes), k - 1, idx / 2);
      ClimbLevel(keccak, nodes, k, idx);
    }
  }

  lemma ClimbLevel(keccak: Keccak, nodes: seq<Word>, k: nat, idx: nat)
    requires k > 0 && |nodes| == 2 * Pow2(k - 1) && idx < |nodes|
    ensures var up := Level(keccak, nodes);
            idx / 2 < |up|
            && Climb(keccak, nodes[idx], idx, ProofOf(keccak, nodes, k, idx))
               == Climb(keccak, up[idx / 2], idx / 2, ProofOf(keccak, up, k - 1, idx / 2))
  {
    hide HashPair, PairAt, Climb;
    LevelAt(keccak, nodes, idx, Pow2(k - 1));
    ClimbCons(keccak, nodes[idx], idx, nodes[Sibling(idx)], ProofOf(keccak, Level(keccak, nodes), k - 1, idx / 2));
  }

  // ---------------------------------------------------------------- what the root commits to

  /** The j-th input hashed on the climb from hash at idx. */
  function ClimbInput(keccak: Keccak, hash: Word, idx: nat, proofs: seq<Word>, j: nat): Preimage
    requires j < |proofs|
    decreases j
  {
    var first := PairAt(hash, proofs[0], idx);
    if j == 0 then first else ClimbInput(keccak, keccak(first), idx / 2, proofs[1..], j - 1)
  }

  /** The j-th pair of nodes hashed in the tree on the way from leaf idx to the root. */
  ghost function TreeInput(keccak: Keccak, nodes: seq<Word>, idx: nat, j: nat): Preimage
    decreases j
  {
    if j == 0 then PairAt(At(nodes, idx), At(nodes, Sibling(idx)), idx)
    else TreeInput(keccak, Level(keccak, nodes), idx / 2, j - 1)
  }

  /** One level up: half the width, the same root, and the parent of leaf idx at idx / 2. */
  lemma LevelUp(keccak: Keccak, nodes: seq<Word>, k: nat, idx: nat)
    requires k > 0 && |nodes| == Pow2(k) && idx < |nodes|
    ensures var up := Level(keccak, nodes);
            |up| == Pow2(k - 1) && idx / 2 < |up|
            && TreeRoot(keccak, nodes, k) == TreeRoot(keccak, up, k - 1)
            && up[idx / 2] == keccak(TreeInput(keccak, nodes, idx, 0))
            && TreeInput(keccak, nodes, idx, 0) == PairAt(nodes[idx], At(nodes, Sibling(idx)), idx)
  {
    hide TreeRoot, HashPair, PairAt;
    LevelKeepsRoot(keccak, nodes, k - 1);
    LevelAt(keccak, nodes, idx, Pow2(k - 1));
  }

  /** Soundness: a hash that climbs to the root is the leaf at that place, or the climb and the
      tree hash two different inputs to the same word in step j. */
  lemma {:induction false} Soundness(keccak: Keccak, nodes: seq<Word>, k: nat, idx: nat,
                                     hash: Word, proofs: seq<Word>)
    returns (j: nat)
    requires |nodes| == Pow2(k) && idx < |nodes| && |proofs| == k
    requires Climb(keccak, hash, idx, proofs) == TreeRoot(keccak, nodes, k)
    ensures hash == nodes[idx]
            || (j < k && Collision(keccak, ClimbInput(keccak, hash, idx, proofs, j), TreeInput(keccak, nodes, idx, j)))
    decreases k
  {
    hide TreeRoot, HashPair, Pow2, Level;
    j := 0;
    if k == 0 {
      OneNode(keccak, nodes, k);
    } else {
      LevelUp(keccak, nodes, k, idx);
      var up, parent := Level(keccak, nodes), keccak(PairAt(hash, proofs[0], idx));
      j := Soundness(keccak, up, k - 1, idx / 2, parent, proofs[1..]);
      j := if parent == up[idx / 2] then 0 else j + 1;
    }
  }

  /** The climb along a leaf's own proof hashes what the tree hashes. */
  lemma {:induction false} OwnClimb(keccak: Keccak, nodes: seq<Word>, k: nat, idx: nat, j: nat)
    requires |nodes| == Pow2(k) && idx < |nodes| && j < k
    ensures ClimbInput(keccak, nodes[idx], idx, ProofOf(keccak, nodes, k, idx), j) == TreeInput(keccak, nodes, idx, j)
    decreases j
  {
    hide HashPair, PairAt, Pow2, Level, At, Sibling;
    var proofs := ProofOf(keccak, nodes, k, idx);
    LevelUp(keccak, nodes, k, idx);
    if j > 0 {
      assert proofs[1..] == ProofOf(keccak, Level(keccak, nodes), k - 1, idx / 2);
      OwnClimb(keccak, Level(keccak, nodes), k - 1, idx / 2, j - 1);
    }
  }

  /** Two trees with the same root agree at leaf idx, or on the way from there they hash two
      different pairs to the same word in step j. */
  lemma LeafBinding(keccak: Keccak, a: seq<Word>, b: seq<Word>, k: nat, idx: nat) returns (j: nat)
    requires |a| == |b| == Pow2(k) && idx < |a|
    requires TreeRoot(keccak, a, k) == TreeRoot(keccak, b, k)
    ensures a[idx] == b[idx]
            || (j < k && Collision(keccak, TreeInput(keccak, a, idx, j), TreeInput(keccak, b, idx, j)))
  {
    hide TreeRoot, Climb, ClimbInput, TreeInput;
    Completeness(keccak, a, k, idx);
    j := Soundness(keccak, b, k, idx, a[idx], ProofOf(keccak, a, k, idx));
    if j < k { OwnClimb(keccak, a, k, idx, j); }
  }

  /** Two leaf arrays with the same root are equal, or they differ at idx, and on the way from
      there the two trees hash two different pairs to the same word in step j. */
  lemma RootBinding(keccak: Keccak, a: seq<Word>, b: seq<Word>, k: nat)
    returns (idx: nat, j: nat)
    requires |a| == |b| == Pow2(k)
    requires TreeRoot(keccak, a, k) == TreeRoot(keccak, b, k)
    ensures a == b
            || (idx < |a| && a[idx] != b[idx] && j < k
                && Collision(keccak, TreeInput(keccak, a, idx, j), TreeInput(keccak, b, idx, j)))
  {
    idx, j := 0, 0;
    if a != b {
      idx :| idx < |a| && a[idx] != b[idx];
      j := LeafBinding(keccak, a, b, k, idx);
    }
  }

  /** The last pair on any such way is the one the root is the hash of. */
  lemma {:induction false} TopInput(keccak: Keccak, nodes: seq<Word>, k: nat, idx: nat)
    requires |nodes| == Pow2(k) && idx < |nodes| && k > 0
    ensures keccak(TreeInput(keccak, nodes, idx, k - 1)) == TreeRoot(keccak, nodes, k)
    decreases k
  {
    hide TreeRoot, HashPair, PairAt, Pow2, Level;
    LevelUp(keccak, nodes, k, idx);
    if k == 1 {
      OneNode(keccak, Level(keccak, nodes), 0);
    } else {
      TopInput(keccak, Level(keccak, nodes), k - 1, idx / 2);
    }
  }

  // ---------------------------------------------------------------- chunks of data

  function Min(a: nat, b: nat): nat { if a <= b then a else b }

  function Chunk(data: seq<Byte>, chunkSize: nat, i: nat): seq<Byte>
    requires i * chunkSize < |data|
  {
    data[i * chunkSize..Min(i * chunkSize + chunkSize, |data|)]
  }

  /** A leaf past the data is zero. */
  function Leaf(keccak: Keccak, data: seq<Byte>, chunkSize: nat, i: nat): Word {
    if i * chunkSize >= |data| then ZERO_WORD else keccak(Bytes(Chunk(data, chunkSize, i)))
  }

  ghost function Leaves(keccak: Keccak, data: seq<Byte>, chunkSize: nat, n: nat): (leaves: seq<Word>)
    ensures |leaves| == n
    ensures forall i :: 0 <= i < n ==> leaves[i] == Leaf(keccak, data, chunkSize, i)
  {
    seq(n, i requires 0 <= i < n => Leaf(keccak, data, chunkSize, i))
  }

  ghost function Root(keccak: Keccak, data: seq<Byte>, chunkSize: nat, bits: nat): Word {
    TreeRoot(keccak, Leaves(keccak, data, chunkSize, Pow2(bits)), bits)
  }

  /** The least depth whose width reaches n. */
  function MinBits(n: nat): (k: nat)
    ensures n <= Pow2(k)
    ensures k > 0 ==> Pow2(k - 1) < n
  {
    if n <= 1 then 0
    else
      var k := MinBits((n + 1) / 2);
      assert k > 0 ==> Pow2(k) == 2 * Pow2(k - 1);
      k + 1
  }

  function CeilDiv(a: nat, b: nat): nat
    requires b > 0
  {
    (a + b - 1) / b
  }

  /** The root over the smallest tree that holds the data; the empty string has root zero. */
  ghost function MinRoot(keccak: Keccak, data: seq<Byte>, chunkSize: nat): Word
    requires chunkSize > 0
  {
    if |data| == 0 then ZERO_WORD
    else Root(keccak, data, chunkSize, MinBits(CeilDiv(|data|, chunkSize)))
  }

  /** Data of two chunks: the hash of the first and the hash of the second, in this order. */
  lemma TwoChunkRoot(keccak: Keccak, data: seq<Byte>, c: nat)
    requires 0 < c < |data| <= 2 * c
    ensures MinRoot(keccak, data, c) == keccak(Pair(keccak(Bytes(data[..c])), keccak(Bytes(data[c..]))))
  {
    DepthIs(|data|, c, 1);
    assert Pow2(1) == 2;
    var leaves := Leaves(keccak, data, c, 2);
    assert leaves[..1] == [leaves[0]] && leaves[1..] == [leaves[1]];
    TwoChunks(keccak, data, c);
  }

  lemma TwoChunks(keccak: Keccak, data: seq<Byte>, c: nat)
    requires 0 < c < |data|
    ensures Leaf(keccak, data, c, 0) == keccak(Bytes(data[..c]))
    ensures |data| <= 2 * c ==> Leaf(keccak, data, c, 1) == keccak(Bytes(data[c..]))
    ensures |data| > 2 * c ==> Leaf(keccak, data, c, 1) == keccak(Bytes(data[c..2 * c]))
  {
    assert Chunk(data, c, 0) == data[..c];
    assert |data| <= 2 * c ==> Chunk(data, c, 1) == data[c..];
    assert |data| > 2 * c ==> Chunk(data, c, 1) == data[c..2 * c];
  }

  /** Data of three chunks: the missing fourth leaf is zero. */
  lemma ThreeChunkRoot(keccak: Keccak, data: seq<Byte>, c: nat)
    requires 0 < c && 2 * c < |data| <= 3 * c
    ensures MinRoot(keccak, data, c)
            == keccak(Pair(keccak(Pair(keccak(Bytes(data[..c])), keccak(Bytes(data[c..2 * c])))),
                           keccak(Pair(keccak(Bytes(data[2 * c..])), ZERO_WORD))))
  {
    hide Leaf;
    DepthIs(|data|, c, 2);
    assert Pow2(2) == 4;
    var leaves := Leaves(keccak, data, c, 4);
    assert leaves == [leaves[0], leaves[1]] + [leaves[2], leaves[3]];
    PairRoot(keccak, leaves[0], leaves[1]);
    PairRoot(keccak, leaves[2], leaves[3]);
    TreeRootConcat(keccak, [leaves[0], leaves[1]], [leaves[2], leaves[3]], 1);
    TwoChunks(keccak, data, c);
    LastChunks(keccak, data, c);
  }

  lemma LastChunks(keccak: Keccak, data: seq<Byte>, c: nat)
    requires 0 < c && 2 * c < |data| <= 3 * c
    ensures Leaf(keccak, data, c, 2) == keccak(Bytes(data[2 * c..])) && Leaf(keccak, data, c, 3) == ZERO_WORD
  {
    assert Chunk(data, c, 2) == data[2 * c..];
  }

  lemma PairRoot(keccak: Keccak, a: Word, b: Word)
    ensures TreeRoot(keccak, [a, b], 1) == keccak(Pair(a, b))
  {
    assert [a, b][..1] == [a] && [a, b][1..] == [b];
  }

  /** The least depth for data of more than 2^(k-1) and at most 2^k chunks. */
  lemma DepthIs(n: nat, c: nat, k: nat)
    requires c > 0 && k > 0 && Pow2(k - 1) * c < n <= Pow2(k) * c
    ensures MinBits(CeilDiv(n, c)) == k
  {
    var q := CeilDiv(n, c);
    CeilDivCovers(n, c, Pow2(k - 1));
    CeilDivCovers(n, c, Pow2(k));
    var m := MinBits(q);
    if m < k { Pow2Monotone(m, k - 1); }
    if m > k { Pow2Monotone(k, m - 1); }
  }

  lemma CeilDivCovers(n: nat, c: nat, i: nat)
    requires c > 0
    ensures i < CeilDiv(n, c) <==> i * c < n
  {
    QuotientAtLeast(n + c - 1, i + 1, c);
    OneMore(i, c);
  }

  // ---------------------------------------------------------------- deeper trees

  ghost function ZeroRoot(keccak: Keccak, k: nat): Word {
    if k == 0 then ZERO_WORD else HashPair(keccak, ZeroRoot(keccak, k - 1), ZeroRoot(keccak, k - 1))
  }

  lemma {:induction false} RootOfZeros(keccak: Keccak, nodes: seq<Word>, k: nat)
    requires |nodes| == Pow2(k) && forall i :: 0 <= i < |nodes| ==> nodes[i] == ZERO_WORD
    ensures TreeRoot(keccak, nodes, k) == ZeroRoot(keccak, k)
    decreases k
  {
    if k > 0 {
      var half := Pow2(k - 1);
      assert |nodes| / 2 == half;
      RootOfZeros(keccak, nodes[..half], k - 1);
      RootOfZeros(keccak, nodes[half..], k - 1);
    }
  }

  /** Once the data fits, one more level only hashes in an all-zero subtree. */
  lemma DeeperRoot(keccak: Keccak, data: seq<Byte>, chunkSize: nat, bits: nat)
    requires Pow2(bits) * chunkSize >= |data|
    ensures Root(keccak, data, chunkSize, bits + 1)
            == HashPair(keccak, Root(keccak, data, chunkSize, bits), ZeroRoot(keccak, bits))
  {
    hide TreeRoot, ZeroRoot, HashPair;
    var n := Pow2(bits);
    var a, b := Halves(Leaves(keccak, data, chunkSize, 2 * n), n);
    assert a == Leaves(keccak, data, chunkSize, n);
    LeavesPastData(keccak, data, chunkSize, n);
    forall i | 0 <= i < n ensures b[i] == ZERO_WORD {
      assert b[i] == (a + b)[n + i];
    }
    RootOfZeros(keccak, b, bits);
    TreeRootConcat(keccak, a, b, bits);
  }

  lemma LeavesPastData(keccak: Keccak, data: seq<Byte>, chunkSize: nat, n: nat)
    requires n * chunkSize >= |data|
    ensures forall i: nat :: n <= i ==> Leaf(keccak, data, chunkSize, i) == ZERO_WORD
  {
    forall i: nat | n <= i ensures Leaf(keccak, data, chunkSize, i) == ZERO_WORD {
      MulOrder(n, i, chunkSize);
    }
  }

  /** The root at any sufficient depth is the minimal root with zero subtrees hashed in. */
  ghost function Deepen(keccak: Keccak, root: Word, bits: nat, more: nat): Word {
    if more == 0 then root
    else HashPair(keccak, Deepen(keccak, root, bits, more - 1), ZeroRoot(keccak, bits + more - 1))
  }

  lemma {:induction false} RootDeepened(keccak: Keccak, data: seq<Byte>, chunkSize: nat, bits: nat, more: nat)
    requires Pow2(bits) * chunkSize >= |data|
    ensures Root(keccak, data, chunkSize, bits + more)
            == Deepen(keccak, Root(keccak, data, chunkSize, bits), bits, more)
    decreases more
  {
    if more > 0 {
      RootDeepened(keccak, data, chunkSize, bits, more - 1);
      Pow2Monotone(bits, bits + more - 1);
      MulOrder(Pow2(bits), Pow2(bits + more - 1), chunkSize);
      DeeperRoot(keccak, data, chunkSize, bits + more - 1);
    }
  }

  lemma MinRootDeepened(keccak: Keccak, data: seq<Byte>, chunkSize: nat, bits: nat)
    requires chunkSize > 0 && |data| > 0 && Pow2(bits) * chunkSize >= |data|
    ensures var least := MinBits(CeilDiv(|data|, chunkSize));
            least <= bits
            && Root(keccak, data, chunkSize, bits)
               == Deepen(keccak, MinRoot(keccak, data, chunkSize), least, bits - least)
  {
    var n := CeilDiv(|data|, chunkSize);
    CeilDivCovers(|data|, chunkSize, Pow2(bits));
    CeilDivCovers(|data|, chunkSize, Pow2(MinBits(n)));
    if bits < MinBits(n) {
      Pow2Monotone(bits, MinBits(n) - 1);
    }
    RootDeepened(keccak, data, chunkSize, MinBits(n), bits - MinBits(n));
  }

  // ---------------------------------------------------------------- the root commits to the data

  /** The j-th input hashed on the way from chunk idx of the data to the root: the chunk itself,
      then pairs of nodes. */
  ghost function DataInput(keccak: Keccak, data: seq<Byte>, chunkSize: nat, bits: nat, idx: nat, j: nat): Preimage
    requires idx * chunkSize < |data|
  {
    if j == 0 then Bytes(Chunk(data, chunkSize, idx))
    else TreeInput(keccak, Leaves(keccak, data, chunkSize, Pow2(bits)), idx, j - 1)
  }

  lemma QuotientBelow(j: nat, c: nat, n: nat)
    requires j < n * c && c > 0
    ensures j / c < n && j / c * c <= j
  {
    assert j / c * c <= j;
    if n <= j / c { MulOrder(n, j / c, c); }
  }

  lemma ChunksDiffer(a: seq<Byte>, b: seq<Byte>, c: nat, j: nat)
    requires c > 0 && |a| == |b| && j < |a| && a[j] != b[j] && j / c * c <= j
    ensures Chunk(a, c, j / c) != Chunk(b, c, j / c)
  {
    var lo := j / c * c;
    assert j - lo == j % c;
    assert Chunk(a, c, j / c)[j - lo] == a[j];
    assert Chunk(b, c, j / c)[j - lo] == b[j];
  }

  /** Different data of one length differs in some chunk. */
  lemma SomeChunkDiffers(a: seq<Byte>, b: seq<Byte>, chunkSize: nat, n: nat) returns (idx: nat)
    requires chunkSize > 0 && |a| == |b| && n * chunkSize >= |a| && a != b
    ensures idx < n && idx * chunkSize < |a| && Chunk(a, chunkSize, idx) != Chunk(b, chunkSize, idx)
  {
    var j :| 0 <= j < |a| && a[j] != b[j];
    idx := j / chunkSize;
    QuotientBelow(j, chunkSize, n);
    ChunksDiffer(a, b, chunkSize, j);
  }

  /** The way from a chunk ends at the minimal root. */
  lemma RootInput(keccak: Keccak, data: seq<Byte>, chunkSize: nat, idx: nat)
    requires chunkSize > 0 && idx * chunkSize < |data|
    ensures var bits := MinBits(CeilDiv(|data|, chunkSize));
            idx < Pow2(bits)
            && keccak(DataInput(keccak, data, chunkSize, bits, idx, bits)) == MinRoot(keccak, data, chunkSize)
  {
    hide TreeRoot, TreeInput, Chunk;
    var bits := MinBits(CeilDiv(|data|, chunkSize));
    var leaves := Leaves(keccak, data, chunkSize, Pow2(bits));
    CeilDivCovers(|data|, chunkSize, idx);
    if bits == 0 {
      OneNode(keccak, leaves, 0);
    } else {
      TopInput(keccak, leaves, bits, idx);
    }
  }

  /** Two byte strings of one length with the same minimal root are equal, or they differ in
      chunk idx, and on the way from there the two trees hash two different inputs to the same
      word in step j. */
  lemma MinRootBinding(keccak: Keccak, a: seq<Byte>, b: seq<Byte>, chunkSize: nat)
    returns (idx: nat, j: nat)
    requires chunkSize > 0 && |a| == |b|
    requires MinRoot(keccak, a, chunkSize) == MinRoot(keccak, b, chunkSize)
    ensures var bits := MinBits(CeilDiv(|a|, chunkSize));
            a == b
            || (idx * chunkSize < |a| && j <= bits
                && Chunk(a, chunkSize, idx) != Chunk(b, chunkSize, idx)
                && Collision(keccak, DataInput(keccak, a, chunkSize, bits, idx, j),
                             DataInput(keccak, b, chunkSize, bits, idx, j)))
  {
    hide TreeRoot, TreeInput, Chunk, Pow2;
    idx, j := 0, 0;
    if a != b {
      var bits := MinBits(CeilDiv(|a|, chunkSize));
      var n := Pow2(bits);
      CeilDivCovers(|a|, chunkSize, n);
      idx := SomeChunkDiffers(a, b, chunkSize, n);
      var la, lb := Leaves(keccak, a, chunkSize, n), Leaves(keccak, b, chunkSize, n);
      if la[idx] != lb[idx] {
        j := LeafBinding(keccak, la, lb, bits, idx);
        j := j + 1;
      }
    }
  }
}
