/** contracts/MerkleLib.sol: the loops that build, prove and check the hash tree in place. */
module MerkleLib {
  import opened Words
  import opened Arithmetic
  import opened MerkleTree
  import NextPowerOf2

  /** The leaf array of the first loop: chunk hashes, and zero from the end of the data on. */
  method FillLeaves(keccak: Keccak, data: seq<Byte>, chunkSize: nat, nChunks: nat)
    returns (nodes: array<Word>)
    ensures fresh(nodes) && nodes[..] == Leaves(keccak, data, chunkSize, nChunks)
  {
    nodes := new Word[nChunks](_ => ZERO_WORD);
    var i: nat := 0;
    while i < nChunks
      invariant i <= nChunks && nodes.Length == nChunks
      invariant forall j :: 0 <= j < i ==> nodes[j] == Leaf(keccak, data, chunkSize, j)
      invariant forall j :: i <= j < nChunks ==> nodes[j] == ZERO_WORD
    {
      var off := i * chunkSize;
      if off >= |data| {
        LeavesPastData(keccak, data, chunkSize, i);
        break;
      }
      var len := |data| - off;
      if len >= chunkSize {
        len := chunkSize;
      }
      nodes[i] := keccak(Bytes(data[off..off + len]));
      i := i + 1;
    }
  }

  /** One pass of the inner loop: the first n nodes become n / 2 parents, in place. Node i is
      overwritten only after it has been read, because 2 * i >= i. */
  method FoldLevel(keccak: Keccak, nodes: array<Word>, n: nat)
    requires n <= nodes.Length
    modifies nodes
    ensures nodes[..n / 2] == Level(keccak, old(nodes[..n]))
  {
    hide HashPair, Level;
    ghost var was := nodes[..n];
    ghost var up := Level(keccak, was);
    var i: nat := 0;
    while i < n / 2
      invariant i <= n / 2
      invariant forall j :: 0 <= j < i ==> nodes[j] == up[j]
      invariant forall j :: i <= j < n ==> nodes[j] == was[j]
    {
      assert nodes[2 * i] == was[2 * i] && nodes[2 * i + 1] == was[2 * i + 1];
      nodes[i] := HashPair(keccak, nodes[2 * i], nodes[2 * i + 1]);
      i := i + 1;
    }
  }

  /** The outer loop: level by level down to one node, which is the recursive tree root. */
  method FoldToRoot(keccak: Keccak, nodes: array<Word>, ghost bits: nat) returns (root: Word)
    requires nodes.Length == Pow2(bits)
    modifies nodes
    ensures root == TreeRoot(keccak, old(nodes[..]), bits)
  {
    hide TreeRoot, Pow2;
    var n := nodes.Length;
    ghost var k, level := bits, nodes[..];
    while n != 1
      invariant n == |level| == Pow2(k) <= nodes.Length && nodes[..n] == level
      invariant TreeRoot(keccak, level, k) == TreeRoot(keccak, old(nodes[..]), bits)
      decreases k
    {
      WideLevel(k);
      LevelKeepsRoot(keccak, level, k - 1);
      FoldLevel(keccak, nodes, n);
      n := n / 2;
      level := Level(keccak, level);
      k := k - 1;
    }
    OneNode(keccak, level, k);
    return nodes[0];
  }

  lemma WideLevel(k: nat)
    requires Pow2(k) != 1
    ensures k > 0 && Pow2(k) == 2 * Pow2(k - 1)
  {
  }

  /** With nChunkBits of 256 or more, 1 << nChunkBits is zero and the loop does not end. */
  method MerkleRoot(keccak: Keccak, data: seq<Byte>, chunkSize: nat, nChunkBits: nat) returns (root: Word)
    requires nChunkBits < 256
    ensures root == Root(keccak, data, chunkSize, nChunkBits)
  {
    var nodes := FillLeaves(keccak, data, chunkSize, Pow2(nChunkBits));
    root := FoldToRoot(keccak, nodes, nChunkBits);
  }

  /** The root over the smallest tree. Data of 2^64 bytes or more does not fit in memory. */
  method MerkleRootWithMinTree(keccak: Keccak, data: seq<Byte>, chunkSize: nat) returns (root: Option<Word>)
    requires |data| < TWO_64
    ensures root.None? <==> |data| > 0 && (chunkSize == 0 || |data| + chunkSize > TWO_256)
    ensures root.Some? && |data| > 0 ==> root.value == MinRoot(keccak, data, chunkSize)
    ensures |data| == 0 ==> root == Some(ZERO_WORD)
  {
    if |data| == 0 {
      return Some(ZERO_WORD);
    }
    if chunkSize == 0 || |data| + chunkSize > TWO_256 {
      return None;
    }
    var n := (|data| + chunkSize - 1) / chunkSize;
    ChunkCount(|data|, chunkSize);
    var nChunks := 1;
    ghost var bits := MinBits(n);
    if n > 1 {
      var next := NextPowerOf2.FindNextPowerOf2(n);
      nChunks := next.value;
      NextIsLeast(nChunks, n);
    }
    var nodes := FillLeaves(keccak, data, chunkSize, nChunks);
    var r := FoldToRoot(keccak, nodes, bits);
    return Some(r);
  }

  lemma ChunkCount(len: nat, c: nat)
    requires 0 < len < TWO_64 && c > 0
    ensures 1 <= CeilDiv(len, c) <= len
  {
    CeilDivCovers(len, c, 0);
    CeilDivCovers(len, c, len);
    MulOrder(1, c, len);
  }

  /** The tree findNextPowerOf2 asks for has exactly the least sufficient depth. */
  lemma NextIsLeast(p: nat, n: nat)
    requires n >= 2 && NextPowerOf2.LeastPowerOf2(p, n)
    ensures p == Pow2(MinBits(n))
  {
    var k := MinBits(n);
    forall j: nat | n <= Pow2(j) ensures Pow2(k) <= Pow2(j) {
      if j < k { Pow2Monotone(j, k - 1); } else { Pow2Monotone(k, j); }
    }
    NextPowerOf2.LeastPowerOf2Unique(p, Pow2(k), n);
  }

  /** The root a claimed leaf and its proof lead to; reverts when the index has too many bits. */
  method CalculateRootWithProof(keccak: Keccak, dataHash: Word, chunkIdx0: nat, proofs: seq<Word>)
    returns (root: Option<Word>)
    ensures root == if chunkIdx0 < OneShiftedBy(|proofs|) then Some(Climb(keccak, dataHash, chunkIdx0, proofs))
                    else None
  {
    if chunkIdx0 >= OneShiftedBy(|proofs|) {
      return None;
    }
    var hash, chunkIdx, i := dataHash, chunkIdx0, 0;
    assert proofs[0..] == proofs;
    while i < |proofs|
      invariant 0 <= i <= |proofs| && chunkIdx >= 0
      invariant Climb(keccak, hash, chunkIdx, proofs[i..]) == Climb(keccak, dataHash, chunkIdx0, proofs)
    {
      assert proofs[i..][0] == proofs[i] && proofs[i..][1..] == proofs[i + 1..];
      if chunkIdx % 2 == 0 {
        hash := keccak(Pair(hash, proofs[i]));
      } else {
        hash := keccak(Pair(proofs[i], hash));
      }
      chunkIdx := chunkIdx / 2;
      i := i + 1;
    }
    return Some(hash);
  }

  /** The climb of a proof and the tree hash two different inputs to the same word in some step. */
  ghost predicate ClimbCollides(keccak: Keccak, hash: Word, idx: nat, proofs: seq<Word>, nodes: seq<Word>) {
    exists j: nat :: j < |proofs|
      && Collision(keccak, ClimbInput(keccak, hash, idx, proofs, j), TreeInput(keccak, nodes, idx, j))
  }

  /** An accepted proof pins the leaf of any tree with that root and that depth, or the proof
      and that tree exhibit a collision. */
  method Verify(keccak: Keccak, dataHash: Word, chunkIdx: nat, root: Word, proofs: seq<Word>)
    returns (ok: Option<bool>)
    ensures ok.Some? <==> chunkIdx < OneShiftedBy(|proofs|)
    ensures ok.Some? ==> (ok.value <==> Climb(keccak, dataHash, chunkIdx, proofs) == root)
    ensures ok == Some(true) ==>
              forall nodes: seq<Word> | |nodes| == Pow2(|proofs|) && TreeRoot(keccak, nodes, |proofs|) == root ::
                dataHash == nodes[chunkIdx] || ClimbCollides(keccak, dataHash, chunkIdx, proofs, nodes)
  {
    var r := CalculateRootWithProof(keccak, dataHash, chunkIdx, proofs);
    if r.None? {
      return None;
    }
    forall nodes: seq<Word> | r.value == root && |nodes| == Pow2(|proofs|) && TreeRoot(keccak, nodes, |proofs|) == root
      ensures dataHash == nodes[chunkIdx] || ClimbCollides(keccak, dataHash, chunkIdx, proofs, nodes)
    {
      var j := Soundness(keccak, nodes, |proofs|, chunkIdx, dataHash, proofs);
    }
    return Some(r.value == root);
  }

  /** Every proof handed out for a chunk, within the data or past its end, verifies. */
  lemma ProofVerifies(keccak: Keccak, data: seq<Byte>, chunkSize: nat, bits: nat, idx: nat)
    requires idx < Pow2(bits)
    ensures Climb(keccak, Leaf(keccak, data, chunkSize, idx), idx,
                  ProofOf(keccak, Leaves(keccak, data, chunkSize, Pow2(bits)), bits, idx))
            == Root(keccak, data, chunkSize, bits)
  {
    Completeness(keccak, Leaves(keccak, data, chunkSize, Pow2(bits)), bits, idx);
  }

  lemma ProofGrows(keccak: Keccak, level: seq<Word>, k: nat, idx: nat, done: seq<Word>)
    requires k > 0 && |level| == 2 * Pow2(k - 1) && idx < |level|
    ensures Sibling(idx) < |level| && idx / 2 < |level| / 2
    ensures done + ProofOf(keccak, level, k, idx)
            == done + [level[Sibling(idx)]] + ProofOf(keccak, Level(keccak, level), k - 1, idx / 2)
  {
    hide HashPair, PairAt, Level, Pow2;
    LevelAt(keccak, level, idx, Pow2(k - 1));
    var step, rest := [level[Sibling(idx)]], ProofOf(keccak, Level(keccak, level), k - 1, idx / 2);
    assert ProofOf(keccak, level, k, idx) == step + rest;
    assert done + (step + rest) == done + step + rest;
  }

  /** The second loop of getProof: note the sibling, then fold the level over it. */
  method SiblingPath(keccak: Keccak, nodes: array<Word>, nChunkBits: nat, chunkIdx0: nat)
    returns (proofs: array<Word>)
    requires nodes.Length == Pow2(nChunkBits) && chunkIdx0 < nodes.Length
    modifies nodes
    ensures proofs[..] == ProofOf(keccak, old(nodes[..]), nChunkBits, chunkIdx0)
  {
    hide *;
    var n, chunkIdx := nodes.Length, chunkIdx0;
    var proofIdx: nat := 0;
    proofs := new Word[nChunkBits];
    ghost var k, level := nChunkBits, nodes[..];
    ghost var path := ProofOf(keccak, level, k, chunkIdx);
    while n != 1
      invariant n == |level| == Pow2(k) <= nodes.Length && nodes[..n] == level
      invariant 0 <= chunkIdx < n && proofIdx + k == nChunkBits && proofs.Length == nChunkBits && proofs != nodes
      invariant proofs[..proofIdx] + ProofOf(keccak, level, k, chunkIdx) == path
      decreases k
    {
      WideLevel(k);
      ghost var done := proofs[..proofIdx];
      ProofGrows(keccak, level, k, chunkIdx, done);
      proofs[proofIdx] := nodes[Sibling(chunkIdx)];
      assert proofs[..proofIdx + 1] == done + [level[Sibling(chunkIdx)]];
      FoldLevel(keccak, nodes, n);
      n := n / 2;
      chunkIdx := chunkIdx / 2;
      proofIdx := proofIdx + 1;
      level := Level(keccak, level);
      k := k - 1;
    }
    OneNode(keccak, level, k);
  }

  /** The sibling path of one leaf of the original array: by the time a level is overwritten,
      its sibling has been read. */
  method GetProof(keccak: Keccak, data: seq<Byte>, chunkSize: nat, nChunkBits: nat, chunkIdx: nat)
    returns (result: Option<seq<Word>>)
    requires nChunkBits < 256
    ensures result.Some? <==> chunkIdx < Pow2(nChunkBits)
    ensures result.Some? ==>
              result.value == ProofOf(keccak, Leaves(keccak, data, chunkSize, Pow2(nChunkBits)), nChunkBits, chunkIdx)
  {
    if chunkIdx >= Pow2(nChunkBits) {
      return None;
    }
    var nodes := FillLeaves(keccak, data, chunkSize, Pow2(nChunkBits));
    var proofs := SiblingPath(keccak, nodes, nChunkBits, chunkIdx);
    return Some(proofs[..]);
  }
}
