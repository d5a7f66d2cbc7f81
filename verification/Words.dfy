/** The machine words and result types that every component shares. */
module Words {

  /** None stands for a transaction that reverts (or a Go or C run that panics). */
  datatype Option<+T> = None | Some(value: T)

  /** 2^64, 2^128 and 2^256: the bounds of uint64, of the Q128.128 fraction and of uint256. */
  const TWO_64: nat := 0x1_0000_0000_0000_0000
  const TWO_128: nat := 0x1_0000_0000_0000_0000_0000_0000_0000_0000
  const TWO_256: nat :=
    0x1_0000_0000_0000_0000_0000_0000_0000_0000_0000_0000_0000_0000_0000_0000_0000_0000

  type Byte = bv8

  /** A 32-byte word, read as a number; zero is Solidity's bytes32(0). */
  type Word = nat

  const ZERO_WORD: Word := 0

  /** What Keccak-256 is applied to: a stretch of bytes, or abi.encode of two words. */
  datatype Preimage = Bytes(data: seq<Byte>) | Pair(left: Word, right: Word)

  /** Keccak-256, left abstract. */
  type Keccak = Preimage -> Word

  /** Two different inputs with the same hash. The hash-based theorems name the two from the
      computations they compare: some pair always collides. */
  ghost predicate Collision(keccak: Keccak, x: Preimage, y: Preimage) {
    x != y && keccak(x) == keccak(y)
  }

  function Pow2(k: nat): (p: nat)
    ensures p >= 1
  {
    if k == 0 then 1 else 2 * Pow2(k - 1)
  }

  /** Solidity's 1 << k on uint256: the bit falls off the word when k reaches 256. */
  function OneShiftedBy(k: nat): nat {
    if k < 256 then Pow2(k) else 0
  }

  lemma {:induction false} Pow2Monotone(j: nat, k: nat)
    requires j <= k
    ensures Pow2(j) <= Pow2(k)
  {
    if j < k { Pow2Monotone(j, k - 1); }
  }

  lemma {:induction false} Pow2Adds(j: nat, k: nat)
    ensures Pow2(j + k) == Pow2(j) * Pow2(k)
    decreases j
  {
    if j > 0 {
      Pow2Adds(j - 1, k);
      assert Pow2(j + k) == 2 * Pow2(j - 1 + k);
    }
  }

  lemma Pow2Doubled(j: nat, k: nat)
    requires k == 2 * j
    ensures Pow2(k) == Pow2(j) * Pow2(j)
  {
    Pow2Adds(j, j);
  }

  lemma Pow2Of256()
    ensures Pow2(255) == TWO_256 / 2 && Pow2(256) == TWO_256
  {
    var eight: nat :| eight == 8;
    assert Pow2(eight) == 0x100;
    Pow2Doubled(eight, 2 * eight);
    Pow2Doubled(2 * eight, 4 * eight);
    Pow2Doubled(4 * eight, 8 * eight);
    Pow2Doubled(8 * eight, 16 * eight);
    Pow2Doubled(16 * eight, 32 * eight);
    assert Pow2(32 * eight) == 2 * Pow2(32 * eight - 1);
  }
}
