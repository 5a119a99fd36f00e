/** Bit-level helpers of the platform layer. */
module Platform {

  /** An `unsigned int` is a power of two when it is nonzero and equals its
      own lowest set bit, `X & (~X + 1)` (two's-complement negation on 32 bits). */
  function IsPowerOfTwo(x: bv32): (r: bool)
    ensures r <==> x != 0 && x & (x - 1) == 0
  {
    x != 0 && (x & (!x + 1)) == x
  }

  /** `x & (~x + 1)` isolates the lowest set bit of `x`. */
  lemma LowestSetBit(x: bv32, k: nat)
    requires k < 32 && (x >> k) & 1 == 1 && x & ((1 << k) - 1) == 0
    ensures x & (!x + 1) == 1 << k
  {
  }

  /** Every single-bit value `1 << k` is accepted. */
  lemma PowersAccepted(k: nat)
    requires k < 32
    ensures IsPowerOfTwo(1 << k)
  {
  }

  /** Zero is rejected. */
  lemma ZeroRejected()
    ensures !IsPowerOfTwo(0)
  {
  }

  /** A value with two distinct set bits is rejected. */
  lemma TwoBitsRejected(x: bv32, i: nat, j: nat)
    requires i < j < 32 && (x >> i) & 1 == 1 && (x >> j) & 1 == 1
    ensures !IsPowerOfTwo(x)
  {
  }

  /** Conversely, every accepted value is `1 << k` for some bit position `k`,
      which is returned. */
  lemma AcceptedArePowers(x: bv32) returns (k: nat)
    requires IsPowerOfTwo(x)
    ensures k < 32 && x == 1 << k
  {
    k := 0;
    while x != 1 << k
      invariant k < 32
      invariant x & ((1 << k) - 1) == 0
      decreases 32 - k
    {
      k := k + 1;
    }
  }
}
