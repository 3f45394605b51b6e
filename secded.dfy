/** Definitions shared by the two Hamming(8,4) SECDED codecs: the error
    classification both of them return and the bit-level helpers over an
    8-bit codeword (a Rust `u8`, modelled as `bv8`).

    Dafny's `&`, `|` and `^` bind tighter than `<<` and `>>` (the reverse of
    Rust), so every mixed expression below is fully parenthesised. */
module Secded {

  /** How a received byte was classified by the error corrector. */
  datatype ErrorType = NoError | SingleBitError | ParityBitError | DoubleBitError

  /** Bit `i` of `x` as a 0/1 byte, i.e. Rust's `x >> i & 1`. */
  function Bit(x: bv8, i: bv8): (b: bv8)
    requires i < 8
    ensures b == 0 || b == 1
    ensures (b == 1) == (x & (1 << i) != 0)
  {
    (x >> i) & 1
  }

  /** `x` with bit `i` inverted, i.e. Rust's `x ^ 1 << i`. */
  function Flip(x: bv8, i: bv8): (y: bv8)
    requires i < 8
    ensures Bit(y, i) != Bit(x, i)
    ensures forall k: bv8 :: k < 8 && k != i ==> Bit(y, k) == Bit(x, k)
  {
    x ^ (1 << i)
  }

  /** The XOR of bits 7..1, the value the overall parity bit 0 must equal
      (`x_parity` in both codecs). */
  function XParity(x: bv8): (b: bv8)
    ensures b == 0 || b == 1
  {
    Bit(x, 7) ^ Bit(x, 6) ^ Bit(x, 5) ^ Bit(x, 4) ^ Bit(x, 3) ^ Bit(x, 2) ^ Bit(x, 1)
  }

  /** True when bit 0 disagrees with the parity of bits 7..1, that is, when
      the byte has an odd number of set bits. */
  predicate ParityMismatch(x: bv8): (m: bool)
    ensures m <==> PopCount(x) % 2 == 1
  {
    (x & 1) != XParity(x)
  }

  /** The number of set bits of `x`. */
  function PopCount(x: bv8): (n: bv8)
    ensures n <= 8
    ensures n == 0 <==> x == 0
  {
    Bit(x, 0) + Bit(x, 1) + Bit(x, 2) + Bit(x, 3) + Bit(x, 4) + Bit(x, 5) + Bit(x, 6) + Bit(x, 7)
  }

  /** The number of bit positions in which `x` and `y` differ. */
  function Distance(x: bv8, y: bv8): bv8
  {
    PopCount(x ^ y)
  }

  /** Inverting any one bit toggles the parity mismatch. */
  lemma FlipTogglesParity(x: bv8, i: bv8)
    requires i < 8
    ensures ParityMismatch(Flip(x, i)) != ParityMismatch(x)
  {
  }

  /** A byte has no parity mismatch exactly when it has an even number of set bits. */
  lemma ParityMatchIffEvenPopCount(x: bv8)
    ensures !ParityMismatch(x) <==> PopCount(x) % 2 == 0
  {
  }
}
