/** Extended Hamming(8,4) SECDED codec with the layout
      bit 7..4 = d3 d2 d1 d0, bit 3 = h2, bit 2 = h1, bit 1 = h0, bit 0 = p
    where h2 = d2^d1^d0, h1 = d3^d1^d0, h0 = d3^d2^d0 and p is the XOR of
    bits 7..1. All operations are pure functions over bytes. */
module HammingCode {
  import opened Secded

  /** Encodes the low nibble of `n`; the upper four bits of `n` are ignored.
      The codeword carries the nibble in bits 7..4 and is a valid codeword:
      zero syndrome and an even number of set bits. */
  function Encode(n: bv8): (x: bv8)
    ensures x >> 4 == n & 0xF
    ensures IsCodeword(x)
    ensures PopCount(x) % 2 == 0
  {
    var d0, d1, d2, d3 := Bit(n, 0), Bit(n, 1), Bit(n, 2), Bit(n, 3);
    // Hamming bits from the generator matrix: h[0], h[1], h[2]
    var h0, h1, h2 := d3 ^ d2 ^ d0, d3 ^ d1 ^ d0, d2 ^ d1 ^ d0;
    var p := d3 ^ d2 ^ d1 ^ d0 ^ h2 ^ h1 ^ h0;
    ParityMatchIffEvenPopCount((d3 << 7) | (d2 << 6) | (d1 << 5) | (d0 << 4) | (h2 << 3) | (h1 << 2) | (h0 << 1) | p);
    (d3 << 7) | (d2 << 6) | (d1 << 5) | (d0 << 4) | (h2 << 3) | (h1 << 2) | (h0 << 1) | p
  }

  /** The 3-bit syndrome of `x`, rows of the parity-check matrix H read with
      s[0] as the most significant bit. */
  function Syndrome(x: bv8): (s: bv8)
    ensures s < 8
  {
    var s0 := Bit(x, 6) ^ Bit(x, 5) ^ Bit(x, 4) ^ Bit(x, 3);
    var s1 := Bit(x, 7) ^ Bit(x, 5) ^ Bit(x, 4) ^ Bit(x, 2);
    var s2 := Bit(x, 7) ^ Bit(x, 6) ^ Bit(x, 4) ^ Bit(x, 1);
    (s0 << 2) | (s1 << 1) | s2
  }

  /** A valid codeword: every parity-check equation and the overall parity hold. */
  predicate IsCodeword(x: bv8)
  {
    Syndrome(x) == 0 && !ParityMismatch(x)
  }

  /** Maps a syndrome to the position of the bit to flip; entry 0 is the
      `u8::MAX` sentinel. */
  const SYNDROME_TO_BIT: seq<bv8> := [0xFF, 1, 2, 7, 3, 6, 5, 4]

  /** The table lookup as the corrector performs it, only for a non-zero
      syndrome: the sentinel is never read and the shift amount is below 8. */
  function BitForSyndrome(s: bv8): (j: bv8)
    requires 0 < s < 8
    ensures 1 <= j < 8
  {
    SYNDROME_TO_BIT[s]
  }

  /** Flipping the bit the table names for a non-zero syndrome clears the
      syndrome and toggles the parity mismatch. */
  lemma FlipTableBit(x: bv8)
    requires Syndrome(x) != 0
    ensures Syndrome(Flip(x, BitForSyndrome(Syndrome(x)))) == 0
    ensures ParityMismatch(Flip(x, BitForSyndrome(Syndrome(x)))) != ParityMismatch(x)
  {
  }

  /** The flip the table names changes one bit, and that bit alone has the
      syndrome as its parity-check column. */
  lemma TableBitIsSyndromeColumn(x: bv8)
    requires Syndrome(x) != 0
    ensures Distance(x, Flip(x, BitForSyndrome(Syndrome(x)))) == 1
    ensures Syndrome(x ^ Flip(x, BitForSyndrome(Syndrome(x)))) == Syndrome(x)
  {
  }

  /** Flipping the overall parity bit leaves the syndrome alone and toggles
      the parity mismatch. */
  lemma ParityBitFlip(x: bv8)
    ensures Syndrome(x ^ 1) == Syndrome(x)
    ensures ParityMismatch(x ^ 1) != ParityMismatch(x)
    ensures Distance(x, x ^ 1) == 1 && Syndrome(x ^ (x ^ 1)) == 0
  {
  }

  /** Classifies `x` from its syndrome and parity mismatch and flips at most
      one bit: nothing when no error is seen, bit 0 for a parity-bit error,
      otherwise the bit whose parity-check column equals the syndrome. */
  function ErrorCorrect(x: bv8): (r: (bv8, ErrorType))
    ensures r.1 == NoError <==> IsCodeword(x)
    ensures r.1 == ParityBitError <==> Syndrome(x) == 0 && ParityMismatch(x)
    ensures r.1 == SingleBitError <==> Syndrome(x) != 0 && ParityMismatch(x)
    ensures r.1 == NoError ==> r.0 == x
    ensures r.1 == ParityBitError ==> r.0 == x ^ 1
    ensures r.1 == SingleBitError || r.1 == DoubleBitError ==> r.0 == Flip(x, BitForSyndrome(Syndrome(x)))
  {
    var syndrome := Syndrome(x);
    if (x & 1) != XParity(x) then
      if syndrome > 0 then
        (Flip(x, BitForSyndrome(syndrome)), SingleBitError)
      else
        (x ^ 1, ParityBitError)
    else
      if syndrome == 0 then
        (x, NoError)
      else
        (Flip(x, BitForSyndrome(syndrome)), DoubleBitError)
  }

  /** Whenever an error is reported exactly one bit changes, and the bits
      changed have the syndrome as their parity-check column; when none is
      reported nothing changes. */
  lemma ErrorCorrectFlipsOneBit(x: bv8)
    ensures ErrorCorrect(x).1 == NoError <==> ErrorCorrect(x).0 == x
    ensures ErrorCorrect(x).1 != NoError ==>
      Distance(x, ErrorCorrect(x).0) == 1 && Syndrome(x ^ ErrorCorrect(x).0) == Syndrome(x)
  {
    if Syndrome(x) != 0 {
      TableBitIsSyndromeColumn(x);
    } else {
      ParityBitFlip(x);
    }
  }

  /** Except for a double-bit error, the corrected byte is a valid codeword. */
  lemma ErrorCorrectRestoresCodeword(x: bv8)
    ensures ErrorCorrect(x).1 != DoubleBitError ==> IsCodeword(ErrorCorrect(x).0)
  {
    if Syndrome(x) != 0 {
      FlipTableBit(x);
    } else {
      ParityBitFlip(x);
    }
  }

  /** Corrects `x` and returns its data bits 7..4 with the classification. */
  function Decode(x: bv8): (r: (bv8, ErrorType))
    ensures r.0 < 16
    ensures r.1 == ErrorCorrect(x).1
    ensures r.1 == NoError ==> Encode(r.0) == x
    ensures r.1 != DoubleBitError ==> Encode(r.0) == ErrorCorrect(x).0
  {
    var (data, errorType) := ErrorCorrect(x);
    ErrorCorrectRestoresCodeword(x);
    CodewordIffEncoded(data);
    ((data >> 4) & 0xF, errorType)
  }

  /** Only bits 0..3 of the argument influence the codeword. */
  lemma EncodeIgnoresHighBits(n: bv8)
    ensures Encode(n) == Encode(n & 0xF)
  {
  }

  /** Encoding is linear over XOR. */
  lemma EncodeLinear(a: bv8, b: bv8)
    ensures Encode(a ^ b) == Encode(a) ^ Encode(b)
  {
  }

  /** The valid codewords are exactly the encodings of the 16 nibbles. */
  lemma CodewordIffEncoded(x: bv8)
    ensures IsCodeword(x) <==> x == Encode(x >> 4)
  {
  }

  /** The table is a bijection from the syndromes 1..7 onto the bit positions
      1..7: flipping bit j of a codeword yields the syndrome that maps back to j. */
  lemma SyndromeTableInverse(c: bv8, j: bv8)
    requires IsCodeword(c) && 1 <= j < 8
    ensures 0 < Syndrome(Flip(c, j)) && BitForSyndrome(Syndrome(Flip(c, j))) == j
  {
  }

  /** The other half of the bijection: for every non-zero syndrome `s`,
      flipping the bit the table names for `s` in a codeword produces
      syndrome `s`. */
  lemma SyndromeOfTableFlip(c: bv8, s: bv8)
    requires IsCodeword(c) && 0 < s < 8
    ensures Syndrome(Flip(c, BitForSyndrome(s))) == s
  {
  }

  /** The encoding of every nibble, as tabulated by hand. */
  const EXPECTED_X: seq<bv8> := [
    0x00, 0x1E, 0x2D, 0x33, 0x4B, 0x55, 0x66, 0x78,
    0x87, 0x99, 0xAA, 0xB4, 0xCC, 0xD2, 0xE1, 0xFF
  ]

  /** The encodings of the nibbles 0..7 are the tabulated ones. */
  lemma ExpectedCodewordsLow()
    ensures forall n :: 0 <= n < 8 ==> Encode(n as bv8) == EXPECTED_X[n]
  {
  }

  /** The encodings of the nibbles 8..15 are the tabulated ones. */
  lemma ExpectedCodewordsHigh()
    ensures forall n :: 8 <= n < 16 ==> Encode(n as bv8) == EXPECTED_X[n]
  {
  }

  lemma ExpectedCodewords()
    ensures forall n :: 0 <= n < 16 ==> Encode(n as bv8) == EXPECTED_X[n]
  {
    ExpectedCodewordsLow();
    ExpectedCodewordsHigh();
  }

  /** An uncorrupted codeword decodes to its nibble with no error. */
  lemma DecodeEncode(n: bv8)
    requires n < 16
    ensures Decode(Encode(n)) == (n, NoError)
  {
  }

  /** The parity-check columns of distinct bit positions differ, so two
      flipped bits of a codeword never cancel in the syndrome. */
  lemma TwoFlipsNonZeroSyndrome(c: bv8, i: bv8, j: bv8)
    requires Syndrome(c) == 0 && i < j < 8
    ensures Syndrome(Flip(Flip(c, i), j)) != 0
  {
  }

  /** Any single flipped bit is corrected; bit 0 is reported as a parity-bit error. */
  lemma SingleErrorCorrected(n: bv8, j: bv8)
    requires n < 16 && j < 8
    ensures Decode(Flip(Encode(n), j)) == (n, if j == 0 then ParityBitError else SingleBitError)
  {
    var c := Encode(n);
    FlipTogglesParity(c, j);
    if j == 0 {
      ParityBitFlip(c);
      assert Flip(c, j) ^ 1 == c;
    } else {
      SyndromeTableInverse(c, j);
      assert Flip(Flip(c, j), j) == c;
    }
  }

  /** Any two distinct flipped bits are detected as a double-bit error. */
  lemma DoubleErrorDetected(n: bv8, i: bv8, j: bv8)
    requires n < 16 && i < j < 8
    ensures Decode(Flip(Flip(Encode(n), i), j)).1 == DoubleBitError
  {
    var c := Encode(n);
    FlipTogglesParity(c, i);
    FlipTogglesParity(Flip(c, i), j);
    TwoFlipsNonZeroSyndrome(c, i, j);
  }
}
