/** Extended Hamming(8,4) SECDED codec with the bit layout of Wikipedia's
    generator and parity-check matrices:
      d0, d1, d2, d3 at bits 1, 2, 3, 5;
      Hamming bits x4 = d2^d1^d0, x6 = d3^d1^d0, x7 = d3^d2^d0;
      overall parity x0 = d3^d2^d1, which is the XOR of bits 7..1.
    A flipped bit k in 1..7 produces the syndrome 8 - k. */
module HammingCodeWikipedia {
  import opened Secded

  /** Encodes the low nibble of `n`; the upper four bits of `n` are ignored.
      The data bits read back from the codeword are the nibble, and the
      codeword is valid: zero syndrome and an even number of set bits. */
  function Encode(n: bv8): (x: bv8)
    ensures DataBits(x) == n & 0xF
    ensures IsCodeword(x)
    ensures PopCount(x) % 2 == 0
  {
    var d0, d1, d2, d3 := Bit(n, 0), Bit(n, 1), Bit(n, 2), Bit(n, 3);
    var x0, x1, x2, x3 := d3 ^ d2 ^ d1, d0, d1, d2;
    var x4, x5, x6, x7 := d2 ^ d1 ^ d0, d3, d3 ^ d1 ^ d0, d3 ^ d2 ^ d0;
    var x := (x7 << 7) | (x6 << 6) | (x5 << 5) | (x4 << 4) | (x3 << 3) | (x2 << 2) | (x1 << 1) | x0;
    ParityMatchIffEvenPopCount(x);
    x
  }

  /** The 3-bit syndrome of `x`: rows s0, s1, s2 of the parity-check matrix
      H, with s2 as the most significant bit. */
  function Syndrome(x: bv8): (s: bv8)
    ensures s < 8
  {
    var s0 := Bit(x, 7) ^ Bit(x, 5) ^ Bit(x, 3) ^ Bit(x, 1);
    var s1 := Bit(x, 6) ^ Bit(x, 5) ^ Bit(x, 2) ^ Bit(x, 1);
    var s2 := Bit(x, 4) ^ Bit(x, 3) ^ Bit(x, 2) ^ Bit(x, 1);
    (s2 << 2) | (s1 << 1) | s0
  }

  /** A valid codeword: every parity-check equation and the overall parity hold. */
  predicate IsCodeword(x: bv8)
  {
    Syndrome(x) == 0 && !ParityMismatch(x)
  }

  /** Maps a syndrome to the position of the bit to flip; entry 0 is the
      `u8::MAX` sentinel. */
  const SYNDROME_TO_BIT: seq<bv8> := [0xFF, 7, 6, 5, 4, 3, 2, 1]

  /** The table lookup as the corrector performs it, only for a non-zero
      syndrome: the sentinel is never read and the bit is 8 - s. */
  function BitForSyndrome(s: bv8): (j: bv8)
    requires 0 < s < 8
    ensures j == 8 - s
    ensures 1 <= j < 8
  {
    SYNDROME_TO_BIT[s]
  }

  /** Flipping the bit the table names for a non-zero syndrome clears the
      syndrome and toggles the parity mismatch. */
  lemma FlipTableBit(x: bv8)
    requires Syndrome(x) != 0
    ensures Syndrome(Flip(x, BitForSyndrome(Syndrome(x)))) == 0
    ensures ParityMismatch(Flip(x, BitForSyndrome(Syndrome(x)))) != ParityMismatch(x)
  {
  }

  /** The flip the table names changes one bit, and that bit alone has the
      syndrome as its parity-check column. */
  lemma TableBitIsSyndromeColumn(x: bv8)
    requires Syndrome(x) != 0
    ensures Distance(x, Flip(x, BitForSyndrome(Syndrome(x)))) == 1
    ensures Syndrome(x ^ Flip(x, BitForSyndrome(Syndrome(x)))) == Syndrome(x)
  {
  }

  /** Flipping the overall parity bit leaves the syndrome alone and toggles
      the parity mismatch. */
  lemma ParityBitFlip(x: bv8)
    ensures Syndrome(x ^ 1) == Syndrome(x)
    ensures ParityMismatch(x ^ 1) != ParityMismatch(x)
    ensures Distance(x, x ^ 1) == 1 && Syndrome(x ^ (x ^ 1)) == 0
  {
  }

  /** Classifies `x` from its syndrome and parity mismatch and flips at most
      one bit: nothing when no error is seen, bit 0 for a parity-bit error,
      otherwise the bit whose parity-check column equals the syndrome (for a
      double-bit error this flip does not restore the codeword). */
  function ErrorCorrect(x: bv8): (r: (bv8, ErrorType))
    ensures r.1 == NoError <==> IsCodeword(x)
    ensures r.1 == ParityBitError <==> Syndrome(x) == 0 && ParityMismatch(x)
    ensures r.1 == SingleBitError <==> Syndrome(x) != 0 && ParityMismatch(x)
    ensures r.1 == NoError ==> r.0 == x
    ensures r.1 == ParityBitError ==> r.0 == x ^ 1
    ensures r.1 == SingleBitError || r.1 == DoubleBitError ==> r.0 == Flip(x, BitForSyndrome(Syndrome(x)))
  {
    var syndrome := Syndrome(x);
    if (x & 1) != XParity(x) then
      if syndrome > 0 then
        (Flip(x, BitForSyndrome(syndrome)), SingleBitError)
      else
        (x ^ 1, ParityBitError)
    else
      if syndrome == 0 then
        (x, NoError)
      else
        (Flip(x, BitForSyndrome(syndrome)), DoubleBitError)
  }

  /** Whenever an error is reported exactly one bit changes, and the bits
      changed have the syndrome as their parity-check column; when none is
      reported nothing changes. */
  lemma ErrorCorrectFlipsOneBit(x: bv8)
    ensures ErrorCorrect(x).1 == NoError <==> ErrorCorrect(x).0 == x
    ensures ErrorCorrect(x).1 != NoError ==>
      Distance(x, ErrorCorrect(x).0) == 1 && Syndrome(x ^ ErrorCorrect(x).0) == Syndrome(x)
  {
    if Syndrome(x) != 0 {
      TableBitIsSyndromeColumn(x);
    } else {
      ParityBitFlip(x);
    }
  }

  /** Except for a double-bit error, the corrected byte is a valid codeword. */
  lemma ErrorCorrectRestoresCodeword(x: bv8)
    ensures ErrorCorrect(x).1 != DoubleBitError ==> IsCodeword(ErrorCorrect(x).0)
  {
    if Syndrome(x) != 0 {
      FlipTableBit(x);
    } else {
      ParityBitFlip(x);
    }
  }

  /** Bits 5, 3, 2, 1 of `x` reassembled as the nibble d3 d2 d1 d0. */
  function DataBits(x: bv8): (n: bv8)
    ensures n < 16
  {
    var d0, d1, d2, d3 := Bit(x, 1), Bit(x, 2), Bit(x, 3), Bit(x, 5);
    (d3 << 3) | (d2 << 2) | (d1 << 1) | d0
  }

  /** Corrects `x` and returns its data bits with the classification. */
  function Decode(x: bv8): (r: (bv8, ErrorType))
    ensures r.0 < 16
    ensures r.1 == ErrorCorrect(x).1
    ensures r.1 == NoError ==> Encode(r.0) == x
    ensures r.1 != DoubleBitError ==> Encode(r.0) == ErrorCorrect(x).0
  {
    var (data, errorType) := ErrorCorrect(x);
    ErrorCorrectRestoresCodeword(x);
    CodewordIffEncoded(data);
    (DataBits(data), errorType)
  }

  /** Only bits 0..3 of the argument influence the codeword. */
  lemma EncodeIgnoresHighBits(n: bv8)
    ensures Encode(n) == Encode(n & 0xF)
  {
  }

  /** Encoding is linear over XOR. */
  lemma EncodeLinear(a: bv8, b: bv8)
    ensures Encode(a ^ b) == Encode(a) ^ Encode(b)
  {
  }

  /** The valid codewords are exactly the encodings of the 16 nibbles. */
  lemma CodewordIffEncoded(x: bv8)
    ensures IsCodeword(x) <==> x == Encode(DataBits(x))
  {
  }

  /** The table is a bijection from the syndromes 1..7 onto the bit positions
      1..7: flipping bit j of a codeword yields the syndrome 8 - j, which the
      table maps back to j. */
  lemma SyndromeTableInverse(c: bv8, j: bv8)
    requires IsCodeword(c) && 1 <= j < 8
    ensures Syndrome(Flip(c, j)) == 8 - j && BitForSyndrome(Syndrome(Flip(c, j))) == j
  {
  }

  /** The other half of the bijection: for every non-zero syndrome `s`,
      flipping the bit the table names for `s` in a codeword produces
      syndrome `s`. */
  lemma SyndromeOfTableFlip(c: bv8, s: bv8)
    requires IsCodeword(c) && 0 < s < 8
    ensures Syndrome(Flip(c, BitForSyndrome(s))) == s
  {
  }

  /** The encoding of every nibble, as tabulated by hand. */
  const EXPECTED_X: seq<bv8> := [
    0x00, 0xD2, 0x55, 0x87, 0x99, 0x4B, 0xCC, 0x1E,
    0xE1, 0x33, 0xB4, 0x66, 0x78, 0xAA, 0x2D, 0xFF
  ]

  /** The encodings of the nibbles 0..7 are the tabulated ones. */
  lemma ExpectedCodewordsLow()
    ensures forall n :: 0 <= n < 8 ==> Encode(n as bv8) == EXPECTED_X[n]
  {
  }

  /** The encodings of the nibbles 8..15 are the tabulated ones. */
  lemma ExpectedCodewordsHigh()
    ensures forall n :: 8 <= n < 16 ==> Encode(n as bv8) == EXPECTED_X[n]
  {
  }

  lemma ExpectedCodewords()
    ensures forall n :: 0 <= n < 16 ==> Encode(n as bv8) == EXPECTED_X[n]
  {
    ExpectedCodewordsLow();
    ExpectedCodewordsHigh();
  }

  /** An uncorrupted codeword decodes to its nibble with no error. */
  lemma DecodeEncode(n: bv8)
    requires n < 16
    ensures Decode(Encode(n)) == (n, NoError)
  {
  }

  /** The parity-check columns of distinct bit positions differ, so two
      flipped bits of a codeword never cancel in the syndrome. */
  lemma TwoFlipsNonZeroSyndrome(c: bv8, i: bv8, j: bv8)
    requires Syndrome(c) == 0 && i < j < 8
    ensures Syndrome(Flip(Flip(c, i), j)) != 0
  {
  }

  /** Any single flipped bit is corrected; bit 0 is reported as a parity-bit error. */
  lemma SingleErrorCorrected(n: bv8, j: bv8)
    requires n < 16 && j < 8
    ensures Decode(Flip(Encode(n), j)) == (n, if j == 0 then ParityBitError else SingleBitError)
  {
    var c := Encode(n);
    FlipTogglesParity(c, j);
    if j == 0 {
      ParityBitFlip(c);
      assert Flip(c, j) ^ 1 == c;
    } else {
      SyndromeTableInverse(c, j);
      assert Flip(Flip(c, j), j) == c;
    }
  }

  /** Any two distinct flipped bits are detected as a double-bit error. */
  lemma DoubleErrorDetected(n: bv8, i: bv8, j: bv8)
    requires n < 16 && i < j < 8
    ensures Decode(Flip(Flip(Encode(n), i), j)).1 == DoubleBitError
  {
    var c := Encode(n);
    FlipTogglesParity(c, i);
    FlipTogglesParity(Flip(c, i), j);
    TwoFlipsNonZeroSyndrome(c, i, j);
  }
}
