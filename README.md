# Hamming codes: SECDED (8,4) over bytes and (7,4) over 0/1 vectors

This project models four small error-correcting codecs and proves their
coding properties.

- Two extended Hamming(8,4) codecs encode a 4-bit nibble into a byte:
  `HammingCode` in `hamming_code.dfy` and `HammingCodeWikipedia` in
  `hamming_code_wikipedia.dfy`.
  - Each byte holds three Hamming bits and an overall even-parity bit.
  - The error corrector computes a 3-bit syndrome and a parity-mismatch
    flag. It classifies the byte as `NoError`, `ParityBitError`,
    `SingleBitError` or `DoubleBitError` and flips at most one bit.
  - The codecs are pure functions over `bv8` (a Rust `u8`).
  - The shared error type and bit helpers are in `Secded` (`secded.dfy`).
- Two Hamming(7,4) single-error-correcting codecs work over 0/1 vectors:
  `Hamming74` in `hamming74.dfy` and `Hamming74Wikipedia` in
  `hamming74_wikipedia.dfy`.
  - Encoding is `x = pG mod 2`.
  - Decoding computes `s = Hx mod 2`. For a non-zero `s` it flips one entry
    of the caller's array in place, then reads the data positions with a
    loop.
  - The mod-2 vector and matrix products that numpy provides are defined in
    `Gf2` (`gf2.dfy`).
  - Decode and the data read-back are methods over `array<Bit>`, specified
    by the pure functions `Corrected` and `Data`.
  - In `Hamming74Wikipedia`, the syndrome lookup copies the syndrome into a
    fresh array and reverses it in place (`ComputeSToIndex`,
    `Gf2.ReverseInPlace`).

In `hamming_code.rs` the bit layout is d3 d2 d1 d0 in bits 7..4, then
h2 h1 h0 in bits 3..1 and the overall parity in bit 0, as the doc comment
at hamming_code.rs:15-17 names them. The Hamming bits are
h[0] = d3^d2^d0, h[1] = d3^d1^d0 and h[2] = d2^d1^d0 (line 23), and line 28
stores h[2] at bit 3. The model follows that code. The doc comments at
hamming_code_wikipedia.rs:85 and :92 describe the other file's layout; the
model follows the code beneath them.

## Model

| member | source | states |
|---|---|---|
| Secded.Bit | hamming_code.rs:20 | `x >> i & 1` is 0 or 1, and it is 1 exactly when bit i of x is set |
| Secded.Flip | hamming_code.rs:76 | `x ^ 1 << i` inverts bit i and keeps every other bit |
| Secded.XParity | hamming_code.rs:49-56 | `x_parity`, the XOR of bits 7..1, is 0 or 1 |
| Secded.ParityMismatch | hamming_code.rs:58 | the test `x & 1 != x_parity` holds exactly when x has an odd number of set bits |
| Secded.PopCount | hamming_code.rs:26-28 | the set-bit count is at most 8 and is zero only for the zero byte |
| Secded.ParityMatchIffEvenPopCount | hamming_code.rs:49-58 | bit 0 equals the XOR of bits 7..1 exactly when the byte has an even number of set bits |
| Secded.FlipTogglesParity | hamming_code.rs:58 | flipping any single bit toggles the parity-mismatch test |
| HammingCode.Encode | hamming_code.rs:18-29 | bits 7..4 of the codeword are the low nibble of n, the codeword has zero syndrome and no parity mismatch, and it has even popcount |
| HammingCode.Syndrome | hamming_code.rs:40-47 | the syndrome is a 3-bit value below 8 |
| HammingCode.BitForSyndrome | hamming_code.rs:74-75 | for a non-zero syndrome the table gives a bit position in 1..7, so the `u8::MAX` entry is never read and the shift stays below 8 |
| HammingCode.FlipTableBit | hamming_code.rs:72-76 | for a non-zero syndrome, flipping the table's bit clears the syndrome and toggles the parity mismatch |
| HammingCode.TableBitIsSyndromeColumn | hamming_code.rs:31-76 | that flip changes exactly one bit, and the changed bit's parity-check column equals the syndrome |
| HammingCode.ParityBitFlip | hamming_code.rs:62 | flipping bit 0 keeps the syndrome, toggles the parity mismatch and changes exactly one bit |
| HammingCode.ErrorCorrect | hamming_code.rs:38-77 | NoError iff x is a valid codeword; ParityBitError iff the syndrome is 0 with a parity mismatch; SingleBitError iff the syndrome is non-zero with a mismatch; NoError returns x, ParityBitError returns x ^ 1, and the other two flip the table's bit |
| HammingCode.ErrorCorrectFlipsOneBit | hamming_code.rs:57-76 | the result equals x iff NoError; otherwise exactly one bit changes and its column equals the syndrome |
| HammingCode.ErrorCorrectRestoresCodeword | hamming_code.rs:57-76 | unless DoubleBitError is reported, the corrected byte is a valid codeword |
| HammingCode.Decode | hamming_code.rs:80-83 | the data is below 16 and the kind is the corrector's; with NoError re-encoding the data gives x back; unless DoubleBitError, re-encoding gives the corrected byte |
| HammingCode.EncodeIgnoresHighBits | hamming_code.rs:18-20 | only bits 0..3 of n influence the codeword |
| HammingCode.EncodeLinear | hamming_code.rs:18-29 | encoding is linear over XOR |
| HammingCode.CodewordIffEncoded | hamming_code.rs:18-47 | a byte is a valid codeword exactly when it is the encoding of its own bits 7..4 |
| HammingCode.SyndromeTableInverse | hamming_code.rs:40-75 | flipping bit j in 1..7 of a codeword gives a non-zero syndrome that the table maps back to j |
| HammingCode.SyndromeOfTableFlip | hamming_code.rs:40-75 | for every non-zero syndrome s, flipping the bit the table names for s in a codeword yields syndrome s |
| HammingCode.ExpectedCodewordsLow | hamming_code.rs:88-90 | the encodings of 0..7 are the hand-computed ones |
| HammingCode.ExpectedCodewordsHigh | hamming_code.rs:88-91 | the encodings of 8..15 are the hand-computed ones |
| HammingCode.ExpectedCodewords | hamming_code.rs:183-188 | all 16 encodings equal EXPECTED_X |
| HammingCode.DecodeEncode | hamming_code.rs:156-164 | every nibble below 16 decodes from its codeword to itself with NoError |
| HammingCode.TwoFlipsNonZeroSyndrome | hamming_code.rs:33-36 | two distinct flipped bits of a codeword never leave a zero syndrome |
| HammingCode.SingleErrorCorrected | hamming_code.rs:166-181 | any one flipped bit is corrected back to the nibble, with ParityBitError for bit 0 and SingleBitError otherwise |
| HammingCode.DoubleErrorDetected | hamming_code.rs:118-154 | every flip of two distinct bits of a codeword is reported as DoubleBitError |
| HammingCodeWikipedia.Encode | hamming_code_wikipedia.rs:24-41 | the data bits read back from the codeword are the low nibble of n, and the codeword is valid with even popcount |
| HammingCodeWikipedia.Syndrome | hamming_code_wikipedia.rs:52-58 | the syndrome is a 3-bit value below 8 |
| HammingCodeWikipedia.BitForSyndrome | hamming_code_wikipedia.rs:87-88 | for a non-zero syndrome s the table gives bit 8 - s, which lies in 1..7 |
| HammingCodeWikipedia.FlipTableBit | hamming_code_wikipedia.rs:83-89 | for a non-zero syndrome, flipping the table's bit clears the syndrome and toggles the parity mismatch |
| HammingCodeWikipedia.TableBitIsSyndromeColumn | hamming_code_wikipedia.rs:43-89 | that flip changes exactly one bit, and the changed bit's parity-check column equals the syndrome |
| HammingCodeWikipedia.ParityBitFlip | hamming_code_wikipedia.rs:73 | flipping bit 0 keeps the syndrome, toggles the parity mismatch and changes exactly one bit |
| HammingCodeWikipedia.ErrorCorrect | hamming_code_wikipedia.rs:50-90 | the same classification as HammingCode.ErrorCorrect (each kind stated as an iff) and the same result per kind |
| HammingCodeWikipedia.ErrorCorrectFlipsOneBit | hamming_code_wikipedia.rs:68-89 | the result equals x iff NoError; otherwise exactly one bit changes and its column equals the syndrome |
| HammingCodeWikipedia.ErrorCorrectRestoresCodeword | hamming_code_wikipedia.rs:68-89 | unless DoubleBitError is reported, the corrected byte is a valid codeword |
| HammingCodeWikipedia.DataBits | hamming_code_wikipedia.rs:95-96 | bits 5, 3, 2, 1 reassemble into a value below 16 |
| HammingCodeWikipedia.Decode | hamming_code_wikipedia.rs:93-97 | the data is below 16 and the kind is the corrector's; with NoError re-encoding the data gives x back; unless DoubleBitError, re-encoding gives the corrected byte |
| HammingCodeWikipedia.EncodeIgnoresHighBits | hamming_code_wikipedia.rs:24-26 | only bits 0..3 of n influence the codeword |
| HammingCodeWikipedia.EncodeLinear | hamming_code_wikipedia.rs:24-41 | encoding is linear over XOR |
| HammingCodeWikipedia.CodewordIffEncoded | hamming_code_wikipedia.rs:24-58 | a byte is a valid codeword exactly when it is the encoding of its own data bits |
| HammingCodeWikipedia.SyndromeTableInverse | hamming_code_wikipedia.rs:52-88 | flipping bit j in 1..7 of a codeword gives syndrome 8 - j, which the table maps back to j |
| HammingCodeWikipedia.SyndromeOfTableFlip | hamming_code_wikipedia.rs:52-88 | for every non-zero syndrome s, flipping the bit the table names for s in a codeword yields syndrome s |
| HammingCodeWikipedia.ExpectedCodewordsLow | hamming_code_wikipedia.rs:102-104 | the encodings of 0..7 are the hand-computed ones |
| HammingCodeWikipedia.ExpectedCodewordsHigh | hamming_code_wikipedia.rs:102-105 | the encodings of 8..15 are the hand-computed ones |
| HammingCodeWikipedia.ExpectedCodewords | hamming_code_wikipedia.rs:184-189 | all 16 encodings equal EXPECTED_X |
| HammingCodeWikipedia.DecodeEncode | hamming_code_wikipedia.rs:151-161 | every nibble below 16 decodes from its codeword to itself with NoError |
| HammingCodeWikipedia.TwoFlipsNonZeroSyndrome | hamming_code_wikipedia.rs:44-47 | two distinct flipped bits of a codeword never leave a zero syndrome |
| HammingCodeWikipedia.SingleErrorCorrected | hamming_code_wikipedia.rs:164-181 | any one flipped bit is corrected back to the nibble, with ParityBitError for bit 0 and SingleBitError otherwise |
| HammingCodeWikipedia.DoubleErrorDetected | hamming_code_wikipedia.rs:133-148 | every flip of two distinct bits of a codeword is reported as DoubleBitError |
| Gf2.Xor | hamming_code.py:23 | `a ^ b` on 0/1 values equals their integer sum mod 2, the reduction `% 2` applies to numpy's products |
| Gf2.Flip | hamming_code.py:23 | `x[i] ^= 1` inverts entry i and keeps every other entry |
| Gf2.AddVec | hamming_code.py:68 | `(c + e) % 2`, the entrywise mod-2 sum, is 0 exactly where the vectors agree |
| Gf2.VecMatLinear | hamming_code.py:11 | `(p @ G) % 2` is linear: the product of a mod-2 sum of vectors is the mod-2 sum of their products |
| Gf2.MatVecLinear | hamming_code.py:19 | `(H @ x) % 2` is linear in x over mod-2 vector addition |
| Gf2.DotAdd | hamming_code.py:19 | mod 2, the dot product of a row with a sum of vectors is the sum of the dot products |
| Gf2.DotComm | hamming_code.py:11 | the dot product is symmetric, so a column of G dotted with p is p dotted with that column |
| Gf2.Sum | hamming_code.py:21 | `s.sum()` is zero exactly when every entry is zero |
| Gf2.FromBinary | hamming_code.py:36 | the digits read as a binary numeral give a value below 2^n, zero exactly for all-zero digits |
| Gf2.FromBinaryInjective | hamming_code.py:36 | numerals of equal length and equal value have equal digits |
| Gf2.FromBinary3 | hamming_code.py:36 | a three-digit numeral is 4·s[0] + 2·s[1] + s[2] |
| Gf2.Reverse | hamming_code_wikipedia.py:36 | entry k of the reversal is entry n-1-k of the input |
| Gf2.ReverseInPlace | hamming_code_wikipedia.py:35-36 | the in-place swap loop leaves the array holding the reversal of its old contents |
| Gf2.DotFlip | hamming_code.py:19-23 | inverting entry i changes the dot product by a[i] in one direction or the other |
| Gf2.MatVecFlip | hamming_code.py:19-23 | inverting entry i of x adds column i of the matrix to `(H @ x) % 2` |
| Gf2.FlipTwice | hamming_code.py:23 | inverting the same entry twice restores the vector |
| Gf2.XorZero4 | hamming_code.py:15-19 | a four-bit parity check holds exactly when the first bit is the XOR of the other three |
| Hamming74.GeneratorParityColumns | hamming_code.py:5-11 | columns 0..2 of pG mod 2 are p1^p2^p3, p0^p2^p3 and p0^p1^p3 |
| Hamming74.GeneratorIdentityColumns | hamming_code.py:5-11 | positions 3..6 of pG mod 2 are p |
| Hamming74.GeneratorProduct | hamming_code.py:5-11 | pG mod 2 is the seven-entry vector of those parity and data bits |
| Hamming74.CheckRow0 | hamming_code.py:16-19 | row 0 of H checks x0^x4^x5^x6 |
| Hamming74.CheckRow1 | hamming_code.py:17-19 | row 1 of H checks x1^x3^x5^x6 |
| Hamming74.CheckRow2 | hamming_code.py:18-19 | row 2 of H checks x2^x3^x4^x6 |
| Hamming74.CheckProduct | hamming_code.py:15-19 | Hx mod 2 is the three-entry vector of those checks |
| Hamming74.Syndrome | hamming_code.py:19 | the syndrome has three entries |
| Hamming74.GeneratedIsCodeword | hamming_code.py:5-19 | every pG mod 2 has a zero syndrome |
| Hamming74.Encode | hamming_code.py:4-12 | the codeword has seven entries, positions 3..6 carry p, and its syndrome is zero |
| Hamming74.IndexOf | hamming_code.py:37 | `tuple.index(v)` fails exactly when v is absent; otherwise it returns the first position holding v |
| Hamming74.SToIndex | hamming_code.py:34-37 | the lookup fails exactly for the zero syndrome; otherwise it returns a position below 7 whose column of H equals the syndrome |
| Hamming74.ListedIffNonZero | hamming_code.py:36-37 | the syndrome's numeral is among (4,2,1,3,5,6,7) exactly when the syndrome is non-zero |
| Hamming74.ListedValueIsColumn | hamming_code.py:15-37 | a syndrome whose numeral is listed at k equals column k of H |
| Hamming74.ColumnValue | hamming_code.py:15-37 | column k of H read as a numeral is entry k of (4,2,1,3,5,6,7) |
| Hamming74.IndexOfDistinct | hamming_code.py:37 | in a tuple without repeats, looking up the entry at k returns k |
| Hamming74.SToIndexOfColumn | hamming_code.py:34-37 | the lookup of column k of H returns k |
| Hamming74.SyndromeOfFlip | hamming_code.py:19-23 | flipping entry i adds column i of H to the syndrome |
| Hamming74.Corrected | hamming_code.py:19-23 | the corrected word always has zero syndrome; a zero syndrome leaves the word unchanged; otherwise exactly the entry whose column of H equals the syndrome is flipped |
| Hamming74.GetData | hamming_code.py:28-32 | the loop returns positions 3..6 of the array |
| Hamming74.Decode | hamming_code.py:14-26 | the caller's array ends up corrected in place, and the returned data are its positions 3..6 |
| Hamming74.ZeroSyndromeParities | hamming_code.py:15-19 | with zero syndrome each parity position is the XOR of the three data positions its row checks |
| Hamming74.CodewordIffEncoded | hamming_code.py:4-19 | a word has zero syndrome exactly when it is the encoding of its own positions 3..6 |
| Hamming74.EncodeLinear | hamming_code.py:4-12 | the codeword of a mod-2 sum of data vectors is the mod-2 sum of their codewords |
| Hamming74.DecodeEncode | hamming_code.py:21-26 | a codeword is left unchanged and decodes to its data |
| Hamming74.SyndromeOfSingleError | hamming_code.py:64-68 | one flipped entry of a codeword shows up as its column of H |
| Hamming74.CorrectsColumn | hamming_code.py:21-23 | a word whose syndrome is column i of H is corrected at position i |
| Hamming74.SingleErrorCorrected | hamming_code.py:64-70 | every single flipped entry of every codeword is corrected and the data restored |
| Hamming74.ExpectedCodewords | hamming_code.py:40-62 | the five hand-computed encodings hold |
| Hamming74Wikipedia.GeneratorParityColumns | hamming_code_wikipedia.py:5-11 | columns 0, 1 and 3 of pG mod 2 are p0^p1^p3, p0^p2^p3 and p1^p2^p3 |
| Hamming74Wikipedia.GeneratorIdentityColumns | hamming_code_wikipedia.py:5-11 | positions 2, 4, 5, 6 of pG mod 2 are p0..p3 |
| Hamming74Wikipedia.GeneratorProduct | hamming_code_wikipedia.py:5-11 | pG mod 2 is the seven-entry vector of those parity and data bits |
| Hamming74Wikipedia.CheckRow0 | hamming_code_wikipedia.py:16-19 | row 0 of H checks x0^x2^x4^x6 |
| Hamming74Wikipedia.CheckRow1 | hamming_code_wikipedia.py:17-19 | row 1 of H checks x1^x2^x5^x6 |
| Hamming74Wikipedia.CheckRow2 | hamming_code_wikipedia.py:18-19 | row 2 of H checks x3^x4^x5^x6 |
| Hamming74Wikipedia.CheckProduct | hamming_code_wikipedia.py:15-19 | Hx mod 2 is the three-entry vector of those checks |
| Hamming74Wikipedia.Syndrome | hamming_code_wikipedia.py:19 | the syndrome has three entries |
| Hamming74Wikipedia.GeneratedIsCodeword | hamming_code_wikipedia.py:5-19 | every pG mod 2 has a zero syndrome |
| Hamming74Wikipedia.Encode | hamming_code_wikipedia.py:4-12 | the codeword has seven entries, its data positions 2, 4, 5, 6 carry p, and its syndrome is zero |
| Hamming74Wikipedia.SToIndex | hamming_code_wikipedia.py:34-37 | the reversed numeral is below 8, is 0 exactly for the zero syndrome, and otherwise is one more than the position whose column of H equals the syndrome |
| Hamming74Wikipedia.ComputeSToIndex | hamming_code_wikipedia.py:34-37 | copying, reversing in place and reading the numeral yields SToIndex |
| Hamming74Wikipedia.ColumnValue | hamming_code_wikipedia.py:15-37 | column k of H reversed and read as a numeral is k + 1 |
| Hamming74Wikipedia.NumeralIsColumn | hamming_code_wikipedia.py:23-37 | a syndrome whose reversed numeral is n > 0 equals column n - 1 of H |
| Hamming74Wikipedia.FlipClearsSyndrome | hamming_code_wikipedia.py:21-23 | flipping position index - 1 for a non-zero syndrome clears it |
| Hamming74Wikipedia.Corrected | hamming_code_wikipedia.py:19-23 | the corrected word always has zero syndrome; a zero syndrome leaves the word unchanged; otherwise position index - 1 is flipped, and its column of H equals the syndrome |
| Hamming74Wikipedia.GetData | hamming_code_wikipedia.py:28-32 | the loop over (2, 4, 5, 6) returns those positions of the array |
| Hamming74Wikipedia.Decode | hamming_code_wikipedia.py:14-26 | the caller's array ends up corrected in place, and the returned data are its positions 2, 4, 5, 6 |
| Hamming74Wikipedia.SyndromeOfFlip | hamming_code_wikipedia.py:19-23 | flipping entry i adds column i of H to the syndrome |
| Hamming74Wikipedia.ZeroSyndromeParities | hamming_code_wikipedia.py:15-19 | with zero syndrome each parity position is the XOR of the three data positions its row checks |
| Hamming74Wikipedia.CodewordIffEncoded | hamming_code_wikipedia.py:4-19 | a word has zero syndrome exactly when it is the encoding of its own data positions |
| Hamming74Wikipedia.EncodeLinear | hamming_code_wikipedia.py:4-12 | the codeword of a mod-2 sum of data vectors is the mod-2 sum of their codewords |
| Hamming74Wikipedia.DecodeEncode | hamming_code_wikipedia.py:21-26 | a codeword is left unchanged and decodes to its data |
| Hamming74Wikipedia.SToIndexOfColumn | hamming_code_wikipedia.py:34-37 | the reversed numeral of column k of H is k + 1 |
| Hamming74Wikipedia.SyndromeOfSingleError | hamming_code_wikipedia.py:61-65 | one flipped entry of a codeword shows up as its column of H |
| Hamming74Wikipedia.CorrectsColumn | hamming_code_wikipedia.py:21-23 | a word whose syndrome is column i of H is corrected at position i |
| Hamming74Wikipedia.SingleErrorCorrected | hamming_code_wikipedia.py:61-67 | every single flipped entry of every codeword is corrected and the data restored |
| Hamming74Wikipedia.ExpectedCodewords | hamming_code_wikipedia.py:40-59 | the four hand-computed encodings hold |

## Left out

- The `main` functions, console output and the test loops are not modelled as code. Their assertions are stated as lemmas over all inputs (single-bit, double-bit and no-error cases, and the hand-computed vectors).
- The `#[derive(Debug, PartialEq)]` attributes are not modelled: `ErrorType` is a datatype with built-in equality.
- Rust's panic on a shift of 8 or more is not modelled. `BitForSyndrome` requires a non-zero syndrome, and every caller proves one, so the `u8::MAX` entry is never read.
- HammingCode.ErrorCorrect: with DoubleBitError, the flipped byte is modelled exactly, but nothing is proved about whether its data are right, because the code cannot correct two errors.
- HammingCodeWikipedia.ErrorCorrect: the same holds for DoubleBitError in this layout.
- numpy is not modelled beyond the mod-2 products over 0/1 vectors. dtypes, `np.array` allocation and `array_equal` are left out. `Gf2.Bit` restricts entries to 0 and 1, and the Python operations require lengths 4 and 7 as the matrices do.
- The string round trip `int(''.join(...), 2)` in `_s_to_index` is modelled as the numeric value of the digits (`Gf2.FromBinary`). In `hamming_code.py`, Python's `ValueError` for a zero syndrome is modelled as `None`. The decoder never reaches it.
- In `hamming_code_wikipedia.py`, a zero syndrome would make the decoder flip `x[-1]`. That path is unreachable, because the lookup only runs for a non-zero syndrome. The model proves that the index is then in 1..7.
- The two Python encoders are modelled as functions, because the numpy product returns a fresh array and cannot alias its input.
