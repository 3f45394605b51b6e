/** Hamming(7,4) single-error-correcting codec with the generator and
    parity-check matrices of the textbook layout: parity bits at positions
    0, 1 and 3, data bits at positions 2, 4, 5 and 6, and column j of H the
    binary numeral of j + 1 with row 0 as the least significant bit. */
module Hamming74Wikipedia {
  import opened Gf2

  const G: seq<seq<Bit>> := [
    [1, 1, 1, 0, 0, 0, 0],
    [1, 0, 0, 1, 1, 0, 0],
    [0, 1, 0, 1, 0, 1, 0],
    [1, 1, 0, 1, 0, 0, 1]
  ]

  const H: seq<seq<Bit>> := [
    [1, 0, 1, 0, 1, 0, 1],
    [0, 1, 1, 0, 0, 1, 1],
    [0, 0, 0, 1, 1, 1, 1]
  ]

  /** The positions of the data bits, in the order they are read back. */
  const DATA_POSITIONS: seq<nat> := [2, 4, 5, 6]

  /** Columns 0, 1 and 3 of pG mod 2: each parity bit is the XOR of three data bits. */
  lemma {:induction false} GeneratorParityColumns(p: seq<Bit>)
    requires |p| == 4
    ensures VecMat(p, G, 7)[0] == Xor(Xor(p[0], p[1]), p[3])
    ensures VecMat(p, G, 7)[1] == Xor(Xor(p[0], p[2]), p[3])
    ensures VecMat(p, G, 7)[3] == Xor(Xor(p[1], p[2]), p[3])
  {
    Dot4(p, Column(G, 0));
    Sum3Mod2(p[0], p[1], p[3]);
    Dot4(p, Column(G, 1));
    Sum3Mod2(p[0], p[2], p[3]);
    Dot4(p, Column(G, 3));
    Sum3Mod2(p[1], p[2], p[3]);
  }

  /** Columns 2, 4, 5 and 6 of G are unit columns, so pG mod 2 carries p there. */
  lemma {:induction false} GeneratorIdentityColumns(p: seq<Bit>)
    requires |p| == 4
    ensures VecMat(p, G, 7)[2] == p[0] && VecMat(p, G, 7)[4] == p[1]
    ensures VecMat(p, G, 7)[5] == p[2] && VecMat(p, G, 7)[6] == p[3]
  {
    Dot4(p, Column(G, 2));
    Dot4(p, Column(G, 4));
    Dot4(p, Column(G, 5));
    Dot4(p, Column(G, 6));
  }

  /** x = pG mod 2 written out entry by entry. */
  lemma GeneratorProduct(p: seq<Bit>)
    requires |p| == 4
    ensures VecMat(p, G, 7) == [
      Xor(Xor(p[0], p[1]), p[3]), Xor(Xor(p[0], p[2]), p[3]), p[0],
      Xor(Xor(p[1], p[2]), p[3]), p[1], p[2], p[3]]
  {
    GeneratorParityColumns(p);
    GeneratorIdentityColumns(p);
  }

  /** Row 0 of H checks positions 0, 2, 4 and 6. */
  lemma {:induction false} CheckRow0(x: seq<Bit>)
    requires |x| == 7
    ensures Dot(H[0], x) % 2 == Xor(Xor(x[0], x[2]), Xor(x[4], x[6]))
  {
    Dot7(H[0], x);
    Sum4Mod2(x[0], x[2], x[4], x[6]);
  }

  /** Row 1 of H checks positions 1, 2, 5 and 6. */
  lemma {:induction false} CheckRow1(x: seq<Bit>)
    requires |x| == 7
    ensures Dot(H[1], x) % 2 == Xor(Xor(x[1], x[2]), Xor(x[5], x[6]))
  {
    Dot7(H[1], x);
    Sum4Mod2(x[1], x[2], x[5], x[6]);
  }

  /** Row 2 of H checks positions 3, 4, 5 and 6. */
  lemma {:induction false} CheckRow2(x: seq<Bit>)
    requires |x| == 7
    ensures Dot(H[2], x) % 2 == Xor(Xor(x[3], x[4]), Xor(x[5], x[6]))
  {
    Dot7(H[2], x);
    Sum4Mod2(x[3], x[4], x[5], x[6]);
  }

  /** s = Hx mod 2 written out entry by entry. */
  lemma {:induction false} CheckProduct(x: seq<Bit>)
    requires |x| == 7
    ensures MatVec(H, x) == [
      Xor(Xor(x[0], x[2]), Xor(x[4], x[6])),
      Xor(Xor(x[1], x[2]), Xor(x[5], x[6])),
      Xor(Xor(x[3], x[4]), Xor(x[5], x[6]))]
  {
    CheckRow0(x);
    CheckRow1(x);
    CheckRow2(x);
  }

  /** The syndrome `H @ x % 2` of a received word. */
  function Syndrome(x: seq<Bit>): (s: seq<Bit>)
    requires |x| == 7
    ensures |s| == 3
  {
    MatVec(H, x)
  }

  /** The entries of `x` at the data positions 2, 4, 5 and 6. */
  function Data(x: seq<Bit>): (d: seq<Bit>)
    requires |x| == 7
    ensures |d| == 4
  {
    [x[2], x[4], x[5], x[6]]
  }

  /** Every product pG mod 2 satisfies all three parity checks of H. */
  lemma {:induction false} GeneratedIsCodeword(p: seq<Bit>)
    requires |p| == 4
    ensures MatVec(H, VecMat(p, G, 7)) == ZERO
  {
    var x := VecMat(p, G, 7);
    GeneratorProduct(p);
    CheckProduct(x);
    XorZero4(x[0], x[2], x[4], x[6]);
    XorZero4(x[1], x[2], x[5], x[6]);
    XorZero4(x[3], x[4], x[5], x[6]);
  }

  /** Encodes four data bits as x = pG mod 2. The data reappear unchanged at
      the data positions and the result is a codeword (zero syndrome). */
  function Encode(p: seq<Bit>): (x: seq<Bit>)
    requires |p| == 4
    ensures |x| == 7
    ensures Data(x) == p
    ensures Syndrome(x) == ZERO
  {
    GeneratedIsCodeword(p);
    GeneratorIdentityColumns(p);
    VecMat(p, G, 7)
  }

  /** The syndrome reversed and read as a binary numeral: 0 for a zero
      syndrome, otherwise one more than the position whose column of H
      equals the syndrome. */
  function SToIndex(s: seq<Bit>): (n: nat)
    requires |s| == 3
    ensures n < 8
    ensures n == 0 <==> s == ZERO
    ensures n > 0 ==> Column(H, n - 1) == s
  {
    FromBinary3(Reverse(s));
    var n := FromBinary(Reverse(s));
    if n > 0 then
      NumeralIsColumn(s, n);
      n
    else
      n
  }

  /** Copies the syndrome into a fresh list, reverses that list in place
      and reads it as a binary numeral. */
  method ComputeSToIndex(s: seq<Bit>) returns (n: nat)
    requires |s| == 3
    ensures n == SToIndex(s)
  {
    var a := new Bit[3];
    a[0], a[1], a[2] := s[0], s[1], s[2];
    assert a[..] == s;
    ReverseInPlace(a);
    n := FromBinary(a[..]);
  }

  /** Column k of H, reversed and read as a binary numeral, is k + 1. */
  lemma {:induction false} ColumnValue(k: nat)
    requires k < 7
    ensures FromBinary(Reverse(Column(H, k))) == k + 1
  {
    FromBinary3(Reverse(Column(H, k)));
    if k == 0 { } else if k == 1 { } else if k == 2 { } else if k == 3 { }
    else if k == 4 { } else if k == 5 { } else { }
  }

  /** A syndrome whose reversed numeral is n > 0 equals column n - 1 of H. */
  lemma {:induction false} NumeralIsColumn(s: seq<Bit>, n: nat)
    requires |s| == 3 && 0 < n < 8 && FromBinary(Reverse(s)) == n
    ensures Column(H, n - 1) == s
  {
    var c := Column(H, n - 1);
    ColumnValue(n - 1);
    FromBinaryInjective(Reverse(c), Reverse(s));
    assert forall k :: 0 <= k < 3 ==> c[k] == Reverse(c)[2 - k] == Reverse(s)[2 - k] == s[k];
  }

  /** Flipping the entry that the numeral of a non-zero syndrome names
      clears the syndrome. */
  lemma {:induction false} FlipClearsSyndrome(x: seq<Bit>)
    requires |x| == 7 && Syndrome(x) != ZERO
    ensures 0 < SToIndex(Syndrome(x)) && Column(H, SToIndex(Syndrome(x)) - 1) == Syndrome(x)
    ensures Syndrome(Flip(x, SToIndex(Syndrome(x)) - 1)) == ZERO
  {
    var s := Syndrome(x);
    var i := SToIndex(s) - 1;
    SyndromeOfFlip(x, i);
    assert AddVec(s, s) == ZERO;
  }

  /** The word after correction: unchanged for a zero syndrome, otherwise
      the entry at one less than the syndrome's numeral is flipped. Every
      word lies within one flip of a codeword, so the result always has
      zero syndrome. */
  function Corrected(x: seq<Bit>): (y: seq<Bit>)
    requires |x| == 7
    ensures |y| == 7
    ensures Syndrome(y) == ZERO
    ensures Syndrome(x) == ZERO ==> y == x
    ensures Syndrome(x) != ZERO ==>
      Column(H, SToIndex(Syndrome(x)) - 1) == Syndrome(x) && y == Flip(x, SToIndex(Syndrome(x)) - 1)
  {
    var s := Syndrome(x);
    if Sum(s) > 0 then
      FlipClearsSyndrome(x);
      Flip(x, SToIndex(s) - 1)
    else
      assert s == ZERO;
      x
  }

  /** Reads the data positions of `x` into a new list, one entry at a time. */
  method GetData(x: array<Bit>) returns (d: seq<Bit>)
    requires x.Length == 7
    ensures d == Data(x[..])
  {
    d := [];
    for k := 0 to |DATA_POSITIONS|
      invariant |d| == k
      invariant forall j :: 0 <= j < k ==> d[j] == x[DATA_POSITIONS[j]]
    {
      d := d + [x[DATA_POSITIONS[k]]];
    }
  }

  /** Decodes `x` in place: if the syndrome is non-zero the offending entry of
      the caller's array is flipped, and the data positions are returned. */
  method Decode(x: array<Bit>) returns (data: seq<Bit>)
    requires x.Length == 7
    modifies x
    ensures x[..] == Corrected(old(x[..]))
    ensures data == Data(x[..])
  {
    var s := Syndrome(x[..]);
    if Sum(s) > 0 {
      var index := ComputeSToIndex(s);
      x[index - 1] := Xor(x[index - 1], 1);
    }
    data := GetData(x);
  }

  /** Flipping entry i adds column i of H to the syndrome. */
  lemma {:induction false} SyndromeOfFlip(x: seq<Bit>, i: nat)
    requires |x| == 7 && i < 7
    ensures Syndrome(Flip(x, i)) == AddVec(Syndrome(x), Column(H, i))
  {
    MatVecFlip(H, x, i);
  }

  /** With zero syndrome, each parity position is the XOR of the three data
      positions its row of H checks. */
  lemma {:induction false} ZeroSyndromeParities(x: seq<Bit>)
    requires |x| == 7 && Syndrome(x) == ZERO
    ensures x[0] == Xor(Xor(x[2], x[4]), x[6])
    ensures x[1] == Xor(Xor(x[2], x[5]), x[6])
    ensures x[3] == Xor(Xor(x[4], x[5]), x[6])
  {
    CheckProduct(x);
    XorZero4(x[0], x[2], x[4], x[6]);
    XorZero4(x[1], x[2], x[5], x[6]);
    XorZero4(x[3], x[4], x[5], x[6]);
  }

  /** The words with zero syndrome are exactly the encodings of their own
      data positions. */
  lemma {:induction false} CodewordIffEncoded(x: seq<Bit>)
    requires |x| == 7
    ensures Syndrome(x) == ZERO <==> x == Encode(Data(x))
  {
    if Syndrome(x) == ZERO {
      ZeroSyndromeParities(x);
      GeneratorProduct(Data(x));
    }
  }

  /** Encoding is linear over GF(2): the codeword of a sum of data vectors
      is the sum of their codewords. */
  lemma {:induction false} EncodeLinear(p: seq<Bit>, q: seq<Bit>)
    requires |p| == |q| == 4
    ensures Encode(AddVec(p, q)) == AddVec(Encode(p), Encode(q))
  {
    VecMatLinear(p, q, G, 7);
  }

  /** A codeword is decoded to its own data with no entry flipped. */
  lemma DecodeEncode(p: seq<Bit>)
    requires |p| == 4
    ensures Corrected(Encode(p)) == Encode(p)
    ensures Data(Corrected(Encode(p))) == p
  {
  }

  /** The numeral of column k of H names position k again. */
  lemma {:induction false} SToIndexOfColumn(k: nat)
    requires k < 7
    ensures SToIndex(Column(H, k)) == k + 1
  {
    ColumnValue(k);
  }

  /** A single flipped entry of a codeword shows up as its column of H. */
  lemma {:induction false} SyndromeOfSingleError(c: seq<Bit>, i: nat)
    requires |c| == 7 && i < 7 && Syndrome(c) == ZERO
    ensures Syndrome(Flip(c, i)) == Column(H, i)
  {
    SyndromeOfFlip(c, i);
    assert AddVec(ZERO, Column(H, i)) == Column(H, i);
  }

  /** A word whose syndrome is column i of H is corrected at position i. */
  lemma {:induction false} CorrectsColumn(e: seq<Bit>, i: nat)
    requires |e| == 7 && i < 7 && Syndrome(e) == Column(H, i)
    ensures Corrected(e) == Flip(e, i)
  {
    SToIndexOfColumn(i);
    assert Sum(Syndrome(e)) > 0;
  }

  /** Any single flipped entry of a codeword is corrected and the data restored. */
  lemma {:induction false} SingleErrorCorrected(p: seq<Bit>, i: nat)
    requires |p| == 4 && i < 7
    ensures Corrected(Flip(Encode(p), i)) == Encode(p)
    ensures Data(Corrected(Flip(Encode(p), i))) == p
  {
    var c := Encode(p);
    SyndromeOfSingleError(c, i);
    CorrectsColumn(Flip(c, i), i);
    FlipTwice(c, i);
  }

  /** The hand-computed encodings. */
  lemma ExpectedCodewords()
    ensures Encode([1, 0, 1, 1]) == [0, 1, 1, 0, 0, 1, 1]
    ensures Encode([1, 0, 0, 0]) == [1, 1, 1, 0, 0, 0, 0]
    ensures Encode([1, 1, 1, 1]) == [1, 1, 1, 1, 1, 1, 1]
    ensures Encode([1, 0, 1, 0]) == [1, 0, 1, 1, 0, 1, 0]
  {
    GeneratorProduct([1, 0, 1, 1]);
    GeneratorProduct([1, 0, 0, 0]);
    GeneratorProduct([1, 1, 1, 1]);
    GeneratorProduct([1, 0, 1, 0]);
  }
}
