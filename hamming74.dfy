/** Hamming(7,4) single-error-correcting codec over 0/1 vectors, with the
    generator matrix G = [P | I] (data bits p[0..3] at positions 3..6) and a
    parity-check matrix H whose columns, read with row 0 as the most
    significant bit, are 4, 2, 1, 3, 5, 6, 7. */
module Hamming74 {
  import opened Gf2

  datatype Option<T> = None | Some(value: T)

  const G: seq<seq<Bit>> := [
    [0, 1, 1, 1, 0, 0, 0],
    [1, 0, 1, 0, 1, 0, 0],
    [1, 1, 0, 0, 0, 1, 0],
    [1, 1, 1, 0, 0, 0, 1]
  ]

  const H: seq<seq<Bit>> := [
    [1, 0, 0, 0, 1, 1, 1],
    [0, 1, 0, 1, 0, 1, 1],
    [0, 0, 1, 1, 1, 0, 1]
  ]

  /** Column k of H read as a binary number (row 0 most significant). */
  const COLUMN_VALUES: seq<nat> := [4, 2, 1, 3, 5, 6, 7]

  /** Columns 0..2 of pG mod 2: each parity bit is the XOR of three data bits. */
  lemma {:induction false} GeneratorParityColumns(p: seq<Bit>)
    requires |p| == 4
    ensures VecMat(p, G, 7)[0] == Xor(Xor(p[1], p[2]), p[3])
    ensures VecMat(p, G, 7)[1] == Xor(Xor(p[0], p[2]), p[3])
    ensures VecMat(p, G, 7)[2] == Xor(Xor(p[0], p[1]), p[3])
  {
    Dot4(p, Column(G, 0));
    Sum3Mod2(p[1], p[2], p[3]);
    Dot4(p, Column(G, 1));
    Sum3Mod2(p[0], p[2], p[3]);
    Dot4(p, Column(G, 2));
    Sum3Mod2(p[0], p[1], p[3]);
  }

  /** Columns 3..6 of G form the identity, so pG mod 2 carries p there. */
  lemma {:induction false} GeneratorIdentityColumns(p: seq<Bit>)
    requires |p| == 4
    ensures VecMat(p, G, 7)[3..] == p
  {
    Dot4(p, Column(G, 3));
    Dot4(p, Column(G, 4));
    Dot4(p, Column(G, 5));
    Dot4(p, Column(G, 6));
  }

  /** x = pG mod 2 written out entry by entry. */
  lemma GeneratorProduct(p: seq<Bit>)
    requires |p| == 4
    ensures VecMat(p, G, 7) == [
      Xor(Xor(p[1], p[2]), p[3]), Xor(Xor(p[0], p[2]), p[3]), Xor(Xor(p[0], p[1]), p[3]),
      p[0], p[1], p[2], p[3]]
  {
    GeneratorParityColumns(p);
    GeneratorIdentityColumns(p);
  }

  /** Row 0 of H checks positions 0, 4, 5 and 6. */
  lemma {:induction false} CheckRow0(x: seq<Bit>)
    requires |x| == 7
    ensures Dot(H[0], x) % 2 == Xor(Xor(x[0], x[4]), Xor(x[5], x[6]))
  {
    Dot7(H[0], x);
    Sum4Mod2(x[0], x[4], x[5], x[6]);
  }

  /** Row 1 of H checks positions 1, 3, 5 and 6. */
  lemma {:induction false} CheckRow1(x: seq<Bit>)
    requires |x| == 7
    ensures Dot(H[1], x) % 2 == Xor(Xor(x[1], x[3]), Xor(x[5], x[6]))
  {
    Dot7(H[1], x);
    Sum4Mod2(x[1], x[3], x[5], x[6]);
  }

  /** Row 2 of H checks positions 2, 3, 4 and 6. */
  lemma {:induction false} CheckRow2(x: seq<Bit>)
    requires |x| == 7
    ensures Dot(H[2], x) % 2 == Xor(Xor(x[2], x[3]), Xor(x[4], x[6]))
  {
    Dot7(H[2], x);
    Sum4Mod2(x[2], x[3], x[4], x[6]);
  }

  /** s = Hx mod 2 written out entry by entry. */
  lemma {:induction false} CheckProduct(x: seq<Bit>)
    requires |x| == 7
    ensures MatVec(H, x) == [
      Xor(Xor(x[0], x[4]), Xor(x[5], x[6])),
      Xor(Xor(x[1], x[3]), Xor(x[5], x[6])),
      Xor(Xor(x[2], x[3]), Xor(x[4], x[6]))]
  {
    CheckRow0(x);
    CheckRow1(x);
    CheckRow2(x);
  }

  /** The syndrome `H @ x % 2` of a received word. */
  function Syndrome(x: seq<Bit>): (s: seq<Bit>)
    requires |x| == 7
    ensures |s| == 3
  {
    MatVec(H, x)
  }

  /** Every product pG mod 2 satisfies all three parity checks of H. */
  lemma {:induction false} GeneratedIsCodeword(p: seq<Bit>)
    requires |p| == 4
    ensures MatVec(H, VecMat(p, G, 7)) == ZERO
  {
    var x := VecMat(p, G, 7);
    GeneratorProduct(p);
    CheckProduct(x);
    XorZero4(x[0], x[4], x[5], x[6]);
    XorZero4(x[1], x[3], x[5], x[6]);
    XorZero4(x[2], x[3], x[4], x[6]);
  }

  /** Encodes four data bits as x = pG mod 2. The data reappear unchanged at
      positions 3..6 and the result is a codeword (zero syndrome). */
  function Encode(p: seq<Bit>): (x: seq<Bit>)
    requires |p| == 4
    ensures |x| == 7
    ensures x[3..] == p
    ensures Syndrome(x) == ZERO
  {
    GeneratedIsCodeword(p);
    GeneratorIdentityColumns(p);
    VecMat(p, G, 7)
  }

  /** Python's `t.index(v)`: the first position holding `v`, or None where
      Python raises ValueError. */
  function IndexOf(t: seq<nat>, v: nat): (r: Option<nat>)
    ensures r.None? <==> v !in t
    ensures r.Some? ==> r.value < |t| && t[r.value] == v && v !in t[..r.value]
  {
    if |t| == 0 then None
    else if t[0] == v then Some(0)
    else match IndexOf(t[1..], v)
      case None => None
      case Some(i) => assert t[..i + 1] == [t[0]] + t[1..][..i]; Some(i + 1)
  }

  /** The column of H equal to a non-zero syndrome; a zero syndrome has no
      such column and the lookup fails. */
  function SToIndex(s: seq<Bit>): (r: Option<nat>)
    requires |s| == 3
    ensures r.None? <==> s == ZERO
    ensures r.Some? ==> r.value < 7 && Column(H, r.value) == s
  {
    var r := IndexOf(COLUMN_VALUES, FromBinary(s));
    ListedIffNonZero(s);
    if r.Some? then
      ListedValueIsColumn(s, r.value);
      r
    else
      r
  }

  /** The numeral of a syndrome is one of the listed column values exactly
      when the syndrome is non-zero. */
  lemma {:induction false} ListedIffNonZero(s: seq<Bit>)
    requires |s| == 3
    ensures FromBinary(s) in COLUMN_VALUES <==> s != ZERO
  {
    FromBinary3(s);
    if s == ZERO {
      assert FromBinary(s) == 0;
    } else {
      assert s[0] != 0 || s[1] != 0 || s[2] != 0;
    }
  }

  /** A syndrome whose numeral is listed at position k equals column k of H. */
  lemma {:induction false} ListedValueIsColumn(s: seq<Bit>, k: nat)
    requires |s| == 3 && k < 7 && COLUMN_VALUES[k] == FromBinary(s)
    ensures Column(H, k) == s
  {
    ColumnValue(k);
    FromBinaryInjective(Column(H, k), s);
  }

  /** The word after correction: unchanged for a zero syndrome, otherwise
      the entry whose column of H equals the syndrome is flipped. Every word
      lies within one flip of a codeword, so the result always has zero
      syndrome. */
  function Corrected(x: seq<Bit>): (y: seq<Bit>)
    requires |x| == 7
    ensures |y| == 7
    ensures Syndrome(y) == ZERO
    ensures Syndrome(x) == ZERO ==> y == x
    ensures Syndrome(x) != ZERO ==> exists i :: 0 <= i < 7 && Column(H, i) == Syndrome(x) && y == Flip(x, i)
  {
    var s := Syndrome(x);
    if Sum(s) > 0 then
      var i := SToIndex(s).value;
      SyndromeOfFlip(x, i);
      assert AddVec(s, s) == ZERO;
      Flip(x, i)
    else
      assert s == ZERO;
      x
  }

  /** The data positions 3..6 of a corrected word. */
  function Data(x: seq<Bit>): (d: seq<Bit>)
    requires |x| == 7
    ensures |d| == 4
  {
    x[3..7]
  }

  /** Reads the data positions of `x` into a new list, one entry at a time. */
  method GetData(x: array<Bit>) returns (d: seq<Bit>)
    requires x.Length == 7
    ensures d == Data(x[..])
  {
    d := [];
    for i := 3 to 7
      invariant d == x[3..i]
    {
      d := d + [x[i]];
    }
  }

  /** Decodes `x` in place: if the syndrome is non-zero the offending entry of
      the caller's array is flipped, and the data positions are returned. */
  method Decode(x: array<Bit>) returns (data: seq<Bit>)
    requires x.Length == 7
    modifies x
    ensures x[..] == Corrected(old(x[..]))
    ensures data == Data(x[..])
  {
    var s := Syndrome(x[..]);
    if Sum(s) > 0 {
      var index := SToIndex(s).value;
      x[index] := Xor(x[index], 1);
    }
    data := GetData(x);
  }

  /** Flipping entry i adds column i of H to the syndrome. */
  lemma {:induction false} SyndromeOfFlip(x: seq<Bit>, i: nat)
    requires |x| == 7 && i < 7
    ensures Syndrome(Flip(x, i)) == AddVec(Syndrome(x), Column(H, i))
  {
    MatVecFlip(H, x, i);
  }

  /** Each column of H, read as a binary number, is the value listed for it. */
  lemma {:induction false} ColumnValue(k: nat)
    requires k < 7
    ensures FromBinary(Column(H, k)) == COLUMN_VALUES[k]
  {
    FromBinary3(Column(H, k));
    if k == 0 { } else if k == 1 { } else if k == 2 { } else if k == 3 { }
    else if k == 4 { } else if k == 5 { } else { }
  }

  /** In a list without repeats, the lookup of the entry at k finds k. */
  lemma {:induction false} IndexOfDistinct(t: seq<nat>, k: nat)
    requires forall i, j :: 0 <= i < j < |t| ==> t[i] != t[j]
    requires k < |t|
    ensures IndexOf(t, t[k]) == Some(k)
  {
    var r := IndexOf(t, t[k]);
    assert r.Some?;
    assert t[r.value] == t[k];
  }

  /** Each column of H is found again by the syndrome lookup. */
  lemma {:induction false} SToIndexOfColumn(k: nat)
    requires k < 7
    ensures SToIndex(Column(H, k)) == Some(k)
  {
    ColumnValue(k);
    IndexOfDistinct(COLUMN_VALUES, k);
  }

  /** With zero syndrome, each parity position is the XOR of the three data
      positions its row of H checks. */
  lemma {:induction false} ZeroSyndromeParities(x: seq<Bit>)
    requires |x| == 7 && Syndrome(x) == ZERO
    ensures x[0] == Xor(Xor(x[4], x[5]), x[6])
    ensures x[1] == Xor(Xor(x[3], x[5]), x[6])
    ensures x[2] == Xor(Xor(x[3], x[4]), x[6])
  {
    CheckProduct(x);
    XorZero4(x[0], x[4], x[5], x[6]);
    XorZero4(x[1], x[3], x[5], x[6]);
    XorZero4(x[2], x[3], x[4], x[6]);
  }

  /** The words with zero syndrome are exactly the encodings of their own
      data positions. */
  lemma {:induction false} CodewordIffEncoded(x: seq<Bit>)
    requires |x| == 7
    ensures Syndrome(x) == ZERO <==> x == Encode(Data(x))
  {
    if Syndrome(x) == ZERO {
      ZeroSyndromeParities(x);
      GeneratorProduct(Data(x));
    }
  }

  /** Encoding is linear over GF(2): the codeword of a sum of data vectors
      is the sum of their codewords. */
  lemma {:induction false} EncodeLinear(p: seq<Bit>, q: seq<Bit>)
    requires |p| == |q| == 4
    ensures Encode(AddVec(p, q)) == AddVec(Encode(p), Encode(q))
  {
    VecMatLinear(p, q, G, 7);
  }

  /** A codeword is decoded to its own data with no entry flipped. */
  lemma DecodeEncode(p: seq<Bit>)
    requires |p| == 4
    ensures Corrected(Encode(p)) == Encode(p)
    ensures Data(Corrected(Encode(p))) == p
  {
  }

  /** A single flipped entry of a codeword shows up as its column of H. */
  lemma {:induction false} SyndromeOfSingleError(c: seq<Bit>, i: nat)
    requires |c| == 7 && i < 7 && Syndrome(c) == ZERO
    ensures Syndrome(Flip(c, i)) == Column(H, i)
  {
    SyndromeOfFlip(c, i);
    assert AddVec(ZERO, Column(H, i)) == Column(H, i);
  }

  /** A word whose syndrome is column i of H is corrected at position i. */
  lemma {:induction false} CorrectsColumn(e: seq<Bit>, i: nat)
    requires |e| == 7 && i < 7 && Syndrome(e) == Column(H, i)
    ensures Corrected(e) == Flip(e, i)
  {
    SToIndexOfColumn(i);
    assert Sum(Syndrome(e)) > 0;
  }

  /** Any single flipped entry of a codeword is corrected and the data restored. */
  lemma {:induction false} SingleErrorCorrected(p: seq<Bit>, i: nat)
    requires |p| == 4 && i < 7
    ensures Corrected(Flip(Encode(p), i)) == Encode(p)
    ensures Data(Corrected(Flip(Encode(p), i))) == p
  {
    var c := Encode(p);
    SyndromeOfSingleError(c, i);
    CorrectsColumn(Flip(c, i), i);
    FlipTwice(c, i);
  }

  /** The hand-computed encodings. */
  lemma ExpectedCodewords()
    ensures Encode([1, 0, 1, 1]) == [0, 1, 0, 1, 0, 1, 1]
    ensures Encode([1, 0, 0, 0]) == [0, 1, 1, 1, 0, 0, 0]
    ensures Encode([1, 1, 1, 1]) == [1, 1, 1, 1, 1, 1, 1]
    ensures Encode([1, 0, 1, 0]) == [1, 0, 1, 1, 0, 1, 0]
    ensures Encode([1, 1, 0, 0]) == [1, 1, 0, 1, 1, 0, 0]
  {
    GeneratorProduct([1, 0, 1, 1]);
    GeneratorProduct([1, 0, 0, 0]);
    GeneratorProduct([1, 1, 1, 1]);
    GeneratorProduct([1, 0, 1, 0]);
    GeneratorProduct([1, 1, 0, 0]);
  }
}
