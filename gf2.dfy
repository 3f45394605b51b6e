/** Vectors and matrices over GF(2) stored as integers 0/1, standing in for the
    numpy `uint8` arrays of the Hamming(7,4) codecs: the products `p @ G % 2`
    and `H @ x % 2`, `s.sum()`, reading a bit list as a binary number, and
    list reversal. */
module Gf2 {

  /** One entry of a 0/1 vector. */
  type Bit = b: int | 0 <= b < 2

  /** The all-zero vector of three entries: the syndrome of a word with no
      detected error. */
  const ZERO: seq<Bit> := [0, 0, 0]

  /** Addition in GF(2), i.e. `a ^ b` on 0/1 values: the integer sum
      reduced mod 2, the form numpy's `% 2` produces. */
  function Xor(a: Bit, b: Bit): (c: Bit)
    ensures c == (a as int + b) % 2
  {
    if a == b then 0 else 1
  }

  /** `v` with entry `i` inverted (`v[i] ^= 1`). */
  function Flip(v: seq<Bit>, i: nat): (w: seq<Bit>)
    requires i < |v|
    ensures |w| == |v| && w[i] != v[i]
    ensures forall k :: 0 <= k < |v| && k != i ==> w[k] == v[k]
  {
    v[i := Xor(v[i], 1)]
  }

  /** Inverting the same entry twice restores the vector. */
  lemma FlipTwice(v: seq<Bit>, i: nat)
    requires i < |v|
    ensures Flip(Flip(v, i), i) == v
  {
  }

  /** The entrywise sum in GF(2) of two vectors of equal length. */
  function AddVec(u: seq<Bit>, v: seq<Bit>): (w: seq<Bit>)
    requires |u| == |v|
    ensures |w| == |u|
    ensures forall k :: 0 <= k < |u| ==> (w[k] == 0 <==> u[k] == v[k])
  {
    seq(|u|, k requires 0 <= k < |u| => Xor(u[k], v[k]))
  }

  /** The integer sum of the entrywise products (before reduction mod 2). */
  function Dot(a: seq<Bit>, b: seq<Bit>): (r: nat)
    requires |a| == |b|
    ensures r <= |a|
  {
    if |a| == 0 then 0 else a[0] * b[0] + Dot(a[1..], b[1..])
  }

  /** Every row of `m` has `cols` entries. */
  predicate IsMatrix(m: seq<seq<Bit>>, rows: nat, cols: nat)
  {
    |m| == rows && forall i :: 0 <= i < |m| ==> |m[i]| == cols
  }

  /** Column `k` of `m`. */
  function Column(m: seq<seq<Bit>>, k: nat): seq<Bit>
    requires forall i :: 0 <= i < |m| ==> k < |m[i]|
  {
    seq(|m|, i requires 0 <= i < |m| => m[i][k])
  }

  /** The row vector `p` times `m`, reduced mod 2 (numpy `(p @ m) % 2`):
      entry k is the dot product of `p` with column k. */
  function VecMat(p: seq<Bit>, m: seq<seq<Bit>>, cols: nat): seq<Bit>
    requires IsMatrix(m, |p|, cols)
  {
    seq(cols, k requires 0 <= k < cols => Dot(p, Column(m, k)) % 2)
  }

  /** `m` times the column vector `x`, reduced mod 2 (numpy `(m @ x) % 2`):
      entry r is the dot product of row r with `x`. */
  function MatVec(m: seq<seq<Bit>>, x: seq<Bit>): seq<Bit>
    requires IsMatrix(m, |m|, |x|)
  {
    seq(|m|, r requires 0 <= r < |m| => Dot(m[r], x) % 2)
  }

  /** The integer sum of the entries (numpy `s.sum()`); it is positive exactly
      when some entry is 1. */
  function Sum(s: seq<Bit>): (r: nat)
    ensures r <= |s|
    ensures r == 0 <==> forall i :: 0 <= i < |s| ==> s[i] == 0
  {
    if |s| == 0 then 0 else s[0] + Sum(s[1..])
  }

  function Pow2(n: nat): (r: nat)
    ensures r >= 1
  {
    if n == 0 then 1 else 2 * Pow2(n - 1)
  }

  /** The bits of `s` read as a binary numeral with `s[0]` most significant
      (Python's `int(''.join(str(n) for n in s), 2)`). */
  function FromBinary(s: seq<Bit>): (r: nat)
    ensures r < Pow2(|s|)
    ensures r == 0 <==> forall i :: 0 <= i < |s| ==> s[i] == 0
  {
    if |s| == 0 then 0 else 2 * FromBinary(s[..|s| - 1]) + s[|s| - 1]
  }

  /** `s` in reverse order (Python's `list.reverse`). */
  function Reverse<T>(s: seq<T>): (r: seq<T>)
    ensures |r| == |s|
    ensures forall k :: 0 <= k < |s| ==> r[k] == s[|s| - 1 - k]
  {
    if |s| == 0 then [] else Reverse(s[1..]) + [s[0]]
  }

  /** Reverses `a` in place by swapping entries from both ends inwards
      (Python's `list.reverse`). */
  method ReverseInPlace<T>(a: array<T>)
    modifies a
    ensures a[..] == Reverse(old(a[..]))
  {
    var i, j := 0, a.Length - 1;
    while i < j
      invariant 0 <= i <= j + 1 <= a.Length
      invariant i + j == a.Length - 1
      invariant forall k :: 0 <= k < i ==> a[k] == old(a[a.Length - 1 - k])
      invariant forall k :: j < k < a.Length ==> a[k] == old(a[a.Length - 1 - k])
      invariant forall k :: i <= k <= j ==> a[k] == old(a[k])
    {
      a[i], a[j] := a[j], a[i];
      i, j := i + 1, j - 1;
    }
  }

  /** The product of two 0/1 integers, written without multiplication. */
  function Times(a: Bit, b: Bit): (c: Bit)
    ensures c == a * b
  {
    if a == 1 then b else 0
  }

  /** Unfolds `Dot` over four entries. */
  lemma {:induction false} Dot4(a: seq<Bit>, b: seq<Bit>)
    requires |a| == |b| == 4
    ensures Dot(a, b) == Times(a[0], b[0]) as int + Times(a[1], b[1]) + Times(a[2], b[2]) + Times(a[3], b[3])
  {
    assert Dot(a[3..], b[3..]) == a[3] as int * b[3] + Dot(a[3..][1..], b[3..][1..]);
    assert a[3..][1..] == [];
    assert a[2..][1..] == a[3..] && b[2..][1..] == b[3..];
    assert Dot(a[2..], b[2..]) == a[2] as int * b[2] + Dot(a[3..], b[3..]);
    assert a[1..][1..] == a[2..] && b[1..][1..] == b[2..];
    assert Dot(a[1..], b[1..]) == a[1] as int * b[1] + Dot(a[2..], b[2..]);
  }

  /** Unfolds `Dot` over seven entries. */
  lemma {:induction false} Dot7(a: seq<Bit>, b: seq<Bit>)
    requires |a| == |b| == 7
    ensures Dot(a, b) == Times(a[0], b[0]) as int + Times(a[1], b[1]) + Times(a[2], b[2]) + Times(a[3], b[3])
                         + Times(a[4], b[4]) + Times(a[5], b[5]) + Times(a[6], b[6])
  {
    Dot4(a[3..], b[3..]);
    assert a[2..][1..] == a[3..] && b[2..][1..] == b[3..];
    assert Dot(a[2..], b[2..]) == a[2] as int * b[2] + Dot(a[3..], b[3..]);
    assert a[1..][1..] == a[2..] && b[1..][1..] == b[2..];
    assert Dot(a[1..], b[1..]) == a[1] as int * b[1] + Dot(a[2..], b[2..]);
  }

  /** Three 0/1 integers sum to an odd number exactly when their XOR is 1. */
  lemma {:induction false} Sum3Mod2(a: Bit, b: Bit, c: Bit)
    ensures (a as int + b + c) % 2 == Xor(Xor(a, b), c)
  {
  }

  /** Four 0/1 integers sum to an odd number exactly when their XOR is 1. */
  lemma {:induction false} Sum4Mod2(a: Bit, b: Bit, c: Bit, d: Bit)
    ensures (a as int + b + c + d) % 2 == Xor(Xor(a, b), Xor(c, d))
  {
  }

  /** A parity check over four bits holds exactly when the first bit is the
      XOR of the other three. */
  lemma {:induction false} XorZero4(a: Bit, b: Bit, c: Bit, d: Bit)
    ensures Xor(Xor(a, b), Xor(c, d)) == 0 <==> a == Xor(Xor(b, c), d)
  {
  }

  /** A three-bit numeral, most significant bit first. */
  lemma {:induction false} FromBinary3(s: seq<Bit>)
    requires |s| == 3
    ensures FromBinary(s) == 4 * (s[0] as int) + 2 * (s[1] as int) + s[2]
  {
    assert s[..2][..1] == s[..1] && s[..1][..0] == [];
    assert FromBinary(s[..1]) == s[0];
    assert FromBinary(s[..2]) == 2 * (s[0] as int) + s[1];
  }

  /** Inverting entry `i` of `v` changes the dot product with `a` by `a[i]`
      in one direction or the other. */
  lemma {:induction false} DotFlip(a: seq<Bit>, v: seq<Bit>, i: nat)
    requires |a| == |v| && i < |v|
    ensures Dot(a, Flip(v, i)) == Dot(a, v) - Times(a[i], v[i]) + Times(a[i], 1 - v[i])
    decreases i
  {
    if i == 0 {
      assert Flip(v, i)[1..] == v[1..];
    } else {
      assert Flip(v, i)[1..] == Flip(v[1..], i - 1);
      DotFlip(a[1..], v[1..], i - 1);
    }
  }

  /** Inverting entry `i` of `x` adds column `i` of `m` to `m x` mod 2. */
  lemma {:induction false} MatVecFlip(m: seq<seq<Bit>>, x: seq<Bit>, i: nat)
    requires IsMatrix(m, |m|, |x|) && i < |x|
    ensures MatVec(m, Flip(x, i)) == AddVec(MatVec(m, x), Column(m, i))
  {
    var s, t, c := MatVec(m, x), MatVec(m, Flip(x, i)), Column(m, i);
    forall r | 0 <= r < |m|
      ensures t[r] == AddVec(s, c)[r]
    {
      DotFlip(m[r], x, i);
    }
  }

  /** Equal-length numerals with the same value have the same digits. */
  lemma {:induction false} FromBinaryInjective(a: seq<Bit>, b: seq<Bit>)
    requires |a| == |b| && FromBinary(a) == FromBinary(b)
    ensures a == b
  {
    if |a| > 0 {
      var n := |a| - 1;
      assert a[n] == b[n];
      FromBinaryInjective(a[..n], b[..n]);
      assert a == a[..n] + [a[n]] && b == b[..n] + [b[n]];
    }
  }

  /** The dot product is symmetric. */
  lemma {:induction false} DotComm(a: seq<Bit>, b: seq<Bit>)
    requires |a| == |b|
    ensures Dot(a, b) == Dot(b, a)
  {
    if |a| > 0 {
      DotComm(a[1..], b[1..]);
    }
  }

  /** Mod 2, the dot product distributes over the GF(2) sum of vectors. */
  lemma {:induction false} DotAdd(a: seq<Bit>, x: seq<Bit>, y: seq<Bit>)
    requires |a| == |x| == |y|
    ensures Dot(a, AddVec(x, y)) % 2 == (Dot(a, x) + Dot(a, y)) % 2
  {
    if |a| > 0 {
      var w := AddVec(x, y);
      assert w[1..] == AddVec(x[1..], y[1..]);
      DotAdd(a[1..], x[1..], y[1..]);
      var u: int, v: int := a[0] * x[0], a[0] * y[0];
      assert a[0] * w[0] == (u + v) % 2;
      Mod2Sum(a[0] * w[0], Dot(a[1..], w[1..]), u + v, Dot(a[1..], x[1..]) + Dot(a[1..], y[1..]));
    }
  }

  /** Sums of terms that agree mod 2 agree mod 2. */
  lemma Mod2Sum(t: int, r: int, u: int, v: int)
    requires t % 2 == u % 2 && r % 2 == v % 2
    ensures (t + r) % 2 == (u + v) % 2
  {
  }

  /** `(p @ m) % 2` is linear: the product of a GF(2) sum of row vectors is
      the GF(2) sum of their products. */
  lemma {:induction false} VecMatLinear(p: seq<Bit>, q: seq<Bit>, m: seq<seq<Bit>>, cols: nat)
    requires |p| == |q| && IsMatrix(m, |p|, cols)
    ensures VecMat(AddVec(p, q), m, cols) == AddVec(VecMat(p, m, cols), VecMat(q, m, cols))
  {
    var l, r := VecMat(AddVec(p, q), m, cols), AddVec(VecMat(p, m, cols), VecMat(q, m, cols));
    forall k | 0 <= k < cols
      ensures l[k] == r[k]
    {
      var c := Column(m, k);
      DotComm(AddVec(p, q), c);
      DotComm(p, c);
      DotComm(q, c);
      DotAdd(c, p, q);
    }
  }

  /** `(m @ x) % 2` is linear: the product with a GF(2) sum of vectors is the
      GF(2) sum of the products. */
  lemma {:induction false} MatVecLinear(m: seq<seq<Bit>>, x: seq<Bit>, y: seq<Bit>)
    requires |x| == |y| && IsMatrix(m, |m|, |x|)
    ensures MatVec(m, AddVec(x, y)) == AddVec(MatVec(m, x), MatVec(m, y))
  {
    var l, r := MatVec(m, AddVec(x, y)), AddVec(MatVec(m, x), MatVec(m, y));
    forall i | 0 <= i < |m|
      ensures l[i] == r[i]
    {
      DotAdd(m[i], x, y);
    }
  }
}
