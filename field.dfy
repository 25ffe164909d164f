/**
 * The arithmetic of BinaryField128b as the rest of the model uses it.
 *
 * The tower field itself is an external library. A field element is modelled by
 * its 128 coordinates over GF(2) in the tower's canonical basis: coordinate i is
 * what `iter_bases` yields as the i-th BinaryField1b, and `from_bases` over
 * BinaryField1b rebuilds the element from them. Addition in a binary field is
 * the coordinate-wise XOR, so it is defined here and characteristic 2 is a
 * theorem. Multiplication is not modelled: it is a parameter `mul` that every
 * member needing it receives, constrained by `IsRing` (commutative ring with
 * unit) wherever a proof depends on its laws.
 */
module Field {

  /** 2^n. */
  function Pow2(n: nat): (p: nat)
    ensures p >= 1
  {
    if n == 0 then 1 else 2 * Pow2(n - 1)
  }

  lemma {:induction false} Pow2Add(a: nat, b: nat)
    ensures Pow2(a + b) == Pow2(a) * Pow2(b)
  {
    if a > 0 {
      Pow2Add(a - 1, b);
    }
  }

  lemma {:induction false} Pow2Monotone(a: nat, b: nat)
    requires a <= b
    ensures Pow2(a) <= Pow2(b)
  {
    if a < b {
      Pow2Monotone(a, b - 1);
    }
  }

  lemma MulSign(d: int, x: int)
    requires d > 0
    ensures x >= 1 ==> d * x >= d
    ensures x <= -1 ==> d * x <= -d
  {
    if x >= 1 {
      assert d * x == d + d * (x - 1);
    } else if x <= -1 {
      assert d * x == -d + d * (x + 1);
    }
  }

  lemma MulMono(a: int, b: int, d: nat)
    ensures a >= b ==> a * d >= b * d
  {
    assert a * d - b * d == (a - b) * d;
  }

  /** A quotient is below m when the dividend is below m times the divisor. */
  lemma DivBound(n: nat, d: nat, m: nat)
    requires d > 0 && n < m * d
    ensures n / d < m
  {
    MulMono(n / d, m, d);
  }

  /** Quotient and remainder are determined by the division identity. */
  lemma DivUnique(n: nat, d: nat, q: nat, r: nat)
    requires d > 0 && n == q * d + r && r < d
    ensures n / d == q && n % d == r
  {
    var q', r' := n / d, n % d;
    assert d * (q' - q) == r - r';
    MulSign(d, q' - q);
  }

  /** `i >> k` on an unsigned integer: k halvings, each dropping the lowest bit. */
  function Shr(i: nat, k: nat): nat
  {
    if k == 0 then i else Shr(i / 2, k - 1)
  }

  /** `i << k`: k doublings. */
  function Shl(i: nat, k: nat): nat
  {
    if k == 0 then i else 2 * Shl(i, k - 1)
  }

  /** `i & ((1 << k) - 1)`: the k lowest bits of i. */
  function Low(i: nat, k: nat): nat
  {
    if k == 0 then 0 else 2 * Low(i / 2, k - 1) + i % 2
  }

  /** `a | b` on unsigned integers: bitwise or, lowest bit first. */
  function Or(a: nat, b: nat): nat
    decreases a + b
  {
    if a == 0 then b
    else if b == 0 then a
    else 2 * Or(a / 2, b / 2) + (if a % 2 == 1 || b % 2 == 1 then 1 else 0)
  }

  /** `a | b` never exceeds a + b. */
  lemma {:induction false} OrBound(a: nat, b: nat)
    ensures Or(a, b) <= a + b
    decreases a + b
  {
    if a != 0 && b != 0 {
      OrBound(a / 2, b / 2);
    }
  }

  /** With i below 2^k the bits of i and of `s << k` are disjoint: `i | (s << k)` is their sum. */
  lemma {:induction false} OrDisjoint(i: nat, s: nat, k: nat)
    requires i < Pow2(k)
    ensures Or(i, Shl(s, k)) == Shl(s, k) + i
  {
    if k > 0 && i != 0 && Shl(s, k) != 0 {
      OrDisjoint(i / 2, s, k - 1);
    }
  }

  /** Shifting right by k + 1 is shifting right by k, then by one more. */
  lemma {:induction false} ShiftRightStep(i: nat, k: nat)
    ensures Shr(i, k + 1) == Shr(i, k) / 2
  {
    if k > 0 {
      ShiftRightStep(i / 2, k - 1);
    }
  }

  /** `i << k` is i * 2^k. */
  lemma {:induction false} ShlIsMul(i: nat, k: nat)
    ensures Shl(i, k) == i * Pow2(k)
  {
    if k > 0 {
      ShlIsMul(i, k - 1);
      assert 2 * (i * Pow2(k - 1)) == i * (2 * Pow2(k - 1));
    }
  }

  /** `i >> k` is the quotient of i by 2^k. */
  lemma {:induction false} ShrIsDiv(i: nat, k: nat)
    ensures Shr(i, k) == i / Pow2(k)
  {
    if k > 0 {
      ShrIsDiv(i / 2, k - 1);
      HalveThenDivide(i, Pow2(k - 1));
    }
  }

  /** Halving and then dividing by p is dividing by 2p. */
  lemma HalveThenDivide(i: nat, p: nat)
    requires p > 0
    ensures (i / 2) / p == i / (2 * p)
  {
    var q, r := (i / 2) / p, (i / 2) % p;
    assert i == (q * p + r) * 2 + i % 2;
    assert i == q * (2 * p) + (2 * r + i % 2);
    DivUnique(i, 2 * p, q, 2 * r + i % 2);
  }

  /** `(a << k) | b` with b below 2^k splits back into a and b. */
  lemma {:induction false} ShlJoin(a: nat, k: nat, b: nat)
    requires b < Pow2(k)
    ensures Shr(Shl(a, k) + b, k) == a && Low(Shl(a, k) + b, k) == b
  {
    if k > 0 {
      ShlJoin(a, k - 1, b / 2);
      assert (Shl(a, k) + b) / 2 == Shl(a, k - 1) + b / 2;
    }
  }

  /** Every i is `((i >> k) << k) | Low(i, k)`, and its low part is below 2^k. */
  lemma {:induction false} ShrSplit(i: nat, k: nat)
    ensures Shl(Shr(i, k), k) + Low(i, k) == i && Low(i, k) < Pow2(k)
  {
    if k > 0 {
      ShrSplit(i / 2, k - 1);
    }
  }

  /** Joining a below 2^hi with b below 2^lo stays below 2^(hi + lo). */
  lemma {:induction false} ShlJoinBound(hi: nat, lo: nat, a: nat, b: nat)
    requires a < Pow2(hi) && b < Pow2(lo)
    ensures Shl(a, lo) + b < Pow2(hi + lo)
  {
    if lo > 0 {
      ShlJoinBound(hi, lo - 1, a, b / 2);
    }
  }

  /** Shifting a number below 2^n right by k leaves it below 2^(n - k). */
  lemma {:induction false} ShrBound(i: nat, k: nat, n: nat)
    requires k <= n && i < Pow2(n)
    ensures Shr(i, k) < Pow2(n - k)
  {
    if k > 0 {
      ShrBound(i / 2, k - 1, n - 1);
    }
  }

  /** Adding 2^m with m at least k adds 2^(m - k) to `i >> k`. */
  lemma {:induction false} ShrAddPow2(i: nat, m: nat, k: nat)
    requires k <= m
    ensures Shr(i + Pow2(m), k) == Shr(i, k) + Pow2(m - k)
  {
    if k > 0 {
      assert (i + Pow2(m)) / 2 == i / 2 + Pow2(m - 1);
      ShrAddPow2(i / 2, m - 1, k - 1);
    }
  }

  /** `usize::trailing_zeros`: 64 for zero, otherwise the number of low zero bits. */
  function TrailingZeros(n: nat): nat
  {
    if n == 0 then 64 else if n % 2 == 1 then 0 else 1 + TrailingZeros(n / 2)
  }

  /** `usize::is_power_of_two`. */
  predicate IsPowerOfTwo(n: nat)
  {
    n > 0 && Pow2(TrailingZeros(n)) == n
  }

  /** The trailing zeros of 2^k are k, so 2^k is a power of two. */
  lemma {:induction false} TrailingZerosPow2(k: nat)
    ensures TrailingZeros(Pow2(k)) == k && IsPowerOfTwo(Pow2(k))
  {
    if k > 0 {
      TrailingZerosPow2(k - 1);
      assert Pow2(k) / 2 == Pow2(k - 1);
    }
  }

  function Zeros(n: nat): (s: seq<bool>)
    ensures |s| == n && forall i :: 0 <= i < n ==> !s[i]
  {
    seq(n, i requires 0 <= i < n => false)
  }

  function FirstBit(n: nat): (s: seq<bool>)
    ensures |s| == n && forall i :: 0 <= i < n ==> (s[i] <==> i == 0)
  {
    seq(n, i requires 0 <= i < n => i == 0)
  }

  /** A BinaryField128b element, as its 128 coordinates over GF(2). */
  type Elem = s: seq<bool> | |s| == 128 witness Zeros(128)

  const ZERO: Elem := Zeros(128)

  /** The unit: the element whose value is 1. */
  const ONE: Elem := FirstBit(128)

  /** Field addition, which is also field subtraction: coordinate-wise XOR. */
  function Add(a: Elem, b: Elem): Elem
  {
    seq(128, i requires 0 <= i < 128 => a[i] != b[i])
  }

  /** Characteristic 2: every element is its own additive inverse. */
  lemma AddSelf(a: Elem)
    ensures Add(a, a) == ZERO
  {
  }

  lemma AddZero(a: Elem)
    ensures Add(a, ZERO) == a && Add(ZERO, a) == a
  {
  }

  lemma AddComm(a: Elem, b: Elem)
    ensures Add(a, b) == Add(b, a)
  {
  }

  lemma AddAssoc(a: Elem, b: Elem, c: Elem)
    ensures Add(a, Add(b, c)) == Add(Add(a, b), c)
  {
  }

  /** Adding the same element twice cancels. */
  lemma AddCancel(a: Elem, b: Elem)
    ensures Add(Add(a, b), b) == a && Add(b, Add(b, a)) == a
  {
  }

  /** The multiplication of the tower field, which this model does not define. */
  type Mul = (Elem, Elem) -> Elem

  /**
   * Names the elements at which the ring laws are instantiated; it always holds.
   * The laws below fire only where a proof mentions `RingAt`, through the lemmas
   * that follow, so the solver is not flooded with products it does not need.
   */
  ghost predicate RingAt(a: Elem, b: Elem, c: Elem)
  {
    true
  }

  /** The laws of a commutative ring with unit that the proofs rely on. */
  ghost predicate IsRing(mul: Mul)
  {
    forall a: Elem, b: Elem, c: Elem {:trigger RingAt(a, b, c)} :: RingAt(a, b, c) ==>
      && mul(a, b) == mul(b, a)
      && mul(a, mul(b, c)) == mul(mul(a, b), c)
      && mul(a, Add(b, c)) == Add(mul(a, b), mul(a, c))
      && mul(ONE, a) == a
  }

  lemma MulComm(mul: Mul, a: Elem, b: Elem)
    requires IsRing(mul)
    ensures mul(a, b) == mul(b, a)
  {
    assert RingAt(a, b, ZERO);
  }

  lemma MulAssoc(mul: Mul, a: Elem, b: Elem, c: Elem)
    requires IsRing(mul)
    ensures mul(a, mul(b, c)) == mul(mul(a, b), c)
  {
    assert RingAt(a, b, c);
  }

  /** Distributivity with the sum on the right. */
  lemma MulAddRight(mul: Mul, a: Elem, b: Elem, c: Elem)
    requires IsRing(mul)
    ensures mul(a, Add(b, c)) == Add(mul(a, b), mul(a, c))
  {
    assert RingAt(a, b, c);
  }

  /** One is the unit, on either side. */
  lemma MulOne(mul: Mul, a: Elem)
    requires IsRing(mul)
    ensures mul(ONE, a) == a && mul(a, ONE) == a
  {
    assert RingAt(a, ONE, ZERO);
    assert RingAt(ONE, a, ZERO);
  }

  /** Zero annihilates: a consequence of distributivity in characteristic 2. */
  lemma MulZero(mul: Mul, a: Elem)
    requires IsRing(mul)
    ensures mul(ZERO, a) == ZERO && mul(a, ZERO) == ZERO
  {
    AddSelf(ZERO);
    MulAddRight(mul, a, ZERO, ZERO);
    AddSelf(mul(a, ZERO));
    MulComm(mul, a, ZERO);
  }

  /** Distributivity with the sum on the left. */
  lemma MulAddLeft(mul: Mul, a: Elem, b: Elem, c: Elem)
    requires IsRing(mul)
    ensures mul(Add(a, b), c) == Add(mul(a, c), mul(b, c))
  {
    MulComm(mul, Add(a, b), c);
    MulAddRight(mul, c, a, b);
    MulComm(mul, a, c);
    MulComm(mul, b, c);
  }

  /** The product of a BinaryField1b bit with a BinaryField128b element. */
  function Scale(bit: bool, x: Elem): Elem
  {
    if bit then x else ZERO
  }

  /** The embedding of a BinaryField1b bit into BinaryField128b. */
  function Embed(bit: bool): Elem
  {
    if bit then ONE else ZERO
  }

  /** Multiplying by a bit is multiplying by its embedding. */
  lemma ScaleIsMul(mul: Mul, bit: bool, x: Elem)
    requires IsRing(mul)
    ensures Scale(bit, x) == mul(Embed(bit), x)
  {
    MulZero(mul, x);
    MulOne(mul, x);
  }

  /** The sum of a sequence of elements, first to last, as `Iterator::sum` adds them. */
  function Sum(s: seq<Elem>): Elem
  {
    if |s| == 0 then ZERO else Add(Sum(s[..|s| - 1]), s[|s| - 1])
  }

  lemma {:induction false} SumConcat(a: seq<Elem>, b: seq<Elem>)
    ensures Sum(a + b) == Add(Sum(a), Sum(b))
  {
    if |b| == 0 {
      assert a + b == a;
      AddZero(Sum(a));
    } else {
      assert (a + b)[..|a + b| - 1] == a + b[..|b| - 1];
      SumConcat(a, b[..|b| - 1]);
      AddAssoc(Sum(a), Sum(b[..|b| - 1]), b[|b| - 1]);
    }
  }

  /** Element-wise addition of two sequences of the same length. */
  function AddEach(a: seq<Elem>, b: seq<Elem>): (s: seq<Elem>)
    requires |a| == |b|
    ensures |s| == |a| && forall i :: 0 <= i < |a| ==> s[i] == Add(a[i], b[i])
  {
    seq(|a|, i requires 0 <= i < |a| => Add(a[i], b[i]))
  }

  /** The sum of two sequences added element-wise is the sum of their sums. */
  lemma {:induction false} SumPointwise(a: seq<Elem>, b: seq<Elem>, c: seq<Elem>)
    requires |a| == |b| == |c|
    requires forall i :: 0 <= i < |c| ==> c[i] == Add(a[i], b[i])
    ensures Sum(c) == Add(Sum(a), Sum(b))
  {
    if |c| > 0 {
      var n := |c| - 1;
      SumPointwise(a[..n], b[..n], c[..n]);
    }
  }

  /** Rebuilds an element from its 128 coordinates (`from_bases` over BinaryField1b). */
  function FromBits(bits: seq<bool>): (x: Elem)
    requires |bits| == 128
    ensures forall i :: 0 <= i < 128 ==> x[i] == bits[i]
  {
    bits
  }

  /**
   * `from_bases` over a subfield of 2^level bits: the canonical basis of the tower
   * lays the 2^(7 - level) base elements side by side, the first in the lowest bits.
   */
  function FromBases(chunk: seq<Elem>, level: nat): Elem
    requires level <= 7 && |chunk| == Pow2(7 - level)
  {
    Pow2Add(7 - level, level);
    assert Pow2(7) == 128;
    LowBits(chunk, Pow2(level))
  }

  /** The low w coordinates of each element, concatenated. */
  function LowBits(chunk: seq<Elem>, w: nat): (bits: seq<bool>)
    requires w <= 128
    ensures |bits| == |chunk| * w
  {
    if |chunk| == 0 then []
    else
      var bits := LowBits(chunk[..|chunk| - 1], w) + chunk[|chunk| - 1][..w];
      assert |bits| == (|chunk| - 1) * w + w;
      bits
  }

  /** A byte. */
  type Byte = b: int | 0 <= b < 256

  /** The number whose binary digits, least significant first, are `bits`. */
  function NatOfBits(bits: seq<bool>): nat
  {
    if |bits| == 0 then 0 else (if bits[0] then 1 else 0) + 2 * NatOfBits(bits[1..])
  }

  lemma {:induction false} NatOfBitsBound(bits: seq<bool>)
    ensures NatOfBits(bits) < Pow2(|bits|)
  {
    if |bits| > 0 {
      NatOfBitsBound(bits[1..]);
    }
  }

  /** `val().to_le_bytes()`: the element's 16 bytes, least significant first. */
  function ToLeBytes(x: Elem): (bytes: seq<Byte>)
    ensures |bytes| == 16
  {
    seq(16, k requires 0 <= k < 16 => ByteOf(x[8 * k .. 8 * k + 8]))
  }

  function ByteOf(bits: seq<bool>): Byte
    requires |bits| == 8
  {
    NatOfBitsBound(bits);
    assert Pow2(8) == 256;
    NatOfBits(bits)
  }

  /** `BinaryField128b::deserialize`: the element whose value is the first 16 bytes read little-endian. */
  function FromLeBytes(bytes: seq<Byte>): Elem
    requires |bytes| >= 16
  {
    seq(128, i requires 0 <= i < 128 => (bytes[i / 8] / Pow2(i % 8)) % 2 == 1)
  }

  /** `usize::to_le_bytes` on a 64-bit target. */
  function U64LeBytes(n: nat): (bytes: seq<Byte>)
    ensures |bytes| == 8
  {
    seq(8, k requires 0 <= k < 8 => (n / Pow2(8 * k)) % 256)
  }

  /** The sequence of the serialised elements, in order. */
  function ElemsLeBytes(xs: seq<Elem>): (bytes: seq<Byte>)
    ensures |bytes| == 16 * |xs|
  {
    if |xs| == 0 then [] else ElemsLeBytes(xs[..|xs| - 1]) + ToLeBytes(xs[|xs| - 1])
  }
}
