/**
 * Multilinear polynomials and equality-indicator tables (src/utils/mle.rs).
 *
 * A `PackedMLE` lists the evaluations of a multilinear polynomial on the Boolean
 * hypercube; when it is packed, every coefficient holds 2^packingFactor of those
 * evaluations as its coordinates over GF(2). A `LagrangeBases` holds the table
 * eq(point, b) for every b of a hypercube and is updated in place as variables are
 * added (`tensor`) or bound (`fold_lo`, `fold_in`). Indices follow the source:
 * the lowest variable is the lowest bit of an index.
 */
module Mle {
  import opened Field

  /** Base 2 log of the extension degree used for soundness. */
  const TAU: nat := 7

  function Min(a: nat, b: nat): nat
  {
    if a <= b then a else b
  }

  /** Bit j of an index. */
  function Bit(b: nat, j: nat): bool
  {
    Shr(b, j) % 2 == 1
  }

  // ---------------------------------------------------------------------------
  // Equality-indicator tables
  // ---------------------------------------------------------------------------

  /** Every entry multiplied on the right by r. */
  function MulEach(mul: Mul, t: seq<Elem>, r: Elem): (s: seq<Elem>)
    ensures |s| == |t| && forall i :: 0 <= i < |t| ==> s[i] == mul(t[i], r)
  {
    seq(|t|, i requires 0 <= i < |t| => mul(t[i], r))
  }

  /**
   * One round of `compute_eq` for the challenge r: every entry x of the table becomes
   * x - x * r in the low half (subtraction is addition in characteristic 2), and
   * x * r is written to the matching entry of the high half.
   */
  function EqStep(mul: Mul, t: seq<Elem>, r: Elem): (next: seq<Elem>)
    ensures |next| == 2 * |t|
  {
    AddEach(t, MulEach(mul, t, r)) + MulEach(mul, t, r)
  }

  /** The table `compute_eq(point)` produces: [1], then one `EqStep` per coordinate, first to last. */
  function EqTable(mul: Mul, point: seq<Elem>): (t: seq<Elem>)
    ensures |t| == Pow2(|point|)
  {
    if |point| == 0 then [ONE]
    else EqStep(mul, EqTable(mul, point[..|point| - 1]), point[|point| - 1])
  }

  /** The factor of coordinate r in eq(point, b): r when the bit is set, 1 - r (that is, 1 + r) otherwise. */
  function EqFactor(r: Elem, bit: bool): Elem
  {
    if bit then r else Add(ONE, r)
  }

  /** eq(point, b) as a product: the factor of coordinate j is chosen by bit j of b. */
  function EqEntry(mul: Mul, point: seq<Elem>, b: nat): Elem
  {
    if |point| == 0 then ONE
    else mul(EqEntry(mul, point[..|point| - 1], b), EqFactor(point[|point| - 1], Bit(b, |point| - 1)))
  }

  /** Adding 2^m to an index leaves its bits below m unchanged. */
  lemma BitAboveUnchanged(b: nat, m: nat, j: nat)
    requires j < m
    ensures Bit(b + Pow2(m), j) == Bit(b, j)
  {
    ShrAddPow2(b, m, j);
    assert Pow2(m - j) == 2 * Pow2(m - j - 1);
  }

  /** eq(point, b) depends only on the bits of b below |point|. */
  lemma {:induction false} EqEntryHighBit(mul: Mul, point: seq<Elem>, b: nat, m: nat)
    requires |point| <= m
    ensures EqEntry(mul, point, b + Pow2(m)) == EqEntry(mul, point, b)
  {
    if |point| > 0 {
      EqEntryHighBit(mul, point[..|point| - 1], b, m);
      BitAboveUnchanged(b, m, |point| - 1);
    }
  }

  /** The top bit of an index below 2^(n + 1) tells which half of the table it lies in. */
  lemma TopBit(b: nat, n: nat)
    requires b < Pow2(n + 1)
    ensures b < Pow2(n) ==> !Bit(b, n)
    ensures b >= Pow2(n) ==> Bit(b, n)
  {
    if b < Pow2(n) {
      ShrBound(b, n, n);
    } else {
      ShrBound(b - Pow2(n), n, n);
      ShrAddPow2(b - Pow2(n), n, n);
    }
  }

  /** x - x * r is x * (1 - r). */
  lemma MulOneMinus(mul: Mul, x: Elem, r: Elem)
    requires IsRing(mul)
    ensures Add(x, mul(x, r)) == mul(x, Add(ONE, r))
  {
    MulAddRight(mul, x, ONE, r);
    MulOne(mul, x);
  }

  /** Entry b of `compute_eq(point)` is the product over j of point[j] or 1 - point[j], as bit j of b says. */
  lemma {:induction false} EqTableProduct(mul: Mul, point: seq<Elem>, b: nat)
    requires IsRing(mul) && b < Pow2(|point|)
    ensures EqTable(mul, point)[b] == EqEntry(mul, point, b)
  {
    if |point| > 0 {
      var n := |point| - 1;
      var prefix, r := point[..n], point[n];
      var t := EqTable(mul, prefix);
      assert EqTable(mul, point) == EqStep(mul, t, r);
      if b < Pow2(n) {
        assert !Bit(b, n) by {
          TopBit(b, n);
        }
        EqTableProduct(mul, prefix, b);
        assert EqStep(mul, t, r)[b] == mul(t[b], Add(ONE, r)) by {
          MulOneMinus(mul, t[b], r);
        }
      } else {
        var c := b - Pow2(n);
        assert Bit(b, n) by {
          TopBit(b, n);
        }
        assert EqStep(mul, t, r)[b] == mul(t[c], r);
        EqTableProduct(mul, prefix, c);
        assert EqEntry(mul, prefix, b) == EqEntry(mul, prefix, c) by {
          EqEntryHighBit(mul, prefix, c, n);
        }
      }
    }
  }

  /**
   * Replacing the entries t[i] by t[i] + a[i] and appending the a[i] leaves the
   * sum unchanged in characteristic 2: the step of `compute_eq` and of `tensor`.
   */
  lemma SplitStepSum(t: seq<Elem>, a: seq<Elem>)
    requires |a| == |t|
    ensures Sum(AddEach(t, a) + a) == Sum(t)
  {
    var low := AddEach(t, a);
    SumConcat(low, a);
    SumPointwise(t, a, low);
    AddCancel(Sum(t), Sum(a));
  }

  /** The entries of `compute_eq(point)` sum to one, whatever the multiplication. */
  lemma {:induction false} EqTableSumsToOne(mul: Mul, point: seq<Elem>)
    ensures Sum(EqTable(mul, point)) == ONE
  {
    if |point| == 0 {
      assert [ONE][..0] == [];
      AddZero(ONE);
    } else {
      var n := |point| - 1;
      var t := EqTable(mul, point[..n]);
      EqTableSumsToOne(mul, point[..n]);
      SplitStepSum(t, MulEach(mul, t, point[n]));
    }
  }

  /** One round of `compute_eq` in place: the first `size` entries and the next `size` become `EqStep`; the rest stay. */
  method EqRound(mul: Mul, bases: array<Elem>, size: nat, r: Elem)
    requires 2 * size <= bases.Length
    modifies bases
    ensures bases[..2 * size] == EqStep(mul, old(bases[..size]), r)
    ensures forall k :: 2 * size <= k < bases.Length ==> bases[k] == old(bases[k])
  {
    ghost var t := bases[..size];
    for x := 0 to size
      invariant forall k :: 0 <= k < x ==> bases[k] == Add(t[k], mul(t[k], r))
      invariant forall k :: 0 <= k < x ==> bases[k + size] == mul(t[k], r)
      invariant forall k :: x <= k < size ==> bases[k] == t[k]
      invariant forall k :: 2 * size <= k < bases.Length ==> bases[k] == old(bases[k])
    {
      var y := mul(bases[x], r);
      bases[x + size] := y;
      bases[x] := Add(bases[x], y);
    }
    EqStepFromHalves(mul, t, r, bases[..2 * size]);
  }

  /** A table whose halves hold t + t * r and t * r is `EqStep(t, r)`. */
  lemma EqStepFromHalves(mul: Mul, t: seq<Elem>, r: Elem, s: seq<Elem>)
    requires |s| == 2 * |t|
    requires forall k :: 0 <= k < |t| ==> s[k] == Add(t[k], mul(t[k], r)) && s[k + |t|] == mul(t[k], r)
    ensures s == EqStep(mul, t, r)
  {
    var next := EqStep(mul, t, r);
    forall k | 0 <= k < |s|
      ensures s[k] == next[k]
    {
      if k >= |t| {
        assert s[(k - |t|) + |t|] == mul(t[k - |t|], r);
      }
    }
  }

  /** The table of the first j + 1 coordinates is one `EqStep` past the table of the first j. */
  lemma EqTablePrefixStep(mul: Mul, r: seq<Elem>, j: nat)
    requires j < |r|
    ensures EqTable(mul, r[..j + 1]) == EqStep(mul, EqTable(mul, r[..j]), r[j])
  {
    assert r[..j + 1][..j] == r[..j];
  }

  /** `compute_eq`: fills an array of 2^|r| entries in place, doubling the filled prefix per coordinate. */
  method ComputeEq(mul: Mul, r: seq<Elem>) returns (bases: seq<Elem>)
    ensures bases == EqTable(mul, r)
  {
    var arr := new Elem[Pow2(|r|)](_ => ZERO);
    arr[0] := ONE;
    var size := 1;
    assert arr[..size] == [ONE];
    for j := 0 to |r|
      invariant size == Pow2(j) <= arr.Length
      invariant arr[..size] == EqTable(mul, r[..j])
    {
      Pow2Monotone(j + 1, |r|);
      EqRound(mul, arr, size, r[j]);
      EqTablePrefixStep(mul, r, j);
      size := 2 * size;
    }
    assert r[..|r|] == r;
    bases := arr[..];
  }

  // ---------------------------------------------------------------------------
  // Folding, pairing and tensoring tables
  // ---------------------------------------------------------------------------

  /** The line through (0, v0) and (1, v1) at r: r * (v0 + v1) + v0. */
  function FoldPair(mul: Mul, r: Elem, v0: Elem, v1: Elem): Elem
  {
    Add(mul(r, Add(v0, v1)), v0)
  }

  /** `fold_lo`: binds the lowest variable to r, pair (2i, 2i + 1) giving entry i. */
  function FoldLoVals(mul: Mul, v: seq<Elem>, r: Elem): (folded: seq<Elem>)
    ensures |folded| == |v| / 2
  {
    seq(|v| / 2, i requires 0 <= i < |v| / 2 => FoldPair(mul, r, v[2 * i], v[2 * i + 1]))
  }

  function Evens(v: seq<Elem>): (e: seq<Elem>)
    ensures |e| == |v| / 2
  {
    seq(|v| / 2, i requires 0 <= i < |v| / 2 => v[2 * i])
  }

  function Odds(v: seq<Elem>): (o: seq<Elem>)
    ensures |o| == |v| / 2
  {
    seq(|v| / 2, i requires 0 <= i < |v| / 2 => v[2 * i + 1])
  }

  lemma FoldPairAtZero(mul: Mul, v0: Elem, v1: Elem)
    requires IsRing(mul)
    ensures FoldPair(mul, ZERO, v0, v1) == v0
  {
    MulZero(mul, Add(v0, v1));
    AddZero(v0);
  }

  /** Folding at r = 0 keeps the entries whose lowest variable is 0. */
  lemma FoldLoAtZero(mul: Mul, v: seq<Elem>)
    requires IsRing(mul)
    ensures FoldLoVals(mul, v, ZERO) == Evens(v)
  {
    var folded, evens := FoldLoVals(mul, v, ZERO), Evens(v);
    forall i | 0 <= i < |v| / 2
      ensures folded[i] == evens[i]
    {
      FoldPairAtZero(mul, v[2 * i], v[2 * i + 1]);
    }
  }

  /** Folding at r = 1 keeps the entries whose lowest variable is 1 (characteristic 2). */
  lemma FoldLoAtOne(mul: Mul, v: seq<Elem>)
    requires IsRing(mul)
    ensures FoldLoVals(mul, v, ONE) == Odds(v)
  {
    var folded, odds := FoldLoVals(mul, v, ONE), Odds(v);
    forall i | 0 <= i < |v| / 2
      ensures folded[i] == odds[i]
    {
      var v0, v1 := v[2 * i], v[2 * i + 1];
      MulOne(mul, Add(v0, v1));
      assert Add(Add(v0, v1), v0) == v1 by {
        AddComm(v0, v1);
        AddCancel(v1, v0);
      }
    }
  }

  /** `fold_in`: entry i is the sum of the pair (2i, 2i + 1). */
  function PairSums(v: seq<Elem>): (sums: seq<Elem>)
    ensures |sums| == |v| / 2
  {
    seq(|v| / 2, i requires 0 <= i < |v| / 2 => Add(v[2 * i], v[2 * i + 1]))
  }

  /** Summing pairs first does not change the total. */
  lemma {:induction false} PairSumsSum(v: seq<Elem>)
    requires |v| % 2 == 0
    ensures Sum(PairSums(v)) == Sum(v)
  {
    if |v| > 0 {
      var n := |v| - 2;
      var w := v[..n];
      PairSumsSum(w);
      assert PairSums(v)[..|PairSums(v)| - 1] == PairSums(w);
      assert v[..n + 1][..n] == w;
      AddAssoc(Sum(w), v[n], v[n + 1]);
    }
  }

  /** The products of corresponding entries, a[i] * b[i]. */
  function MulPairs(mul: Mul, a: seq<Elem>, b: seq<Elem>): (s: seq<Elem>)
    requires |a| == |b|
    ensures |s| == |a| && forall i :: 0 <= i < |a| ==> s[i] == mul(a[i], b[i])
  {
    seq(|a|, i requires 0 <= i < |a| => mul(a[i], b[i]))
  }

  /** Every entry multiplied on the left by p. */
  function ScaleEach(mul: Mul, p: Elem, t: seq<Elem>): (s: seq<Elem>)
    ensures |s| == |t| && forall i :: 0 <= i < |t| ==> s[i] == mul(p, t[i])
  {
    seq(|t|, i requires 0 <= i < |t| => mul(p, t[i]))
  }

  /** `tensor(p)`: each entry l becomes l + p * l, and the products p * l are appended. */
  function TensorStep(mul: Mul, t: seq<Elem>, p: Elem): (next: seq<Elem>)
    ensures |next| == 2 * |t|
  {
    AddEach(t, ScaleEach(mul, p, t)) + ScaleEach(mul, p, t)
  }

  /** Tensoring leaves the sum of the table unchanged (characteristic 2). */
  lemma TensorStepSum(mul: Mul, t: seq<Elem>, p: Elem)
    ensures Sum(TensorStep(mul, t, p)) == Sum(t)
  {
    SplitStepSum(t, ScaleEach(mul, p, t));
  }

  /** Tensoring the table of `point` with p gives the table of `point` extended by p. */
  lemma TensorExtendsEqTable(mul: Mul, point: seq<Elem>, p: Elem)
    requires IsRing(mul)
    ensures TensorStep(mul, EqTable(mul, point), p) == EqTable(mul, point + [p])
  {
    var t := EqTable(mul, point);
    assert (point + [p])[..|point|] == point;
    forall i | 0 <= i < |t|
      ensures ScaleEach(mul, p, t)[i] == MulEach(mul, t, p)[i]
    {
      MulComm(mul, p, t[i]);
    }
    assert ScaleEach(mul, p, t) == MulEach(mul, t, p);
  }

  /**
   * `row_batch` of one entry: the sum of the rows of `eqVals` selected by the
   * entry's coordinates (the zip stops at the shorter of the two).
   */
  function RowBatchVal(x: Elem, eqVals: seq<Elem>): Elem
  {
    var n := Min(128, |eqVals|);
    Sum(seq(n, j requires 0 <= j < n => Scale(x[j], eqVals[j])))
  }

  /** Row batching is additive in the batched entry. */
  lemma RowBatchAdditive(x: Elem, y: Elem, eqVals: seq<Elem>)
    ensures RowBatchVal(Add(x, y), eqVals) == Add(RowBatchVal(x, eqVals), RowBatchVal(y, eqVals))
  {
    var n := Min(128, |eqVals|);
    var a := seq(n, j requires 0 <= j < n => Scale(x[j], eqVals[j]));
    var b := seq(n, j requires 0 <= j < n => Scale(y[j], eqVals[j]));
    var c := seq(n, j requires 0 <= j < n => Scale(Add(x, y)[j], eqVals[j]));
    forall j | 0 <= j < n
      ensures c[j] == Add(a[j], b[j])
    {
      AddSelf(eqVals[j]);
      AddZero(eqVals[j]);
    }
    SumPointwise(a, b, c);
  }

  /** `LagrangeBases`: the table `vals` of eq over `vars` variables, updated in place. */
  class LagrangeBases {
    var vals: seq<Elem>
    var vars: nat

    /** The table has one entry per point of the hypercube. */
    ghost predicate Valid()
      reads this
    {
      |vals| == Pow2(vars)
    }

    /** `LagrangeBases::new`: the table of no variables, [1]. */
    constructor ()
      ensures vals == [ONE] && vars == 0
      ensures Valid()
    {
      vals := [ONE];
      vars := 0;
    }

    /** `gen_from_point`: the table of eq(point, .) built by `compute_eq`. */
    constructor GenFromPoint(mul: Mul, point: seq<Elem>)
      ensures vals == EqTable(mul, point) && vars == |point|
      ensures Valid()
    {
      var table := ComputeEq(mul, point);
      vals := table;
      vars := |point|;
    }

    /** `idx`. */
    function Idx(idx: nat): Elem
      reads this
      requires idx < |vals|
    {
      vals[idx]
    }

    /** `tensor(point)`: adds a new highest variable; the table doubles and `vars` grows by one. */
    method Tensor(mul: Mul, point: Elem)
      requires Valid()
      modifies this
      ensures Valid()
      ensures vals == TensorStep(mul, old(vals), point) && vars == old(vars) + 1
    {
      var left := vals;
      var right := seq(|vals|, _ => ZERO);
      for i := 0 to |left|
        invariant |left| == |right| == |vals|
        invariant forall k :: 0 <= k < i ==> right[k] == mul(point, vals[k]) && left[k] == Add(vals[k], right[k])
        invariant forall k :: i <= k < |left| ==> left[k] == vals[k]
      {
        right := right[i := mul(point, left[i])];
        left := left[i := Add(left[i], right[i])];
      }
      assert left + right == TensorStep(mul, vals, point);
      vals := left + right;
      vars := vars + 1;
    }

    /** `fold_lo(r)`: binds the lowest variable to r; the table halves and `vars` drops by one. */
    method FoldLo(mul: Mul, r: Elem)
      requires Valid() && vars >= 1
      modifies this
      ensures Valid()
      ensures vals == FoldLoVals(mul, old(vals), r) && vars == old(vars) - 1
    {
      vals := FoldLoVals(mul, vals, r);
      vars := vars - 1;
    }

    /** `row_batch(eq)`: a new table with every entry row-batched against `eq`, over the same variables. */
    method RowBatch(eq: LagrangeBases) returns (batched: LagrangeBases)
      ensures fresh(batched)
      ensures batched.vars == vars && |batched.vals| == |vals|
      ensures forall i :: 0 <= i < |vals| ==> batched.vals[i] == RowBatchVal(vals[i], eq.vals)
      ensures Valid() ==> batched.Valid()
    {
      var rows, eqVals := vals, eq.vals;
      batched := new LagrangeBases();
      batched.vals := seq(|rows|, i requires 0 <= i < |rows| => RowBatchVal(rows[i], eqVals));
      batched.vars := vars;
    }

    /**
     * `fold_in`: sums each pair of entries, dropping the lowest variable, when the
     * table has more than one entry; the total of the table is unchanged.
     */
    method FoldIn()
      requires Valid()
      modifies this
      ensures Valid()
      ensures Sum(vals) == Sum(old(vals))
      ensures |old(vals)| > 1 ==> vals == PairSums(old(vals)) && vars == old(vars) - 1
      ensures |old(vals)| <= 1 ==> vals == old(vals) && vars == old(vars)
    {
      if |vals| > 1 {
        assert vars >= 1;
        PairSumsSum(vals);
        vals := PairSums(vals);
        vars := vars - 1;
      }
    }
  }
  // ---------------------------------------------------------------------------
  // Sums with a single non-zero term
  // ---------------------------------------------------------------------------

  /** The table of eq at the hypercube vertex s: 1 at s and 0 everywhere else. */
  function OneHot(n: nat, s: nat): (e: seq<Elem>)
    ensures |e| == n && forall j :: 0 <= j < n ==> e[j] == (if j == s then ONE else ZERO)
  {
    seq(n, j requires 0 <= j < n => if j == s then ONE else ZERO)
  }

  lemma {:induction false} SumZeros(terms: seq<Elem>)
    requires forall j :: 0 <= j < |terms| ==> terms[j] == ZERO
    ensures Sum(terms) == ZERO
  {
    if |terms| > 0 {
      SumZeros(terms[..|terms| - 1]);
      AddZero(ZERO);
    }
  }

  /** A sum whose terms are all zero but one is that term. */
  lemma {:induction false} SumSingle(terms: seq<Elem>, s: nat)
    requires s < |terms|
    requires forall j :: 0 <= j < |terms| && j != s ==> terms[j] == ZERO
    ensures Sum(terms) == terms[s]
  {
    var n := |terms| - 1;
    if n == s {
      SumZeros(terms[..n]);
      AddZero(terms[n]);
    } else {
      SumSingle(terms[..n], s);
      AddZero(terms[s]);
    }
  }

  // ---------------------------------------------------------------------------
  // Index arithmetic
  // ---------------------------------------------------------------------------

  /** A nonzero n is q * 2^TrailingZeros(n) for some q >= 1. */
  lemma {:induction false} TrailingZerosFactor(n: nat) returns (q: nat)
    requires n > 0
    ensures q >= 1 && n == q * Pow2(TrailingZeros(n))
  {
    if n % 2 == 1 {
      q := n;
    } else {
      var q' := TrailingZerosFactor(n / 2);
      q := q';
      assert Pow2(TrailingZeros(n)) == 2 * Pow2(TrailingZeros(n / 2));
    }
  }

  /** Halving a power of two at least 2 gives the power of two with one fewer trailing zero. */
  lemma HalfPowerOfTwo(n: nat)
    requires IsPowerOfTwo(n) && n >= 2
    ensures IsPowerOfTwo(n / 2) && TrailingZeros(n / 2) == TrailingZeros(n) - 1
  {
    assert TrailingZeros(n) >= 1;
    assert n % 2 == 0;
  }

  // ---------------------------------------------------------------------------
  // Packed multilinear polynomials
  // ---------------------------------------------------------------------------

  /**
   * `PackedMLE<F>` for the tower subfield F of level `level` (2^level bits). Each
   * coefficient is held as a BinaryField128b element whose low 2^level coordinates
   * are those of the F element. When packed, coefficient k carries the hypercube
   * entries k * 2^packingFactor + c as its coordinates c; `variables` counts the
   * variables of the unpacked hypercube.
   */
  datatype PackedMLE = PackedMLE(level: nat, packingFactor: nat, variables: nat, coeffs: seq<Elem>)
  {
    /** The shape `PackedMLE::new` gives a power-of-two coefficient vector over a subfield. */
    predicate WellFormed()
    {
      && level <= 7
      && packingFactor <= level
      && IsPowerOfTwo(|coeffs|)
      && variables == TrailingZeros(|coeffs|) + packingFactor
    }

    /**
     * `packed_idx`: entry idx of the unpacked hypercube, which is coordinate
     * idx mod 2^packingFactor (that is, `(out << pf) ^ idx`) of coefficient idx >> packingFactor.
     */
    function PackedIdx(idx: nat): (bit: bool)
      requires packingFactor <= level <= 7 && Shr(idx, packingFactor) < |coeffs|
      ensures Low(idx, packingFactor) < 128 && bit == coeffs[Shr(idx, packingFactor)][Low(idx, packingFactor)]
    {
      var out := Shr(idx, packingFactor);
      var inner := Low(idx, packingFactor);
      ShrSplit(idx, packingFactor);
      Pow2Monotone(packingFactor, 7);
      assert Pow2(7) == 128;
      coeffs[out][inner]
    }

    /** `idx`: coefficient idx. */
    function Idx(idx: nat): Elem
      requires idx < |coeffs|
    {
      coeffs[idx]
    }

    /** `len`: the number of coefficients. */
    function Len(): nat
    {
      |coeffs|
    }

    /**
     * The terms `get_bound_elem` adds when eq binds eqVars > 0 variables: the bit at
     * `(idx << eqVars) | sub` scaled by eqVals[sub], for every sub of the eq table.
     */
    function BoundTerms(idx: nat, eqVals: seq<Elem>, eqVars: nat): (terms: seq<Elem>)
      requires WellFormed() && eqVars <= variables && idx < Pow2(variables - eqVars)
      requires |eqVals| == Pow2(eqVars)
      ensures |terms| == |eqVals|
    {
      seq(|eqVals|, sub requires 0 <= sub < |eqVals| => BoundTerm(idx, eqVals, eqVars, sub))
    }

    /** Term sub of `BoundTerms`: `packed_idx(sub_idx | sub)` times `eq.idx(sub)`, with sub_idx = idx << eqVars. */
    function BoundTerm(idx: nat, eqVals: seq<Elem>, eqVars: nat, sub: nat): Elem
      requires WellFormed() && eqVars <= variables && idx < Pow2(variables - eqVars)
      requires |eqVals| == Pow2(eqVars) && sub < |eqVals|
    {
      LowJoinIndex(this, eqVars, idx, sub);
      Scale(PackedIdx(Shl(idx, eqVars) + sub), eqVals[sub])
    }

    /**
     * `get_bound_elem(idx, eq)`: the entry idx of this polynomial with its eqVars
     * lowest variables bound by the eq table `eqVals`; with no variables bound it is
     * the bit at idx, embedded.
     */
    function BoundElem(idx: nat, eqVals: seq<Elem>, eqVars: nat): Elem
      requires WellFormed() && eqVars <= variables && idx < Pow2(variables - eqVars)
      requires |eqVals| == Pow2(eqVars)
    {
      if eqVars > 0 then Sum(BoundTerms(idx, eqVals, eqVars))
      else
        HypercubeIndex(this, idx);
        Embed(PackedIdx(idx))
    }

    /** The terms of entry i of `fold_as_unpacked_hi`: the bit at `i | (sub << shift)` scaled by eqVals[sub]. */
    function HiTerms(i: nat, eqVals: seq<Elem>, eqVars: nat): (terms: seq<Elem>)
      requires WellFormed() && eqVars <= variables && i < Pow2(variables - eqVars)
      requires |eqVals| == Pow2(eqVars)
      ensures |terms| == |eqVals|
    {
      seq(|eqVals|, sub requires 0 <= sub < |eqVals| => HiTerm(i, eqVals, eqVars, sub))
    }

    /** Term sub of `HiTerms`: `packed_idx(i | (sub << shift))` times `eq.idx(sub)`, with shift = variables - eqVars. */
    function HiTerm(i: nat, eqVals: seq<Elem>, eqVars: nat, sub: nat): Elem
      requires WellFormed() && eqVars <= variables && i < Pow2(variables - eqVars)
      requires |eqVals| == Pow2(eqVars) && sub < |eqVals|
    {
      HighJoinIndex(this, eqVars, variables - eqVars, sub, i);
      Scale(PackedIdx(Shl(sub, variables - eqVars) + i), eqVals[sub])
    }

    /**
     * `fold_as_unpacked_hi(eq)`: binds the eqVars highest variables of the unpacked
     * hypercube with the eq table, giving an unpacked polynomial over the rest.
     */
    function FoldAsUnpackedHi(eqVals: seq<Elem>, eqVars: nat): (folded: PackedMLE)
      requires WellFormed() && eqVars <= variables && |eqVals| == Pow2(eqVars)
      ensures folded.WellFormed() && folded.level == 7 && folded.packingFactor == 0
      ensures folded.variables == variables - eqVars
      ensures forall i :: 0 <= i < |folded.coeffs| ==> folded.coeffs[i] == Sum(HiTerms(i, eqVals, eqVars))
    {
      var n := Pow2(variables - eqVars);
      TrailingZerosPow2(variables - eqVars);
      NewPackedMLE(seq(n, i requires 0 <= i < n => Sum(HiTerms(i, eqVals, eqVars))), false, 7)
    }

    /**
     * `fold_as_unpacked_lo(eq)`: binds the eqVars lowest variables of the unpacked
     * hypercube with the eq table (entry by entry, `get_bound_elem`).
     */
    function FoldAsUnpackedLo(eqVals: seq<Elem>, eqVars: nat): (folded: PackedMLE)
      requires WellFormed() && eqVars <= variables && |eqVals| == Pow2(eqVars)
      ensures folded.WellFormed() && folded.level == 7 && folded.packingFactor == 0
      ensures folded.variables == variables - eqVars
      ensures forall i :: 0 <= i < |folded.coeffs| ==> folded.coeffs[i] == BoundElem(i, eqVals, eqVars)
    {
      var n := Pow2(variables - eqVars);
      TrailingZerosPow2(variables - eqVars);
      NewPackedMLE(seq(n, i requires 0 <= i < n => BoundElem(i, eqVals, eqVars)), false, 7)
    }

    /** The terms of row k of `batch_rows`: the bit at `(k << TAU) | i` scaled by eqVals[i], for i < 2^TAU. */
    function BatchTerms(k: nat, eqVals: seq<Elem>): (terms: seq<Elem>)
      requires WellFormed() && TAU <= variables && k < Pow2(variables - TAU)
      requires |eqVals| >= Pow2(TAU)
      ensures |terms| == Pow2(TAU)
    {
      seq(Pow2(TAU), i requires 0 <= i < Pow2(TAU) => BatchTerm(k, eqVals, i))
    }

    /** Term i of `BatchTerms`: `packed_idx((k << TAU) | i)` times `eq.idx(i)`. */
    function BatchTerm(k: nat, eqVals: seq<Elem>, i: nat): Elem
      requires WellFormed() && TAU <= variables && k < Pow2(variables - TAU)
      requires |eqVals| >= Pow2(TAU) && i < Pow2(TAU)
    {
      LowJoinIndex(this, TAU, k, i);
      Scale(PackedIdx(Shl(k, TAU) + i), eqVals[i])
    }

    /** `batch_rows(eq)`: each row of 2^TAU hypercube entries batched against the first 2^TAU entries of eq. */
    function BatchRows(eqVals: seq<Elem>): (batched: PackedMLE)
      requires WellFormed() && TAU <= variables && |eqVals| >= Pow2(TAU)
      ensures batched.WellFormed() && batched.level == 7 && batched.packingFactor == 0
      ensures batched.variables == variables - TAU
      ensures forall k :: 0 <= k < |batched.coeffs| ==> batched.coeffs[k] == Sum(BatchTerms(k, eqVals))
    {
      var n := Pow2(variables - TAU);
      TrailingZerosPow2(variables - TAU);
      NewPackedMLE(seq(n, k requires 0 <= k < n => Sum(BatchTerms(k, eqVals))), false, 7)
    }

    /**
     * `fold_lo(r)`: binds the lowest variable of the coefficient vector to r; an
     * unpacked polynomial over v >= 1 variables becomes one over v - 1.
     */
    function FoldLo(mul: Mul, r: Elem): (folded: PackedMLE)
      ensures folded.coeffs == FoldLoVals(mul, coeffs, r)
      ensures folded.level == 7 && folded.packingFactor == 0
      ensures WellFormed() && packingFactor == 0 && |coeffs| >= 2 ==>
                folded.WellFormed() && folded.variables == variables - 1
    {
      if WellFormed() && |coeffs| >= 2 then
        HalfPowerOfTwo(|coeffs|);
        NewPackedMLE(FoldLoVals(mul, coeffs, r), false, 7)
      else
        NewPackedMLE(FoldLoVals(mul, coeffs, r), false, 7)
    }

    /**
     * The coefficients entry i of `fold_as_packed_hi` combines: `i | (sub << shift)`
     * (bitwise or) for every sub of the eq table, where shift is the trailing zeros of
     * the length less eqVars.
     */
    function PackedHiColumn(i: nat, eqVars: nat): (column: seq<Elem>)
      requires eqVars <= TrailingZeros(|coeffs|) && i < Shr(|coeffs|, eqVars)
      ensures |column| == Pow2(eqVars)
    {
      seq(Pow2(eqVars), sub requires 0 <= sub < Pow2(eqVars) => PackedHiCoeff(i, eqVars, sub))
    }

    /** Entry sub of `PackedHiColumn`: coefficient `i | (sub << shift)`, with shift = TrailingZeros(len) - eqVars. */
    function PackedHiCoeff(i: nat, eqVars: nat, sub: nat): Elem
      requires eqVars <= TrailingZeros(|coeffs|) && i < Shr(|coeffs|, eqVars) && sub < Pow2(eqVars)
    {
      PackedHiIndex(|coeffs|, eqVars, i, sub);
      coeffs[Or(i, Shl(sub, TrailingZeros(|coeffs|) - eqVars))]
    }

    /** The terms of entry i of `fold_as_packed_hi`: eqVals[sub] times the coefficient the column gives. */
    function PackedHiTerms(mul: Mul, i: nat, eqVals: seq<Elem>, eqVars: nat): (terms: seq<Elem>)
      requires eqVars <= TrailingZeros(|coeffs|) && |eqVals| == Pow2(eqVars)
      requires i < Shr(|coeffs|, eqVars)
      ensures |terms| == |eqVals|
    {
      MulPairs(mul, eqVals, PackedHiColumn(i, eqVars))
    }

    /**
     * `fold_as_packed_hi(eq)`: binds the eqVars highest variables of the coefficient
     * vector (each coefficient taken as a whole) with the eq table.
     */
    function FoldAsPackedHi(mul: Mul, eqVals: seq<Elem>, eqVars: nat): (folded: PackedMLE)
      requires eqVars <= TrailingZeros(|coeffs|) && |eqVals| == Pow2(eqVars)
      ensures |folded.coeffs| == Shr(|coeffs|, eqVars)
      ensures folded.level == 7 && folded.packingFactor == 0
      ensures IsPowerOfTwo(|coeffs|) ==>
                folded.WellFormed() && folded.variables == TrailingZeros(|coeffs|) - eqVars
      ensures forall i :: 0 <= i < |folded.coeffs| ==> folded.coeffs[i] == Sum(PackedHiTerms(mul, i, eqVals, eqVars))
    {
      var n := Shr(|coeffs|, eqVars);
      if IsPowerOfTwo(|coeffs|) then
        ShrPow2(TrailingZeros(|coeffs|), eqVars);
        TrailingZerosPow2(TrailingZeros(|coeffs|) - eqVars);
        NewPackedMLE(seq(n, i requires 0 <= i < n => Sum(PackedHiTerms(mul, i, eqVals, eqVars))), false, 7)
      else
        NewPackedMLE(seq(n, i requires 0 <= i < n => Sum(PackedHiTerms(mul, i, eqVals, eqVars))), false, 7)
    }
  }

  /**
   * `PackedMLE::new`: packed, the packing factor is the bit width's trailing zeros
   * (the subfield's level); either way the hypercube has one point per GF(2)
   * coordinate carried, 2^variables == |coeffs| * 2^packingFactor.
   */
  function NewPackedMLE(coeffs: seq<Elem>, packed: bool, level: nat): (m: PackedMLE)
    requires level <= 7
    ensures m.coeffs == coeffs && m.level == level
    ensures m.packingFactor == (if packed then level else 0)
    ensures IsPowerOfTwo(|coeffs|) ==> m.WellFormed() && Pow2(m.variables) == |coeffs| * Pow2(m.packingFactor)
  {
    TrailingZerosPow2(level);
    var pf := if packed then TrailingZeros(Pow2(level)) else 0;
    Pow2Add(TrailingZeros(|coeffs|), pf);
    PackedMLE(level, pf, TrailingZeros(|coeffs|) + pf, coeffs)
  }

  /** The index `(a << lo) | b` of the unpacked hypercube, with b below 2^lo, falls in some coefficient. */
  lemma LowJoinIndex(m: PackedMLE, lo: nat, a: nat, b: nat)
    requires m.WellFormed() && lo <= m.variables && a < Pow2(m.variables - lo) && b < Pow2(lo)
    ensures Shl(a, lo) + b < Pow2(m.variables)
    ensures Shr(Shl(a, lo) + b, m.packingFactor) < |m.coeffs|
  {
    ShlJoinBound(m.variables - lo, lo, a, b);
    HypercubeIndex(m, Shl(a, lo) + b);
  }

  /** The index `i | (s << shift)`, with s below 2^hi, i below 2^shift and hi + shift == variables, falls in some coefficient. */
  lemma HighJoinIndex(m: PackedMLE, hi: nat, shift: nat, s: nat, i: nat)
    requires m.WellFormed() && hi + shift == m.variables && s < Pow2(hi) && i < Pow2(shift)
    ensures Shr(Shl(s, shift) + i, m.packingFactor) < |m.coeffs|
  {
    ShlJoinBound(hi, shift, s, i);
    HypercubeIndex(m, Shl(s, shift) + i);
  }

  /** Every index of the unpacked hypercube falls in some coefficient. */
  lemma HypercubeIndex(m: PackedMLE, idx: nat)
    requires m.WellFormed() && idx < Pow2(m.variables)
    ensures Shr(idx, m.packingFactor) < |m.coeffs|
  {
    ShrBound(idx, m.packingFactor, m.variables);
  }

  /** `packed_idx` at `(out << pf) | c` is coordinate c of coefficient out. */
  lemma PackedIdxAt(m: PackedMLE, out: nat, c: nat)
    requires m.packingFactor <= m.level <= 7 && out < |m.coeffs| && c < Pow2(m.packingFactor)
    ensures Shr(Shl(out, m.packingFactor) + c, m.packingFactor) == out
    ensures c < 128 && m.PackedIdx(Shl(out, m.packingFactor) + c) == m.coeffs[out][c]
  {
    ShlJoin(out, m.packingFactor, c);
    Pow2Monotone(m.packingFactor, 7);
    assert Pow2(7) == 128;
  }

  /** Shifting 2^t right by v <= t gives 2^(t - v). */
  lemma {:induction false} ShrPow2(t: nat, v: nat)
    requires v <= t
    ensures Shr(Pow2(t), v) == Pow2(t - v)
  {
    if v > 0 {
      assert Pow2(t) / 2 == Pow2(t - 1);
      ShrPow2(t - 1, v - 1);
    }
  }

  /**
   * The indices `i | (sub << shift)` that `fold_as_packed_hi` reads stay inside the
   * coefficient vector for every length, not only powers of two: the or is at most
   * the sum, and the sum is in range.
   */
  lemma PackedHiIndex(n: nat, v: nat, i: nat, sub: nat)
    requires v <= TrailingZeros(n) && i < Shr(n, v) && sub < Pow2(v)
    ensures Or(i, Shl(sub, TrailingZeros(n) - v)) < n
  {
    OrBound(i, Shl(sub, TrailingZeros(n) - v));
    PackedHiSumIndex(n, v, i, sub);
  }

  /** The sum `(sub << shift) + i` is in range as well. */
  lemma PackedHiSumIndex(n: nat, v: nat, i: nat, sub: nat)
    requires v <= TrailingZeros(n) && i < Shr(n, v) && sub < Pow2(v)
    ensures Shl(sub, TrailingZeros(n) - v) + i < n
  {
    var t := TrailingZeros(n);
    ShrIsDiv(n, v);
    if n > 0 {
      var q := TrailingZerosFactor(n);
      FactorShr(n, q, t, v);
      ShlIsMul(sub, t - v);
      BlockBound(q, Pow2(t - v), Pow2(v), i, sub);
    }
  }

  /** n = q * 2^t divided by 2^v, v <= t, is q * 2^(t - v). */
  lemma FactorShr(n: nat, q: nat, t: nat, v: nat)
    requires v <= t && n == q * Pow2(t)
    ensures n / Pow2(v) == q * Pow2(t - v) && n == (q * Pow2(t - v)) * Pow2(v)
  {
    var s, p := Pow2(t - v), Pow2(v);
    Pow2Add(t - v, v);
    assert t - v + v == t;
    assert n == q * (s * p);
    assert q * (s * p) == (q * s) * p;
    DivUnique(n, p, q * s, 0);
  }

  /** i < q * s and sub < p with q >= 1 give sub * s + i < q * s * p. */
  lemma BlockBound(q: nat, s: nat, p: nat, i: nat, sub: nat)
    requires q >= 1 && i < q * s && sub < p
    ensures sub * s + i < (q * s) * p
  {
    var x := q * s;
    MulMono(p - 1, sub, s);
    MulMono(q, 1, s);
    MulMono(x, s, p - 1);
    assert x * (p - 1) + x == x * p;
  }

  /**
   * `get_bound_elem(idx, eq)`, with eq's table and variable count passed in: the
   * loop over the eq table accumulates `BoundElem`.
   */
  method GetBoundElem(m: PackedMLE, idx: nat, eqVals: seq<Elem>, eqVars: nat) returns (res: Elem)
    requires m.WellFormed() && eqVars <= m.variables && idx < Pow2(m.variables - eqVars)
    requires |eqVals| == Pow2(eqVars)
    ensures res == m.BoundElem(idx, eqVals, eqVars)
  {
    res := ZERO;
    if eqVars > 0 {
      ghost var terms := m.BoundTerms(idx, eqVals, eqVars);
      for sub := 0 to |eqVals|
        invariant res == Sum(terms[..sub])
      {
        assert terms[..sub + 1][..sub] == terms[..sub];
        res := Add(res, m.BoundTerm(idx, eqVals, eqVars, sub));
      }
      assert terms[..|eqVals|] == terms;
    } else {
      HypercubeIndex(m, idx);
      res := Embed(m.PackedIdx(idx));
      assert res == m.BoundElem(idx, eqVals, eqVars);
    }
  }

  /**
   * Binding the low eqVars variables with the eq table of the hypercube vertex s
   * reads the entry `(idx << eqVars) | s`.
   */
  lemma BoundElemAtVertex(m: PackedMLE, idx: nat, eqVars: nat, s: nat)
    requires m.WellFormed() && eqVars <= m.variables && idx < Pow2(m.variables - eqVars)
    requires s < Pow2(eqVars)
    ensures Shr(Shl(idx, eqVars) + s, m.packingFactor) < |m.coeffs|
    ensures m.BoundElem(idx, OneHot(Pow2(eqVars), s), eqVars) == Embed(m.PackedIdx(Shl(idx, eqVars) + s))
  {
    LowJoinIndex(m, eqVars, idx, s);
    if eqVars > 0 {
      var terms := m.BoundTerms(idx, OneHot(Pow2(eqVars), s), eqVars);
      forall j | 0 <= j < |terms| && j != s
        ensures terms[j] == ZERO
      {
        BoundTermOffVertex(m, idx, eqVars, s, j);
      }
      BoundTermOnVertex(m, idx, eqVars, s);
      SumSingle(terms, s);
    }
  }

  /** The term of the vertex itself is the bit at `(idx << eqVars) | s`. */
  lemma BoundTermOnVertex(m: PackedMLE, idx: nat, eqVars: nat, s: nat)
    requires m.WellFormed() && eqVars <= m.variables && idx < Pow2(m.variables - eqVars)
    requires s < Pow2(eqVars) && Shr(Shl(idx, eqVars) + s, m.packingFactor) < |m.coeffs|
    ensures m.BoundTerm(idx, OneHot(Pow2(eqVars), s), eqVars, s) == Embed(m.PackedIdx(Shl(idx, eqVars) + s))
  {
    assert OneHot(Pow2(eqVars), s)[s] == ONE;
  }

  /** Every other term is zero. */
  lemma BoundTermOffVertex(m: PackedMLE, idx: nat, eqVars: nat, s: nat, j: nat)
    requires m.WellFormed() && eqVars <= m.variables && idx < Pow2(m.variables - eqVars)
    requires s < Pow2(eqVars) && j < Pow2(eqVars) && j != s
    ensures m.BoundTerm(idx, OneHot(Pow2(eqVars), s), eqVars, j) == ZERO
  {
    assert OneHot(Pow2(eqVars), s)[j] == ZERO;
  }

  /** `fold_as_unpacked_lo` at the vertex s: entry i is the bit at `(i << eqVars) | s`. */
  lemma FoldAsUnpackedLoAtVertex(m: PackedMLE, eqVars: nat, s: nat, i: nat)
    requires m.WellFormed() && eqVars <= m.variables && s < Pow2(eqVars)
    requires i < Pow2(m.variables - eqVars)
    ensures Shr(Shl(i, eqVars) + s, m.packingFactor) < |m.coeffs|
    ensures i < |m.FoldAsUnpackedLo(OneHot(Pow2(eqVars), s), eqVars).coeffs|
    ensures m.FoldAsUnpackedLo(OneHot(Pow2(eqVars), s), eqVars).coeffs[i]
            == Embed(m.PackedIdx(Shl(i, eqVars) + s))
  {
    BoundElemAtVertex(m, i, eqVars, s);
    TrailingZerosPow2(m.variables - eqVars);
  }

  /** `fold_as_unpacked_hi` at the vertex s: entry i is the bit at `i | (s << shift)`, shift = variables - eqVars. */
  lemma FoldAsUnpackedHiAtVertex(m: PackedMLE, eqVars: nat, shift: nat, s: nat, i: nat)
    requires m.WellFormed() && eqVars + shift == m.variables && s < Pow2(eqVars) && i < Pow2(shift)
    ensures Shr(Shl(s, shift) + i, m.packingFactor) < |m.coeffs|
    ensures i < |m.FoldAsUnpackedHi(OneHot(Pow2(eqVars), s), eqVars).coeffs|
    ensures m.FoldAsUnpackedHi(OneHot(Pow2(eqVars), s), eqVars).coeffs[i]
            == Embed(m.PackedIdx(Shl(s, shift) + i))
  {
    HighJoinIndex(m, eqVars, shift, s, i);
    TrailingZerosPow2(shift);
    HiSumAtVertex(m, eqVars, shift, s, i);
    var folded := m.FoldAsUnpackedHi(OneHot(Pow2(eqVars), s), eqVars);
    assert |folded.coeffs| == Pow2(shift);
    assert folded.coeffs[i] == Sum(m.HiTerms(i, OneHot(Pow2(eqVars), s), eqVars));
  }

  /** Only the term of the vertex s survives in the sum of entry i. */
  lemma HiSumAtVertex(m: PackedMLE, eqVars: nat, shift: nat, s: nat, i: nat)
    requires m.WellFormed() && eqVars + shift == m.variables && s < Pow2(eqVars) && i < Pow2(shift)
    requires Shr(Shl(s, shift) + i, m.packingFactor) < |m.coeffs|
    ensures Sum(m.HiTerms(i, OneHot(Pow2(eqVars), s), eqVars)) == Embed(m.PackedIdx(Shl(s, shift) + i))
  {
    var terms := m.HiTerms(i, OneHot(Pow2(eqVars), s), eqVars);
    forall j | 0 <= j < |terms| && j != s
      ensures terms[j] == ZERO
    {
      HiTermOffVertex(m, eqVars, s, i, j);
    }
    HiTermOnVertex(m, eqVars, shift, s, i);
    SumSingle(terms, s);
  }

  /** The term of the vertex itself is the bit at `i | (s << shift)`. */
  lemma HiTermOnVertex(m: PackedMLE, eqVars: nat, shift: nat, s: nat, i: nat)
    requires m.WellFormed() && eqVars + shift == m.variables && s < Pow2(eqVars) && i < Pow2(shift)
    requires Shr(Shl(s, shift) + i, m.packingFactor) < |m.coeffs|
    ensures m.HiTerm(i, OneHot(Pow2(eqVars), s), eqVars, s) == Embed(m.PackedIdx(Shl(s, shift) + i))
  {
    assert OneHot(Pow2(eqVars), s)[s] == ONE;
  }

  /** Every other term is zero. */
  lemma HiTermOffVertex(m: PackedMLE, eqVars: nat, s: nat, i: nat, j: nat)
    requires m.WellFormed() && eqVars <= m.variables && s < Pow2(eqVars) && i < Pow2(m.variables - eqVars)
    requires j < Pow2(eqVars) && j != s
    ensures m.HiTerm(i, OneHot(Pow2(eqVars), s), eqVars, j) == ZERO
  {
    assert OneHot(Pow2(eqVars), s)[j] == ZERO;
  }

  /** `batch_rows` with an eq table over exactly TAU variables is `fold_as_unpacked_lo` of that table. */
  lemma BatchRowsIsFoldAsUnpackedLo(m: PackedMLE, eqVals: seq<Elem>)
    requires m.WellFormed() && TAU <= m.variables && |eqVals| == Pow2(TAU)
    ensures m.BatchRows(eqVals) == m.FoldAsUnpackedLo(eqVals, TAU)
  {
    var batched, folded := m.BatchRows(eqVals), m.FoldAsUnpackedLo(eqVals, TAU);
    TrailingZerosPow2(m.variables - TAU);
    forall k | 0 <= k < |batched.coeffs|
      ensures batched.coeffs[k] == folded.coeffs[k]
    {
      BatchTermsAreBoundTerms(m, k, eqVals);
    }
    assert batched.coeffs == folded.coeffs;
  }

  /** Row k of `batch_rows` has the terms of `get_bound_elem(k)` over the TAU lowest variables. */
  lemma BatchTermsAreBoundTerms(m: PackedMLE, k: nat, eqVals: seq<Elem>)
    requires m.WellFormed() && TAU <= m.variables && |eqVals| == Pow2(TAU) && k < Pow2(m.variables - TAU)
    ensures m.BatchTerms(k, eqVals) == m.BoundTerms(k, eqVals, TAU)
  {
    var rowTerms, boundTerms := m.BatchTerms(k, eqVals), m.BoundTerms(k, eqVals, TAU);
    forall i | 0 <= i < Pow2(TAU)
      ensures rowTerms[i] == boundTerms[i]
    {
      assert rowTerms[i] == m.BatchTerm(k, eqVals, i);
      assert boundTerms[i] == m.BoundTerm(k, eqVals, TAU, i);
    }
  }

  /**
   * `fold_as_packed_hi` at the vertex s: entry i is coefficient `i | (s << shift)`.
   * For a power-of-two length i is below 2^shift, so that is s * 2^shift + i, the
   * i-th coefficient of block s.
   */
  lemma FoldAsPackedHiAtVertex(mul: Mul, m: PackedMLE, eqVars: nat, s: nat, i: nat)
    requires IsRing(mul)
    requires eqVars <= TrailingZeros(|m.coeffs|) && s < Pow2(eqVars) && i < Shr(|m.coeffs|, eqVars)
    ensures Or(i, Shl(s, TrailingZeros(|m.coeffs|) - eqVars)) < |m.coeffs|
    ensures m.FoldAsPackedHi(mul, OneHot(Pow2(eqVars), s), eqVars).coeffs[i]
            == m.coeffs[Or(i, Shl(s, TrailingZeros(|m.coeffs|) - eqVars))]
    ensures IsPowerOfTwo(|m.coeffs|) ==>
              Or(i, Shl(s, TrailingZeros(|m.coeffs|) - eqVars)) == Shl(s, TrailingZeros(|m.coeffs|) - eqVars) + i
  {
    PackedHiSumAtVertex(mul, m, eqVars, s, i);
    if IsPowerOfTwo(|m.coeffs|) {
      ShrPow2(TrailingZeros(|m.coeffs|), eqVars);
      OrDisjoint(i, s, TrailingZeros(|m.coeffs|) - eqVars);
    }
    var folded := m.FoldAsPackedHi(mul, OneHot(Pow2(eqVars), s), eqVars);
    assert folded.coeffs[i] == Sum(m.PackedHiTerms(mul, i, OneHot(Pow2(eqVars), s), eqVars));
  }

  /** The sum of entry i at the vertex s is coefficient `i | (s << shift)`. */
  lemma PackedHiSumAtVertex(mul: Mul, m: PackedMLE, eqVars: nat, s: nat, i: nat)
    requires IsRing(mul)
    requires eqVars <= TrailingZeros(|m.coeffs|) && s < Pow2(eqVars) && i < Shr(|m.coeffs|, eqVars)
    ensures Or(i, Shl(s, TrailingZeros(|m.coeffs|) - eqVars)) < |m.coeffs|
    ensures Sum(m.PackedHiTerms(mul, i, OneHot(Pow2(eqVars), s), eqVars))
            == m.coeffs[Or(i, Shl(s, TrailingZeros(|m.coeffs|) - eqVars))]
  {
    PackedHiIndex(|m.coeffs|, eqVars, i, s);
    PackedHiTermsAtVertex(mul, m, eqVars, s, i);
    assert m.PackedHiColumn(i, eqVars)[s] == m.PackedHiCoeff(i, eqVars, s);
  }

  lemma PackedHiTermsAtVertex(mul: Mul, m: PackedMLE, eqVars: nat, s: nat, i: nat)
    requires IsRing(mul)
    requires eqVars <= TrailingZeros(|m.coeffs|) && s < Pow2(eqVars) && i < Shr(|m.coeffs|, eqVars)
    ensures Sum(m.PackedHiTerms(mul, i, OneHot(Pow2(eqVars), s), eqVars)) == m.PackedHiColumn(i, eqVars)[s]
  {
    var column := m.PackedHiColumn(i, eqVars);
    var terms := m.PackedHiTerms(mul, i, OneHot(Pow2(eqVars), s), eqVars);
    forall j | 0 <= j < |terms|
      ensures terms[j] == (if j == s then column[s] else ZERO)
    {
      MulOneHot(mul, Pow2(eqVars), s, j, column[j]);
    }
    SumSingle(terms, s);
  }

  /** Binding no variables with the table [1] leaves the coefficients unchanged. */
  lemma FoldAsPackedHiIdentity(mul: Mul, m: PackedMLE)
    requires IsRing(mul)
    ensures m.FoldAsPackedHi(mul, [ONE], 0).coeffs == m.coeffs
  {
    var folded := m.FoldAsPackedHi(mul, [ONE], 0);
    assert OneHot(Pow2(0), 0) == [ONE];
    forall i | 0 <= i < |m.coeffs|
      ensures folded.coeffs[i] == m.coeffs[i]
    {
      FoldAsPackedHiAtVertex(mul, m, 0, 0, i);
      ShlIsMul(0, TrailingZeros(|m.coeffs|) - 0);
    }
  }

  // ---------------------------------------------------------------------------
  // Dot products and the column/row views of an algebra element
  // ---------------------------------------------------------------------------

  /** `compute_dot_product`: the sum of scalars[i] * vals[i] over the shorter of the two. */
  function DotProduct(mul: Mul, scalars: seq<Elem>, vals: seq<Elem>): (dot: Elem)
    ensures dot == Sum(MulPairs(mul, scalars[..Min(|scalars|, |vals|)], vals[..Min(|scalars|, |vals|)]))
  {
    var n := Min(|scalars|, |vals|);
    Sum(MulPairs(mul, scalars[..n], vals[..n]))
  }

  /** The entry of a one-hot table times x: x at the hot entry, zero elsewhere. */
  lemma MulOneHot(mul: Mul, n: nat, s: nat, j: nat, x: Elem)
    requires IsRing(mul) && j < n
    ensures mul(OneHot(n, s)[j], x) == (if j == s then x else ZERO)
  {
    MulZero(mul, x);
    MulOne(mul, x);
  }

  /** The dot product with the eq table of the vertex s picks out vals[s]. */
  lemma DotProductOneHot(mul: Mul, s: nat, vals: seq<Elem>, n: nat)
    requires IsRing(mul) && s < n <= |vals|
    ensures DotProduct(mul, OneHot(n, s), vals) == vals[s]
  {
    var terms := MulPairs(mul, OneHot(n, s), vals[..n]);
    forall j | 0 <= j < n
      ensures terms[j] == (if j == s then vals[s] else ZERO)
    {
      MulOneHot(mul, n, s, j, vals[j]);
    }
    assert OneHot(n, s)[..n] == OneHot(n, s);
    SumSingle(terms, s);
  }

  /** The dot product is additive in the vector of values. */
  lemma DotProductAdditive(mul: Mul, scalars: seq<Elem>, a: seq<Elem>, b: seq<Elem>)
    requires IsRing(mul) && |a| == |b|
    ensures DotProduct(mul, scalars, AddEach(a, b))
            == Add(DotProduct(mul, scalars, a), DotProduct(mul, scalars, b))
  {
    var n := Min(|scalars|, |a|);
    var ta := MulPairs(mul, scalars[..n], a[..n]);
    var tb := MulPairs(mul, scalars[..n], b[..n]);
    var tc := MulPairs(mul, scalars[..n], AddEach(a, b)[..n]);
    forall i | 0 <= i < n
      ensures tc[i] == Add(ta[i], tb[i])
    {
      MulAddRight(mul, scalars[i], a[i], b[i]);
    }
    SumPointwise(ta, tb, tc);
  }

  /**
   * `switch_view` as a function: row i of the result gathers coordinate i of each
   * of the first 128 elements, so the 128 x 128 bit matrix is transposed.
   */
  function Transpose(vals: seq<Elem>): (rows: seq<Elem>)
    requires |vals| >= 128
    ensures |rows| == 128
  {
    seq(128, i requires 0 <= i < 128 => FromBits(seq(128, j requires 0 <= j < 128 => vals[j][i])))
  }

  /** Coordinate j of row i is coordinate i of column j. */
  lemma TransposeAt(vals: seq<Elem>, i: nat, j: nat)
    requires |vals| >= 128 && i < 128 && j < 128
    ensures Transpose(vals)[i][j] == vals[j][i]
  {
  }

  /** Switching the view twice gives back the first 128 elements. */
  lemma TransposeInvolution(vals: seq<Elem>)
    requires |vals| >= 128
    ensures Transpose(Transpose(vals)) == vals[..128]
  {
    var back := Transpose(Transpose(vals));
    forall j | 0 <= j < 128
      ensures back[j] == vals[j]
    {
      forall i | 0 <= i < 128
        ensures back[j][i] == vals[j][i]
      {
        TransposeAt(Transpose(vals), j, i);
        TransposeAt(vals, i, j);
      }
    }
  }

  /** Switching the view commutes with addition. */
  lemma TransposeAdditive(a: seq<Elem>, b: seq<Elem>)
    requires |a| == |b| && |a| >= 128
    ensures Transpose(AddEach(a, b)) == AddEach(Transpose(a), Transpose(b))
  {
    var lhs, rhs := Transpose(AddEach(a, b)), AddEach(Transpose(a), Transpose(b));
    forall i | 0 <= i < 128
      ensures lhs[i] == rhs[i]
    {
      forall j | 0 <= j < 128
        ensures lhs[i][j] == rhs[i][j]
      {
        TransposeAt(AddEach(a, b), i, j);
        TransposeAt(a, i, j);
        TransposeAt(b, i, j);
      }
    }
  }

  /** `switch_view`: builds each row bit by bit from the columns. */
  method SwitchView(vals: seq<Elem>) returns (rowView: seq<Elem>)
    requires |vals| >= 128
    ensures rowView == Transpose(vals)
  {
    rowView := [];
    for i := 0 to 128
      invariant |rowView| == i
      invariant forall k :: 0 <= k < i ==> rowView[k] == Transpose(vals)[k]
    {
      var rowBases: seq<bool> := [];
      for j := 0 to 128
        invariant |rowBases| == j
        invariant forall k :: 0 <= k < j ==> rowBases[k] == vals[k][i]
      {
        rowBases := rowBases + [vals[j][i]];
      }
      rowView := rowView + [FromBits(rowBases)];
    }
  }

  /** `compute_row_batch`: the dot product of the scalars with the row view of the column-view values. */
  method ComputeRowBatch(mul: Mul, scalars: seq<Elem>, vals: seq<Elem>) returns (batched: Elem)
    requires |vals| >= 128
    ensures batched == DotProduct(mul, scalars, Transpose(vals))
  {
    var rowView := SwitchView(vals);
    batched := DotProduct(mul, scalars, rowView);
  }
}
