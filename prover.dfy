/**
 * The prover of the FRI-Binius polynomial commitment (src/prover.rs): committing
 * to a codeword, the sum-check round polynomial and its evaluation, the partial
 * evaluations of the ring switch, the commit phase that folds the code once per
 * sum-check round, and the query phase that opens the folded codes.
 */
module Prover {
  import opened Field
  import opened Errors
  import opened Merkle
  import opened FiatShamir
  import opened ReedSolomon
  import opened Mle

  // ---------------------------------------------------------------------------
  // Univariate polynomials
  // ---------------------------------------------------------------------------

  /** A univariate polynomial by its coefficients, lowest degree first. */
  datatype Univariate = Univariate(coeffs: seq<Elem>)

  /** Horner's rule: c0 + (c1 + (c2 + ...) * r) * r. */
  function Horner(mul: Mul, coeffs: seq<Elem>, r: Elem): Elem
  {
    if |coeffs| == 0 then ZERO else Add(coeffs[0], mul(Horner(mul, coeffs[1..], r), r))
  }

  /** `Univariate::evaluate`: runs over the coefficients from the last, eval := c + eval * r. */
  method Evaluate(mul: Mul, poly: Univariate, r: Elem) returns (eval: Elem)
    ensures eval == Horner(mul, poly.coeffs, r)
    ensures |poly.coeffs| == 0 ==> eval == ZERO
  {
    eval := ZERO;
    var i := |poly.coeffs|;
    while i > 0
      invariant 0 <= i <= |poly.coeffs|
      invariant eval == Horner(mul, poly.coeffs[i..], r)
    {
      i := i - 1;
      assert poly.coeffs[i..][1..] == poly.coeffs[i + 1..];
      eval := Add(poly.coeffs[i], mul(eval, r));
    }
    assert poly.coeffs[0..] == poly.coeffs;
  }

  /** r^i. */
  function Power(mul: Mul, r: Elem, i: nat): Elem
  {
    if i == 0 then ONE else mul(Power(mul, r, i - 1), r)
  }

  /** [r^0, r^1, ..., r^(n - 1)]. */
  function Powers(mul: Mul, r: Elem, n: nat): (p: seq<Elem>)
    ensures |p| == n && forall i :: 0 <= i < n ==> p[i] == Power(mul, r, i)
  {
    seq(n, i requires 0 <= i < n => Power(mul, r, i))
  }

  /** The polynomial's value as the sum of its monomials, the sum of coeffs[i] * r^i. */
  function PowerSum(mul: Mul, coeffs: seq<Elem>, r: Elem): Elem
  {
    Sum(MulPairs(mul, coeffs, Powers(mul, r, |coeffs|)))
  }

  /** A sum split after its first term. */
  lemma SumFront(s: seq<Elem>)
    requires |s| >= 1
    ensures Sum(s) == Add(s[0], Sum(s[1..]))
  {
    assert s == [s[0]] + s[1..];
    SumConcat([s[0]], s[1..]);
    AddZero(s[0]);
  }

  /** Multiplication distributes over a sum. */
  lemma {:induction false} MulSumRight(mul: Mul, s: seq<Elem>, r: Elem)
    requires IsRing(mul)
    ensures mul(Sum(s), r) == Sum(MulEach(mul, s, r))
  {
    if |s| == 0 {
      MulZero(mul, r);
    } else {
      var n := |s| - 1;
      MulSumRight(mul, s[..n], r);
      MulAddLeft(mul, Sum(s[..n]), s[n], r);
      assert MulEach(mul, s, r)[..n] == MulEach(mul, s[..n], r);
    }
  }

  /** One step of the monomial sum: c * r^(i + 1) == (c * r^i) * r. */
  lemma PowerStep(mul: Mul, c: Elem, r: Elem, i: nat)
    requires IsRing(mul)
    ensures mul(c, Power(mul, r, i + 1)) == mul(mul(c, Power(mul, r, i)), r)
  {
    MulAssoc(mul, c, Power(mul, r, i), r);
  }

  /** Multiplying the monomials of the tail by r gives the monomials of the whole polynomial after the first. */
  lemma ShiftedMonomials(mul: Mul, coeffs: seq<Elem>, r: Elem)
    requires IsRing(mul) && |coeffs| > 0
    ensures MulEach(mul, MulPairs(mul, coeffs[1..], Powers(mul, r, |coeffs| - 1)), r)
            == MulPairs(mul, coeffs, Powers(mul, r, |coeffs|))[1..]
  {
    var tail := coeffs[1..];
    var t := MulPairs(mul, tail, Powers(mul, r, |tail|));
    var s := MulPairs(mul, coeffs, Powers(mul, r, |coeffs|));
    forall i | 0 <= i < |tail|
      ensures MulEach(mul, t, r)[i] == s[i + 1]
    {
      PowerStep(mul, tail[i], r, i);
    }
  }

  /** Horner's rule computes the sum of the monomials. */
  lemma {:induction false} HornerIsPowerSum(mul: Mul, coeffs: seq<Elem>, r: Elem)
    requires IsRing(mul)
    ensures Horner(mul, coeffs, r) == PowerSum(mul, coeffs, r)
  {
    if |coeffs| > 0 {
      var tail := coeffs[1..];
      HornerIsPowerSum(mul, tail, r);
      var t := MulPairs(mul, tail, Powers(mul, r, |tail|));
      var s := MulPairs(mul, coeffs, Powers(mul, r, |coeffs|));
      MulSumRight(mul, t, r);
      ShiftedMonomials(mul, coeffs, r);
      assert s[0] == coeffs[0] by {
        MulOne(mul, coeffs[0]);
      }
      SumFront(s);
    }
  }

  /** At r = 0 a non-empty polynomial evaluates to its constant coefficient. */
  lemma HornerAtZero(mul: Mul, coeffs: seq<Elem>)
    requires IsRing(mul) && |coeffs| >= 1
    ensures Horner(mul, coeffs, ZERO) == coeffs[0]
  {
    MulZero(mul, Horner(mul, coeffs[1..], ZERO));
    AddZero(coeffs[0]);
  }

  /** At r = 1 a polynomial evaluates to the sum of its coefficients. */
  lemma {:induction false} HornerAtOne(mul: Mul, coeffs: seq<Elem>)
    requires IsRing(mul)
    ensures Horner(mul, coeffs, ONE) == Sum(coeffs)
  {
    if |coeffs| > 0 {
      var rest := Horner(mul, coeffs[1..], ONE);
      HornerAtOne(mul, coeffs[1..]);
      MulOne(mul, rest);
      SumFront(coeffs);
    }
  }

  // ---------------------------------------------------------------------------
  // The sum-check round
  // ---------------------------------------------------------------------------

  /** The round polynomial's value at 0: the sum of mle[2i] * eq[2i]. */
  function RoundEvalAtZero(mul: Mul, mle: seq<Elem>, eqVals: seq<Elem>): Elem
    requires 2 * (|mle| / 2) <= |eqVals|
  {
    Sum(MulPairs(mul, Evens(mle), Evens(eqVals[..2 * (|mle| / 2)])))
  }

  /**
   * The round polynomial's leading coefficient: the sum of
   * (mle[2i] + mle[2i + 1]) * (eq[2i] + eq[2i + 1]).
   */
  function RoundEvalAtInf(mul: Mul, mle: seq<Elem>, eqVals: seq<Elem>): Elem
    requires 2 * (|mle| / 2) <= |eqVals|
  {
    Sum(MulPairs(mul, PairSums(mle), PairSums(eqVals[..2 * (|mle| / 2)])))
  }

  /**
   * The degree-2 round polynomial [e0, e0 + e1 + einf, einf] for the table `mle`,
   * where e1 = claim - e0 is its value at 1.
   */
  function RoundPolynomial(mul: Mul, mle: seq<Elem>, eqVals: seq<Elem>, claim: Elem): (poly: Univariate)
    requires 2 * (|mle| / 2) <= |eqVals|
    ensures |poly.coeffs| == 3
  {
    var evalAt0 := RoundEvalAtZero(mul, mle, eqVals);
    var evalAtInf := RoundEvalAtInf(mul, mle, eqVals);
    var evalAt1 := Add(claim, evalAt0);
    Univariate([evalAt0, Add(Add(evalAt0, evalAt1), evalAtInf), evalAtInf])
  }

  /** `sum_check_round`: the round polynomial of the polynomial's coefficient table. */
  function SumCheckRound(mul: Mul, mle: PackedMLE, eqVals: seq<Elem>, claim: Elem): (poly: Univariate)
    requires 2 * (|mle.coeffs| / 2) <= |eqVals|
    ensures |poly.coeffs| == 3
  {
    RoundPolynomial(mul, mle.coeffs, eqVals, claim)
  }

  /** The round polynomial's values at 0 and 1 add up to the claim, and its value at 0 is e0. */
  lemma SumCheckRoundSumsToClaim(mul: Mul, mle: seq<Elem>, eqVals: seq<Elem>, claim: Elem)
    requires IsRing(mul) && 2 * (|mle| / 2) <= |eqVals|
    ensures Horner(mul, RoundPolynomial(mul, mle, eqVals, claim).coeffs, ZERO) == RoundEvalAtZero(mul, mle, eqVals)
    ensures Add(Horner(mul, RoundPolynomial(mul, mle, eqVals, claim).coeffs, ZERO),
                Horner(mul, RoundPolynomial(mul, mle, eqVals, claim).coeffs, ONE)) == claim
  {
    var poly := RoundPolynomial(mul, mle, eqVals, claim).coeffs;
    HornerAtZero(mul, poly);
    HornerAtOne(mul, poly);
    assert poly[..2][..1] == [poly[0]];
    assert Sum([poly[0]]) == poly[0] by {
      AddZero(poly[0]);
    }
    assert poly[..2] == poly[..3][..2];
    assert poly[..3] == poly;
  }

  /** a + (b + c * r) * r: a polynomial of degree two by its coefficients, evaluated at r. */
  function Quad(mul: Mul, a: Elem, b: Elem, c: Elem, r: Elem): Elem
  {
    Add(a, mul(Add(b, mul(c, r)), r))
  }

  /** Horner's rule on three coefficients. */
  lemma HornerThree(mul: Mul, a: Elem, b: Elem, c: Elem, r: Elem)
    requires IsRing(mul)
    ensures Horner(mul, [a, b, c], r) == Quad(mul, a, b, c, r)
  {
    assert [a, b, c][1..] == [b, c];
    assert [b, c][1..] == [c];
    assert [c][1..] == [];
    MulZero(mul, r);
    AddZero(c);
    assert Horner(mul, [c], r) == c;
    assert Horner(mul, [b, c], r) == Add(b, mul(c, r));
  }

  /** (a + b) * (c + d) == a * c + a * d + b * c + b * d. */
  lemma MulExpand(mul: Mul, a: Elem, b: Elem, c: Elem, d: Elem)
    requires IsRing(mul)
    ensures mul(Add(a, b), Add(c, d)) == Add(Add(mul(a, c), mul(a, d)), Add(mul(b, c), mul(b, d)))
  {
    MulAddLeft(mul, a, b, Add(c, d));
    MulAddRight(mul, a, c, d);
    MulAddRight(mul, b, c, d);
  }

  /** (r * x) * (r * y) == ((x * y) * r) * r. */
  lemma MulSquareOut(mul: Mul, x: Elem, y: Elem, r: Elem)
    requires IsRing(mul)
    ensures mul(mul(r, x), mul(r, y)) == mul(mul(mul(x, y), r), r)
  {
    MulAssoc(mul, mul(x, y), r, r);
    MulAssoc(mul, x, y, mul(r, r));
    MulComm(mul, r, x);
    MulAssoc(mul, x, r, mul(r, y));
    MulAssoc(mul, r, r, y);
    MulComm(mul, mul(r, r), y);
  }

  /** (r * x) * y == (x * y) * r. */
  lemma MulShiftOut(mul: Mul, x: Elem, y: Elem, r: Elem)
    requires IsRing(mul)
    ensures mul(mul(r, x), y) == mul(mul(x, y), r)
  {
    MulAssoc(mul, r, x, y);
    MulComm(mul, r, mul(x, y));
  }

  /** x * (r * y) == (x * y) * r. */
  lemma MulShiftIn(mul: Mul, x: Elem, y: Elem, r: Elem)
    requires IsRing(mul)
    ensures mul(x, mul(r, y)) == mul(mul(x, y), r)
  {
    MulComm(mul, r, y);
    MulAssoc(mul, x, y, r);
  }

  /**
   * The linear coefficient of a pair's product: with A = m0 * q0, B = m1 * q1 and
   * C = (m0 + m1) * (q0 + q1), A + B + C == (m0 + m1) * q0 + m0 * (q0 + q1).
   */
  lemma CrossTerms(mul: Mul, m0: Elem, m1: Elem, q0: Elem, q1: Elem)
    requires IsRing(mul)
    ensures Add(Add(mul(m0, q0), mul(m1, q1)), mul(Add(m0, m1), Add(q0, q1)))
            == Add(mul(Add(m0, m1), q0), mul(m0, Add(q0, q1)))
  {
    MulExpand(mul, m0, m1, q0, q1);
    MulAddLeft(mul, m0, m1, q0);
    MulAddRight(mul, m0, q0, q1);
  }

  /**
   * The product of two folded pairs, as a polynomial in r: its coefficients are
   * A = m0 * q0, A + B + C and C, with B = m1 * q1 and C = (m0 + m1) * (q0 + q1).
   */
  lemma PairProduct(mul: Mul, r: Elem, m0: Elem, m1: Elem, q0: Elem, q1: Elem)
    requires IsRing(mul)
    ensures mul(FoldPair(mul, r, m0, m1), FoldPair(mul, r, q0, q1))
            == Quad(mul, mul(m0, q0), Add(Add(mul(m0, q0), mul(m1, q1)), mul(Add(m0, m1), Add(q0, q1))),
                    mul(Add(m0, m1), Add(q0, q1)), r)
  {
    var d, e := Add(m0, m1), Add(q0, q1);
    var a, c := mul(m0, q0), mul(d, e);
    var p, q := mul(d, q0), mul(m0, e);
    MulExpand(mul, mul(r, d), m0, mul(r, e), q0);
    MulSquareOut(mul, d, e, r);
    MulShiftOut(mul, d, q0, r);
    MulShiftIn(mul, m0, e, r);
    CrossTerms(mul, m0, m1, q0, q1);
    MulAddLeft(mul, Add(p, q), mul(c, r), r);
    MulAddLeft(mul, p, q, r);
  }

  /** Quad is additive in its coefficients. */
  lemma QuadAdditive(mul: Mul, a: Elem, b: Elem, c: Elem, a': Elem, b': Elem, c': Elem, r: Elem)
    requires IsRing(mul)
    ensures Quad(mul, Add(a, a'), Add(b, b'), Add(c, c'), r) == Add(Quad(mul, a, b, c, r), Quad(mul, a', b', c', r))
  {
    MulAddLeft(mul, c, c', r);
    AddFour(b, b', mul(c, r), mul(c', r));
    MulAddLeft(mul, Add(b, mul(c, r)), Add(b', mul(c', r)), r);
  }

  /** A sum of degree-two polynomials has the summed coefficients. */
  lemma {:induction false} SumQuad(mul: Mul, lows: seq<Elem>, bs: seq<Elem>, cs: seq<Elem>, qs: seq<Elem>, r: Elem)
    requires IsRing(mul) && |lows| == |bs| == |cs| == |qs|
    requires forall i :: 0 <= i < |qs| ==> qs[i] == Quad(mul, lows[i], bs[i], cs[i], r)
    ensures Sum(qs) == Quad(mul, Sum(lows), Sum(bs), Sum(cs), r)
  {
    if |qs| == 0 {
      MulZero(mul, r);
      AddZero(ZERO);
    } else {
      var n := |qs| - 1;
      SumQuad(mul, lows[..n], bs[..n], cs[..n], qs[..n], r);
      QuadAdditive(mul, Sum(lows[..n]), Sum(bs[..n]), Sum(cs[..n]), lows[n], bs[n], cs[n], r);
    }
  }

  /** The claim, the dot product of the table with eq, splits into the even and the odd products. */
  lemma ClaimSplits(mul: Mul, v: seq<Elem>, q: seq<Elem>)
    requires |v| == |q| && |v| % 2 == 0
    ensures DotProduct(mul, v, q)
            == Add(Sum(MulPairs(mul, Evens(v), Evens(q))), Sum(MulPairs(mul, Odds(v), Odds(q))))
  {
    var t := MulPairs(mul, v, q);
    assert v[..|v|] == v && q[..|q|] == q;
    PairSumsSum(t);
    SumPointwise(MulPairs(mul, Evens(v), Evens(q)), MulPairs(mul, Odds(v), Odds(q)), PairSums(t));
  }

  /**
   * The round polynomial at the verifier's challenge r is the next round's claim:
   * when `claim` is the dot product of the table with the eq table, evaluating the
   * round polynomial at r gives the dot product of the two tables folded at r.
   */
  lemma SumCheckRoundFoldsClaim(mul: Mul, mle: seq<Elem>, eqVals: seq<Elem>, claim: Elem, r: Elem)
    requires IsRing(mul)
    requires |eqVals| == |mle| && |mle| % 2 == 0
    requires claim == DotProduct(mul, mle, eqVals)
    ensures Horner(mul, RoundPolynomial(mul, mle, eqVals, claim).coeffs, r)
            == DotProduct(mul, FoldLoVals(mul, mle, r), FoldLoVals(mul, eqVals, r))
  {
    var lows := MulPairs(mul, Evens(mle), Evens(eqVals));
    var os := MulPairs(mul, Odds(mle), Odds(eqVals));
    var cs := MulPairs(mul, PairSums(mle), PairSums(eqVals));
    var bs := AddEach(AddEach(lows, os), cs);
    RoundPolynomialCoeffs(mul, mle, eqVals, claim);
    HornerThree(mul, Sum(lows), Sum(bs), Sum(cs), r);
    FoldedProductIsQuad(mul, mle, eqVals, r);
  }

  /** The round polynomial's coefficients are the sums of the even, the cross and the pair-sum products. */
  lemma RoundPolynomialCoeffs(mul: Mul, v: seq<Elem>, q: seq<Elem>, claim: Elem)
    requires |q| == |v| && |v| % 2 == 0
    requires claim == DotProduct(mul, v, q)
    ensures RoundPolynomial(mul, v, q, claim).coeffs
            == [Sum(MulPairs(mul, Evens(v), Evens(q))),
                Sum(AddEach(AddEach(MulPairs(mul, Evens(v), Evens(q)), MulPairs(mul, Odds(v), Odds(q))),
                            MulPairs(mul, PairSums(v), PairSums(q)))),
                Sum(MulPairs(mul, PairSums(v), PairSums(q)))]
  {
    var h := |v| / 2;
    assert q[..2 * h] == q;
    var lows := MulPairs(mul, Evens(v), Evens(q));
    var os := MulPairs(mul, Odds(v), Odds(q));
    var cs := MulPairs(mul, PairSums(v), PairSums(q));
    var ao := AddEach(lows, os);
    var bs := AddEach(ao, cs);
    ClaimSplits(mul, v, q);
    SumPointwise(lows, os, ao);
    SumPointwise(ao, cs, bs);
    var poly := RoundPolynomial(mul, v, q, claim).coeffs;
    assert poly[0] == Sum(lows) && poly[2] == Sum(cs);
    assert Add(claim, poly[0]) == Sum(os) by {
      AddComm(Sum(lows), Sum(os));
      AddCancel(Sum(os), Sum(lows));
    }
  }

  /** The dot product of the two folded tables is the degree-two polynomial of the summed coefficients, at r. */
  lemma FoldedProductIsQuad(mul: Mul, v: seq<Elem>, q: seq<Elem>, r: Elem)
    requires IsRing(mul) && |q| == |v| && |v| % 2 == 0
    ensures DotProduct(mul, FoldLoVals(mul, v, r), FoldLoVals(mul, q, r))
            == Quad(mul, Sum(MulPairs(mul, Evens(v), Evens(q))),
                    Sum(AddEach(AddEach(MulPairs(mul, Evens(v), Evens(q)), MulPairs(mul, Odds(v), Odds(q))),
                                MulPairs(mul, PairSums(v), PairSums(q)))),
                    Sum(MulPairs(mul, PairSums(v), PairSums(q))), r)
  {
    var h := |v| / 2;
    var lows := MulPairs(mul, Evens(v), Evens(q));
    var os := MulPairs(mul, Odds(v), Odds(q));
    var cs := MulPairs(mul, PairSums(v), PairSums(q));
    var bs := AddEach(AddEach(lows, os), cs);
    var fv, fq := FoldLoVals(mul, v, r), FoldLoVals(mul, q, r);
    var qs := MulPairs(mul, fv, fq);
    forall i | 0 <= i < h
      ensures qs[i] == Quad(mul, lows[i], bs[i], cs[i], r)
    {
      PairProduct(mul, r, v[2 * i], v[2 * i + 1], q[2 * i], q[2 * i + 1]);
    }
    SumQuad(mul, lows, bs, cs, qs, r);
    assert fv[..h] == fv && fq[..h] == fq;
  }

  // ---------------------------------------------------------------------------
  // Partial evaluations of the ring switch
  // ---------------------------------------------------------------------------

  /**
   * The terms of partial evaluation k: for every setting j of the variables above
   * the lowest TAU, coefficient `k | (j << TAU)` times eq[j].
   */
  function PartialTerms(m: PackedMLE, k: nat, eqVals: seq<Elem>): (terms: seq<Elem>)
    requires m.WellFormed() && TAU <= m.variables && k < Pow2(TAU)
    requires Pow2(m.variables - TAU) <= |eqVals|
    ensures |terms| == Pow2(m.variables - TAU)
  {
    var n := Pow2(m.variables - TAU);
    seq(n, j requires 0 <= j < n => PartialTerm(m, k, eqVals, j))
  }

  /** Term j of `PartialTerms`: `packed_idx(k | (j << TAU))` times `eq.idx(j)`. */
  function PartialTerm(m: PackedMLE, k: nat, eqVals: seq<Elem>, j: nat): Elem
    requires m.WellFormed() && TAU <= m.variables && k < Pow2(TAU)
    requires j < Pow2(m.variables - TAU) <= |eqVals|
  {
    HighJoinIndex(m, m.variables - TAU, TAU, j, k);
    Scale(m.PackedIdx(Shl(j, TAU) + k), eqVals[j])
  }

  /**
   * `get_partial_evals`: the 2^TAU evaluations of the polynomial with its highest
   * variables bound to the eq table, one per setting k of the lowest TAU variables.
   */
  function GetPartialEvals(m: PackedMLE, eqVals: seq<Elem>): (evals: seq<Elem>)
    requires m.WellFormed() && TAU <= m.variables && Pow2(m.variables - TAU) <= |eqVals|
    ensures |evals| == Pow2(TAU)
  {
    seq(Pow2(TAU), k requires 0 <= k < Pow2(TAU) => Sum(PartialTerms(m, k, eqVals)))
  }

  /** The partial evaluations are the coefficients of `fold_as_unpacked_hi` over all but TAU variables. */
  lemma PartialEvalsAreFoldAsUnpackedHi(m: PackedMLE, eqVals: seq<Elem>)
    requires m.WellFormed() && TAU <= m.variables && |eqVals| == Pow2(m.variables - TAU)
    ensures GetPartialEvals(m, eqVals) == m.FoldAsUnpackedHi(eqVals, m.variables - TAU).coeffs
  {
    var evals := GetPartialEvals(m, eqVals);
    var folded := m.FoldAsUnpackedHi(eqVals, m.variables - TAU);
    TrailingZerosPow2(TAU);
    assert |folded.coeffs| == Pow2(TAU);
    forall k | 0 <= k < Pow2(TAU)
      ensures evals[k] == folded.coeffs[k]
    {
      PartialTermsAreHiTerms(m, k, eqVals);
    }
  }

  /** Row k of the partial evaluations has the terms of entry k of `fold_as_unpacked_hi`. */
  lemma PartialTermsAreHiTerms(m: PackedMLE, k: nat, eqVals: seq<Elem>)
    requires m.WellFormed() && TAU <= m.variables && |eqVals| == Pow2(m.variables - TAU) && k < Pow2(TAU)
    ensures PartialTerms(m, k, eqVals) == m.HiTerms(k, eqVals, m.variables - TAU)
  {
    var partial, hi := PartialTerms(m, k, eqVals), m.HiTerms(k, eqVals, m.variables - TAU);
    forall j | 0 <= j < |eqVals|
      ensures partial[j] == hi[j]
    {
      PartialTermIsHiTerm(m, k, eqVals, j);
    }
  }

  /** Term j of row k is term j of entry k of `fold_as_unpacked_hi`. */
  lemma PartialTermIsHiTerm(m: PackedMLE, k: nat, eqVals: seq<Elem>, j: nat)
    requires m.WellFormed() && TAU <= m.variables && |eqVals| == Pow2(m.variables - TAU) && k < Pow2(TAU)
    requires j < |eqVals|
    ensures PartialTerm(m, k, eqVals, j) == m.HiTerm(k, eqVals, m.variables - TAU, j)
  {
    assert m.variables - (m.variables - TAU) == TAU;
  }

  /** At the eq table of a vertex j the partial evaluation k is coefficient `k | (j << TAU)`. */
  lemma PartialEvalsAtVertex(m: PackedMLE, j: nat, k: nat)
    requires m.WellFormed() && TAU <= m.variables && j < Pow2(m.variables - TAU) && k < Pow2(TAU)
    ensures Shr(Shl(j, TAU) + k, m.packingFactor) < |m.coeffs|
    ensures GetPartialEvals(m, OneHot(Pow2(m.variables - TAU), j))[k] == Embed(m.PackedIdx(Shl(j, TAU) + k))
  {
    var eqVals := OneHot(Pow2(m.variables - TAU), j);
    HighJoinIndex(m, m.variables - TAU, TAU, j, k);
    PartialSumAtVertex(m, j, k);
    assert GetPartialEvals(m, eqVals)[k] == Sum(PartialTerms(m, k, eqVals));
  }

  /** Only the term of the vertex itself survives in the sum. */
  lemma PartialSumAtVertex(m: PackedMLE, j: nat, k: nat)
    requires m.WellFormed() && TAU <= m.variables && j < Pow2(m.variables - TAU) && k < Pow2(TAU)
    requires Shr(Shl(j, TAU) + k, m.packingFactor) < |m.coeffs|
    ensures Sum(PartialTerms(m, k, OneHot(Pow2(m.variables - TAU), j))) == Embed(m.PackedIdx(Shl(j, TAU) + k))
  {
    var eqVals := OneHot(Pow2(m.variables - TAU), j);
    var terms := PartialTerms(m, k, eqVals);
    forall i | 0 <= i < |terms| && i != j
      ensures terms[i] == ZERO
    {
      PartialTermOffVertex(m, j, k, i);
    }
    PartialTermOnVertex(m, j, k);
    SumSingle(terms, j);
  }

  /** The term of the vertex itself is the bit at `k | (j << TAU)`. */
  lemma PartialTermOnVertex(m: PackedMLE, j: nat, k: nat)
    requires m.WellFormed() && TAU <= m.variables && j < Pow2(m.variables - TAU) && k < Pow2(TAU)
    requires Shr(Shl(j, TAU) + k, m.packingFactor) < |m.coeffs|
    ensures PartialTerm(m, k, OneHot(Pow2(m.variables - TAU), j), j) == Embed(m.PackedIdx(Shl(j, TAU) + k))
  {
    assert OneHot(Pow2(m.variables - TAU), j)[j] == ONE;
  }

  /** Every other term is zero. */
  lemma PartialTermOffVertex(m: PackedMLE, j: nat, k: nat, i: nat)
    requires m.WellFormed() && TAU <= m.variables && j < Pow2(m.variables - TAU) && k < Pow2(TAU)
    requires i < Pow2(m.variables - TAU) && i != j
    ensures PartialTerm(m, k, OneHot(Pow2(m.variables - TAU), j), i) == ZERO
  {
    assert OneHot(Pow2(m.variables - TAU), j)[i] == ZERO;
  }

  // ---------------------------------------------------------------------------
  // Commitments
  // ---------------------------------------------------------------------------

  /**
   * `commit_oracle`: hashes the codeword's symbol pairs into leaves and builds the
   * Merkle tree over them; the commitment is the root, at depth log2(len) - 1, and
   * every pair of the codeword opens against it with its path.
   */
  method CommitOracle(keccak: Hasher, code: Code) returns (commitment: VectorCommitment, tree: MerkleTree)
    requires IsPowerOfTwo(|code.encoding|) && |code.encoding| >= 2
    ensures IsTree(keccak, tree.data, ComputeLeafHashes(keccak, code.encoding))
    ensures commitment.root == GetRoot(tree)
    ensures commitment.depth == |tree.data| - 1 == TrailingZeros(|code.encoding|) - 1
    ensures forall i :: 0 <= i < |code.encoding| / 2 ==>
              PathCheck(keccak, commitment, HashTuple(keccak, (code.encoding[2 * i], code.encoding[2 * i + 1])), i,
                        MerklePath(tree.data, i)) == Ok(())
  {
    var leafHashes := ComputeLeafHashes(keccak, code.encoding);
    HalfPowerOfTwo(|code.encoding|);
    tree := Merklize(keccak, leafHashes);
    commitment := VectorCommitment(GetRoot(tree), TrailingZeros(|code.encoding|) - 1);
    forall i | 0 <= i < |code.encoding| / 2
      ensures PathCheck(keccak, commitment, HashTuple(keccak, (code.encoding[2 * i], code.encoding[2 * i + 1])), i,
                        MerklePath(tree.data, i)) == Ok(())
    {
      MerklePathRoundTrip(keccak, tree, leafHashes, i);
    }
  }

  /** RATE times a power of two is a power of two with two more trailing zeros. */
  lemma RateTimesPowerOfTwo(m: nat)
    requires IsPowerOfTwo(m)
    ensures IsPowerOfTwo(RATE * m) && TrailingZeros(RATE * m) == TrailingZeros(m) + 2
  {
    var t := TrailingZeros(m);
    Pow2Add(t, 2);
    assert Pow2(2) == 4;
    TrailingZerosPow2(t + 2);
  }

  /**
   * `commit`: encodes the polynomial's coefficients with the rate-1/4 code and
   * commits to the codeword; the commitment records the tower level of the
   * coefficients as its packing factor.
   */
  method Commit(keccak: Hasher, mle: PackedMLE, ntt: Ntt) returns (commitment: FriCommitment, code: Code, tree: MerkleTree)
    requires mle.level <= 7 && |mle.coeffs| % Degree(mle.level) == 0
    requires IsPowerOfTwo(|mle.coeffs| / Degree(mle.level))
    requires LengthPreserving(ntt)
    ensures |code.encoding| == RATE * (|mle.coeffs| / Degree(mle.level))
    ensures forall i :: 0 <= i < RATE ==>
              Block(code.encoding, |mle.coeffs| / Degree(mle.level), i) == ntt.forward(Repack(mle.coeffs, mle.level), i)
    ensures IsTree(keccak, tree.data, ComputeLeafHashes(keccak, code.encoding))
    ensures commitment.vectorCommitment == VectorCommitment(GetRoot(tree), TrailingZeros(|code.encoding|) - 1)
    ensures commitment.packingFactor == mle.level
    ensures forall i :: 0 <= i < |code.encoding| / 2 ==>
              PathCheck(keccak, commitment.vectorCommitment, HashTuple(keccak, (code.encoding[2 * i], code.encoding[2 * i + 1])),
                        i, MerklePath(tree.data, i)) == Ok(())
  {
    code := New(mle.coeffs, mle.level, ntt);
    RateTimesPowerOfTwo(|mle.coeffs| / Degree(mle.level));
    var vectorCommitment;
    vectorCommitment, tree := CommitOracle(keccak, code);
    commitment := FriCommitment(vectorCommitment, mle.level);
  }

  // ---------------------------------------------------------------------------
  // The proof state and the commit phase
  // ---------------------------------------------------------------------------

  /** What the commit phase records round by round. */
  class ProofState {
    var friFoldedCodes: seq<Code>
    var friOracles: seq<VectorCommitment>
    var friMerkleTrees: seq<MerkleTree>
    var sumCheckOracles: seq<Univariate>
    var randomChallenges: seq<Elem>

    /** The five lists have one entry per finished round. */
    ghost predicate Valid()
      reads this
    {
      && |friOracles| == |friFoldedCodes|
      && |friMerkleTrees| == |friFoldedCodes|
      && |sumCheckOracles| == |friFoldedCodes|
      && |randomChallenges| == |friFoldedCodes|
    }

    /** `ProofState::default`: no rounds yet. */
    constructor ()
      ensures friFoldedCodes == [] && friOracles == [] && friMerkleTrees == []
      ensures sumCheckOracles == [] && randomChallenges == []
      ensures Valid()
    {
      friFoldedCodes, friOracles, friMerkleTrees := [], [], [];
      sumCheckOracles, randomChallenges := [], [];
    }

    /** `update`: records one round, pushing one entry onto each list. */
    method Update(foldedCode: Code, commitment: VectorCommitment, merkleTree: MerkleTree, poly: Univariate,
                  challenge: Elem)
      modifies this
      ensures friFoldedCodes == old(friFoldedCodes) + [foldedCode]
      ensures friOracles == old(friOracles) + [commitment]
      ensures friMerkleTrees == old(friMerkleTrees) + [merkleTree]
      ensures sumCheckOracles == old(sumCheckOracles) + [poly]
      ensures randomChallenges == old(randomChallenges) + [challenge]
      ensures old(Valid()) ==> Valid()
    {
      friFoldedCodes := friFoldedCodes + [foldedCode];
      friOracles := friOracles + [commitment];
      friMerkleTrees := friMerkleTrees + [merkleTree];
      sumCheckOracles := sumCheckOracles + [poly];
      randomChallenges := randomChallenges + [challenge];
    }
  }

  /**
   * The sum-check's state between rounds: the coefficients of the folded
   * polynomial, the folded eq table and the claim.
   */
  datatype SumCheckState = SumCheckState(mle: seq<Elem>, eqVals: seq<Elem>, claim: Elem)
  {
    /** The table and the eq table have the same length. */
    predicate Aligned()
    {
      |mle| == |eqVals|
    }

    /** The claim is the dot product of the table with the eq table. */
    ghost predicate Sound(mul: Mul)
    {
      claim == DotProduct(mul, mle, eqVals)
    }
  }

  /** The polynomial a round sends for this state. */
  function RoundPoly(mul: Mul, s: SumCheckState): Univariate
    requires s.Aligned()
  {
    RoundPolynomial(mul, s.mle, s.eqVals, s.claim)
  }

  /** One round: the round polynomial at r becomes the claim; the table and the eq table are folded at r. */
  function SumCheckStep(mul: Mul, s: SumCheckState, r: Elem): (next: SumCheckState)
    requires s.Aligned()
    ensures next.Aligned() && |next.eqVals| == |s.eqVals| / 2
  {
    SumCheckState(FoldLoVals(mul, s.mle, r), FoldLoVals(mul, s.eqVals, r), Horner(mul, RoundPoly(mul, s).coeffs, r))
  }

  /** `states` is a run of the sum-check on the challenges `rs`: each state is the step of the one before it. */
  ghost predicate IsRun(mul: Mul, states: seq<SumCheckState>, rs: seq<Elem>)
  {
    && |states| == |rs| + 1
    && (forall k :: 0 <= k < |states| ==> states[k].Aligned())
    && forall k {:trigger SumCheckStep(mul, states[k], rs[k])} :: 0 <= k < |rs| ==>
         states[k + 1] == SumCheckStep(mul, states[k], rs[k])
  }

  lemma IsRunExtend(mul: Mul, states: seq<SumCheckState>, rs: seq<Elem>, r: Elem)
    requires IsRun(mul, states, rs)
    ensures IsRun(mul, states + [SumCheckStep(mul, states[|rs|], r)], rs + [r])
  {
    var states', rs' := states + [SumCheckStep(mul, states[|rs|], r)], rs + [r];
    forall k | 0 <= k < |rs'|
      ensures states'[k + 1] == SumCheckStep(mul, states'[k], rs'[k])
    {
      if k < |rs| {
        assert states'[k] == states[k] && states'[k + 1] == states[k + 1] && rs'[k] == rs[k];
        assert states[k + 1] == SumCheckStep(mul, states[k], rs[k]);
      }
    }
  }

  /** One step halves both tables and, under the ring laws, keeps the claim sound. */
  lemma StepSound(mul: Mul, s: SumCheckState, r: Elem)
    requires s.Aligned() && |s.mle| % 2 == 0
    ensures |SumCheckStep(mul, s, r).mle| == |s.mle| / 2
    ensures IsRing(mul) && s.Sound(mul) ==> SumCheckStep(mul, s, r).Sound(mul)
  {
    if IsRing(mul) && s.Sound(mul) {
      SumCheckRoundFoldsClaim(mul, s.mle, s.eqVals, s.claim, r);
    }
  }

  /**
   * With 2^v entries to start with, the state before round k has 2^(v - k); when the
   * first claim is the dot product of the table with the eq table, so is the claim
   * before every later round (given the ring laws).
   */
  lemma {:induction false} RunSound(mul: Mul, states: seq<SumCheckState>, rs: seq<Elem>, v: nat, k: nat)
    requires IsRun(mul, states, rs) && |states[0].eqVals| == Pow2(v) && k <= |rs| && k <= v
    ensures |states[k].eqVals| == Pow2(v - k) && |states[k].mle| == Pow2(v - k)
    ensures IsRing(mul) && states[0].Sound(mul) ==> states[k].Sound(mul)
  {
    RunLengths(mul, states, rs, v, k);
    if k > 0 {
      RunSound(mul, states, rs, v, k - 1);
      RunLengths(mul, states, rs, v, k - 1);
      RunStepSound(mul, states, rs, k);
    }
  }

  /** With 2^v entries to start with, the state before round k has 2^(v - k). */
  lemma {:induction false} RunLengths(mul: Mul, states: seq<SumCheckState>, rs: seq<Elem>, v: nat, k: nat)
    requires IsRun(mul, states, rs) && |states[0].eqVals| == Pow2(v) && k <= |rs| && k <= v
    ensures |states[k].eqVals| == Pow2(v - k) && |states[k].mle| == Pow2(v - k)
    ensures k < v ==> |states[k].mle| % 2 == 0
  {
    if k > 0 {
      RunLengths(mul, states, rs, v, k - 1);
      Pow2AtLeastTwo(v - (k - 1));
      RunStepLength(mul, states, rs, k);
    }
    if k < v {
      Pow2AtLeastTwo(v - k);
    }
  }

  /** State k of a run is the step of state k - 1, so it has half the entries. */
  lemma RunStepLength(mul: Mul, states: seq<SumCheckState>, rs: seq<Elem>, k: nat)
    requires IsRun(mul, states, rs) && 0 < k <= |rs|
    ensures |states[k].eqVals| == |states[k - 1].eqVals| / 2 && |states[k].mle| == |states[k].eqVals|
  {
    assert states[k] == SumCheckStep(mul, states[k - 1], rs[k - 1]);
  }

  /** State k of a run is the step of state k - 1, so it keeps soundness. */
  lemma RunStepSound(mul: Mul, states: seq<SumCheckState>, rs: seq<Elem>, k: nat)
    requires IsRun(mul, states, rs) && 0 < k <= |rs| && |states[k - 1].mle| % 2 == 0
    ensures IsRing(mul) && states[k - 1].Sound(mul) ==> states[k].Sound(mul)
  {
    StepSound(mul, states[k - 1], rs[k - 1]);
  }

  /**
   * The transcript after the first n rounds of the commit phase, starting from
   * `transcript0`: each round appends its polynomial, then its oracle.
   */
  function CommitTranscript(transcript0: seq<Byte>, polys: seq<Univariate>, oracles: seq<VectorCommitment>,
                            n: nat): seq<Byte>
    requires n <= |polys| && n <= |oracles|
  {
    if n == 0 then transcript0
    else CommitTranscript(transcript0, polys, oracles, n - 1) + ElemsLeBytes(polys[n - 1].coeffs)
         + oracles[n - 1].root + U64LeBytes(oracles[n - 1].depth)
  }

  /** The transcript of the first n rounds depends on the first n entries only. */
  lemma {:induction false} CommitTranscriptPrefix(transcript0: seq<Byte>, polys: seq<Univariate>,
                                                  oracles: seq<VectorCommitment>,
                                                  poly: Univariate, oracle: VectorCommitment, n: nat)
    requires n <= |polys| && n <= |oracles|
    ensures CommitTranscript(transcript0, polys + [poly], oracles + [oracle], n)
            == CommitTranscript(transcript0, polys, oracles, n)
  {
    if n > 0 {
      CommitTranscriptPrefix(transcript0, polys, oracles, poly, oracle, n - 1);
    }
  }

  /** The code a round folds and opens: the encoding in round 0, the previous round's folded code after that. */
  function RoundCode(encoding: Code, codes: seq<Code>, k: nat): Code
    requires k <= |codes|
  {
    if k == 0 then encoding else codes[k - 1]
  }

  /** The tree a round opens: the committed encoding's in round 0, the previous round's after that. */
  function RoundTree(tree: MerkleTree, trees: seq<MerkleTree>, k: nat): MerkleTree
    requires k <= |trees|
  {
    if k == 0 then tree else trees[k - 1]
  }

  /** `oracle` and `tree` are what `commit_oracle` gives for `code`. */
  ghost predicate CommittedOracle(keccak: Hasher, code: Code, oracle: VectorCommitment, tree: MerkleTree)
  {
    && |code.encoding| % 2 == 0
    && IsTree(keccak, tree.data, ComputeLeafHashes(keccak, code.encoding))
    && oracle == VectorCommitment(GetRoot(tree), |tree.data| - 1)
  }

  /** A power of two with at least one trailing zero is even and at least 2. */
  lemma Pow2AtLeastTwo(x: nat)
    requires x >= 1
    ensures Pow2(x) >= 2 && Pow2(x) % 2 == 0 && Pow2(x) / 2 == Pow2(x - 1)
  {
  }

  /** Each code folds the one before it (the encoding, for the first) with that round's challenge. */
  ghost predicate FoldChain(mul: Mul, ntt: Ntt, encoding: Code, codes: seq<Code>, challenges: seq<Elem>)
  {
    && |codes| == |challenges|
    && forall k {:trigger challenges[k]} :: 0 <= k < |codes| ==>
         codes[k] == FoldCode(mul, ntt, RoundCode(encoding, codes, k), challenges[k], k)
  }

  /** Code k has 2^(logLen - k - 1) symbols, at least two. */
  ghost predicate HalvingLengths(codes: seq<Code>, logLen: nat)
  {
    forall k :: 0 <= k < |codes| ==>
      k + 1 < logLen && |codes[k].encoding| == Pow2(logLen - k - 1) && |codes[k].encoding| >= 2
  }

  /** Oracle k and tree k are the commitment to code k. */
  ghost predicate OraclesCommitted(keccak: Hasher, codes: seq<Code>, oracles: seq<VectorCommitment>,
                                   trees: seq<MerkleTree>)
  {
    && |oracles| == |codes| && |trees| == |codes|
    && forall k {:trigger CommittedOracle(keccak, codes[k], oracles[k], trees[k])} :: 0 <= k < |codes| ==>
         CommittedOracle(keccak, codes[k], oracles[k], trees[k])
  }

  /** Polynomial k is the sum-check polynomial of state k of the run. */
  ghost predicate PolysOfRun(mul: Mul, states: seq<SumCheckState>, polys: seq<Univariate>)
  {
    && |polys| < |states|
    && (forall k :: 0 <= k < |polys| ==> states[k].Aligned())
    && forall k {:trigger RoundPoly(mul, states[k])} :: 0 <= k < |polys| ==> polys[k] == RoundPoly(mul, states[k])
  }

  lemma PolysOfRunExtend(mul: Mul, states: seq<SumCheckState>, polys: seq<Univariate>, state: SumCheckState)
    requires PolysOfRun(mul, states, polys) && |states| == |polys| + 1 && states[|polys|].Aligned()
    ensures PolysOfRun(mul, states + [state], polys + [RoundPoly(mul, states[|polys|])])
  {
    var states', polys' := states + [state], polys + [RoundPoly(mul, states[|polys|])];
    forall k | 0 <= k < |polys'|
      ensures states'[k].Aligned() && polys'[k] == RoundPoly(mul, states'[k])
    {
      assert states'[k] == states[k];
      if k < |polys| {
        assert polys'[k] == polys[k];
        assert states[k].Aligned();
        assert polys[k] == RoundPoly(mul, states[k]);
      }
    }
  }

  /**
   * Challenge k is drawn, with counter `roundIdx0 + k`, from the transcript that holds
   * everything of the earlier rounds followed by polynomial k.
   */
  ghost predicate ChallengesDrawn(keccak: Hasher, transcript0: seq<Byte>, roundIdx0: nat, polys: seq<Univariate>,
                                  oracles: seq<VectorCommitment>, challenges: seq<Elem>)
  {
    && |polys| == |challenges| && |oracles| == |challenges|
    && forall k {:trigger challenges[k]} :: 0 <= k < |challenges| ==>
         challenges[k]
         == DrawPoint(keccak, CommitTranscript(transcript0, polys, oracles, k) + ElemsLeBytes(polys[k].coeffs),
                      roundIdx0 + k)
  }

  lemma FoldChainExtend(mul: Mul, ntt: Ntt, encoding: Code, codes: seq<Code>, challenges: seq<Elem>, round: nat,
                        r: Elem, code: Code)
    requires FoldChain(mul, ntt, encoding, codes, challenges) && round == |codes|
    requires code == FoldCode(mul, ntt, RoundCode(encoding, codes, round), r, round)
    ensures FoldChain(mul, ntt, encoding, codes + [code], challenges + [r])
  {
    var next := codes + [code];
    forall k | 0 <= k < |codes|
      ensures RoundCode(encoding, next, k) == RoundCode(encoding, codes, k)
    {
    }
  }

  lemma HalvingLengthsExtend(codes: seq<Code>, logLen: nat, round: nat, code: Code)
    requires HalvingLengths(codes, logLen)
    requires round == |codes| && round + 1 < logLen && |code.encoding| == Pow2(logLen - round - 1)
    ensures HalvingLengths(codes + [code], logLen)
  {
    Pow2AtLeastTwo(logLen - round - 1);
  }

  /** Appending a round appends its polynomial and then its oracle to the transcript. */
  lemma CommitTranscriptAppend(transcript0: seq<Byte>, polys: seq<Univariate>, oracles: seq<VectorCommitment>,
                               poly: Univariate, oracle: VectorCommitment)
    requires |polys| == |oracles|
    ensures CommitTranscript(transcript0, polys + [poly], oracles + [oracle], |polys| + 1)
            == CommitTranscript(transcript0, polys, oracles, |polys|) + ElemsLeBytes(poly.coeffs) + oracle.root
               + U64LeBytes(oracle.depth)
  {
    CommitTranscriptPrefix(transcript0, polys, oracles, poly, oracle, |polys|);
  }

  lemma ChallengesDrawnExtend(keccak: Hasher, transcript0: seq<Byte>, roundIdx0: nat, polys: seq<Univariate>,
                              oracles: seq<VectorCommitment>, challenges: seq<Elem>,
                              poly: Univariate, oracle: VectorCommitment, r: Elem, transcript: seq<Byte>, counter: nat)
    requires ChallengesDrawn(keccak, transcript0, roundIdx0, polys, oracles, challenges)
    requires transcript == CommitTranscript(transcript0, polys, oracles, |polys|) + ElemsLeBytes(poly.coeffs)
    requires counter == roundIdx0 + |polys|
    requires r == DrawPoint(keccak, transcript, counter)
    ensures ChallengesDrawn(keccak, transcript0, roundIdx0, polys + [poly], oracles + [oracle], challenges + [r])
  {
    var polys', oracles', challenges' := polys + [poly], oracles + [oracle], challenges + [r];
    forall k | 0 <= k < |challenges'|
      ensures challenges'[k]
              == DrawPoint(keccak, CommitTranscript(transcript0, polys', oracles', k) + ElemsLeBytes(polys'[k].coeffs),
                           roundIdx0 + k)
    {
      CommitTranscriptPrefix(transcript0, polys, oracles, poly, oracle, k);
      var p := if k < |polys| then polys[k] else poly;
      assert polys'[k] == p;
      assert CommitTranscript(transcript0, polys', oracles', k) + ElemsLeBytes(polys'[k].coeffs)
             == CommitTranscript(transcript0, polys, oracles, k) + ElemsLeBytes(p.coeffs);
      if k < |polys| {
        assert challenges'[k] == challenges[k];
      } else {
        assert challenges'[k] == r;
        assert CommitTranscript(transcript0, polys, oracles, k) + ElemsLeBytes(p.coeffs) == transcript;
      }
    }
  }

  /**
   * The sum-check half of a `commit_phase` round: sends the round polynomial, draws
   * the challenge and evaluates the polynomial at it, which is the next claim.
   */
  method SumCheckExchange(mul: Mul, channel: Channel, mle: PackedMLE, eqVals: seq<Elem>, claim: Elem)
    returns (r: Result<Elem>, poly: Univariate, nextClaim: Elem)
    requires channel.Valid() && |mle.coeffs| == |eqVals|
    modifies channel
    ensures channel.Valid()
    ensures poly == RoundPolynomial(mul, mle.coeffs, eqVals, claim)
    ensures channel.transcript == old(channel.transcript) + ElemsLeBytes(poly.coeffs)
    ensures r.Ok? <==> old(channel.roundIdx) < USIZE_MAX
    ensures r.Err? ==> r.error == ChannelCounterOverflow && channel.roundIdx == old(channel.roundIdx)
    ensures r.Ok? ==> && r.value == DrawPoint(channel.keccak, channel.transcript, old(channel.roundIdx))
                      && channel.roundIdx == old(channel.roundIdx) + 1
                      && nextClaim == Horner(mul, poly.coeffs, r.value)
  {
    poly := SumCheckRound(mul, mle, eqVals, claim);
    var observed := channel.ObserveFieldElems(poly.coeffs);
    r := channel.GetRandomPoint();
    nextClaim := claim;
    if r.Ok? {
      nextClaim := Evaluate(mul, poly, r.value);
    }
  }

  /** The code of round `round` folds to a power of two, at least 2, with one trailing zero fewer. */
  lemma RoundCodeFolds(mul: Mul, ntt: Ntt, encoding: Code, codes: seq<Code>, round: nat, challenge: Elem, logLen: nat)
    requires IsPowerOfTwo(|encoding.encoding|) && logLen == TrailingZeros(|encoding.encoding|) && round + 1 < logLen
    requires round <= |codes| && HalvingLengths(codes, logLen)
    ensures var folded := FoldCode(mul, ntt, RoundCode(encoding, codes, round), challenge, round);
            && |folded.encoding| == Pow2(logLen - round - 1) >= 2
            && IsPowerOfTwo(|folded.encoding|) && TrailingZeros(|folded.encoding|) == logLen - round - 1
  {
    var code := RoundCode(encoding, codes, round);
    assert |code.encoding| == Pow2(logLen - round - 1 + 1);
    FoldCodeHalvesPow2(mul, ntt, code, challenge, round, logLen - round - 1);
    TrailingZerosPow2(logLen - round - 1);
    Pow2AtLeastTwo(logLen - round - 1);
  }

  /**
   * The FRI half of a `commit_phase` round: folds the round's code with the challenge,
   * commits to the folded code, sends the commitment and records the round.
   */
  method FoldAndCommit(mul: Mul, ntt: Ntt, round: nat, encoding: Code, channel: Channel, proofState: ProofState,
                       poly: Univariate, challenge: Elem, ghost logLen: nat)
    returns (foldedCode: Code, commitment: VectorCommitment, tree: MerkleTree)
    requires IsPowerOfTwo(|encoding.encoding|) && logLen == TrailingZeros(|encoding.encoding|) && round + 1 < logLen
    requires proofState.Valid() && |proofState.randomChallenges| == round
    requires HalvingLengths(proofState.friFoldedCodes, logLen)
    modifies channel, proofState
    ensures foldedCode == FoldCode(mul, ntt, RoundCode(encoding, old(proofState.friFoldedCodes), round), challenge, round)
    ensures |foldedCode.encoding| == Pow2(logLen - round - 1)
    ensures CommittedOracle(channel.keccak, foldedCode, commitment, tree)
    ensures channel.roundIdx == old(channel.roundIdx)
    ensures channel.transcript == old(channel.transcript) + commitment.root + U64LeBytes(commitment.depth)
    ensures proofState.Valid()
    ensures && proofState.friFoldedCodes == old(proofState.friFoldedCodes) + [foldedCode]
            && proofState.friOracles == old(proofState.friOracles) + [commitment]
            && proofState.friMerkleTrees == old(proofState.friMerkleTrees) + [tree]
            && proofState.sumCheckOracles == old(proofState.sumCheckOracles) + [poly]
            && proofState.randomChallenges == old(proofState.randomChallenges) + [challenge]
  {
    var code := if round == 0 then encoding else proofState.friFoldedCodes[round - 1];
    RoundCodeFolds(mul, ntt, encoding, proofState.friFoldedCodes, round, challenge, logLen);
    foldedCode := FoldCode(mul, ntt, code, challenge, round);
    commitment, tree := CommitOracle(channel.keccak, foldedCode);
    channel.ObserveVectorCommitment(commitment);
    proofState.Update(foldedCode, commitment, tree, poly, challenge);
  }

  /**
   * What the commit phase has produced so far, as values: the channel's transcript and
   * counter, the five lists of the proof state and the eq table.
   */
  datatype Progress = Progress(transcript: seq<Byte>, roundIdx: nat, codes: seq<Code>, oracles: seq<VectorCommitment>,
                               trees: seq<MerkleTree>, polys: seq<Univariate>, challenges: seq<Elem>,
                               eqVals: seq<Elem>, eqVars: nat)

  /** The progress a channel, a proof state and an eq table hold. */
  function ProgressOf(channel: Channel, proofState: ProofState, tensoredEq: LagrangeBases): Progress
    reads channel, proofState, tensoredEq
  {
    Progress(channel.transcript, channel.roundIdx, proofState.friFoldedCodes, proofState.friOracles,
             proofState.friMerkleTrees, proofState.sumCheckOracles, proofState.randomChallenges,
             tensoredEq.vals, tensoredEq.vars)
  }

  /**
   * One `commit_phase` round took `before` to `after`: it sent the round polynomial of
   * the table and the eq table, drew the challenge `r` from the transcript with the
   * counter, folded the round's code at `r` and committed to it, sent the commitment,
   * recorded the round, and folded the table, the eq table and the claim at `r`.
   */
  ghost predicate RoundStep(mul: Mul, ntt: Ntt, keccak: Hasher, encoding: Code, logLen: nat, round: nat,
                            mleCoeffs: seq<Elem>, claim: Elem, before: Progress, after: Progress, r: Elem,
                            poly: Univariate, code: Code, oracle: VectorCommitment, tree: MerkleTree,
                            nextCoeffs: seq<Elem>, nextClaim: Elem)
  {
    && round <= |before.codes| && round + 1 < logLen && |mleCoeffs| == |before.eqVals|
    && poly == RoundPolynomial(mul, mleCoeffs, before.eqVals, claim)
    && r == DrawPoint(keccak, before.transcript + ElemsLeBytes(poly.coeffs), before.roundIdx)
    && nextClaim == Horner(mul, poly.coeffs, r)
    && code == FoldCode(mul, ntt, RoundCode(encoding, before.codes, round), r, round)
    && |code.encoding| == Pow2(logLen - round - 1)
    && CommittedOracle(keccak, code, oracle, tree)
    && after.transcript == before.transcript + ElemsLeBytes(poly.coeffs) + oracle.root + U64LeBytes(oracle.depth)
    && after.roundIdx == before.roundIdx + 1
    && after.codes == before.codes + [code] && after.oracles == before.oracles + [oracle]
    && after.trees == before.trees + [tree] && after.polys == before.polys + [poly]
    && after.challenges == before.challenges + [r]
    && nextCoeffs == FoldLoVals(mul, mleCoeffs, r)
    && after.eqVals == FoldLoVals(mul, before.eqVals, r) && after.eqVars == before.eqVars - 1
  }

  /**
   * One round of `commit_phase`: the sum-check exchange, the fold and commitment of
   * the round's code, then the fold of the polynomial and of the eq table at the
   * challenge, which is the result. It fails, changing no list, when the counter is
   * exhausted.
   */
  method CommitRound(mul: Mul, round: nat, encoding: Code, ntt: Ntt, channel: Channel, proofState: ProofState,
                     mle: PackedMLE, tensoredEq: LagrangeBases, claim: Elem, ghost logLen: nat)
    returns (r: Result<Elem>, poly: Univariate, foldedCode: Code, commitment: VectorCommitment, tree: MerkleTree,
             foldedMle: PackedMLE, foldedClaim: Elem)
    requires IsPowerOfTwo(|encoding.encoding|) && logLen == TrailingZeros(|encoding.encoding|) && round + 1 < logLen
    requires channel.Valid() && tensoredEq.Valid() && tensoredEq.vars >= 1
    requires |mle.coeffs| == |tensoredEq.vals|
    requires proofState.Valid() && |proofState.randomChallenges| == round
    requires HalvingLengths(proofState.friFoldedCodes, logLen)
    modifies channel, proofState, tensoredEq
    ensures channel.Valid() && proofState.Valid() && tensoredEq.Valid()
    ensures r.Ok? <==> old(channel.roundIdx) < USIZE_MAX
    ensures r.Err? ==> r.error == ChannelCounterOverflow
    ensures r.Ok? ==> RoundStep(mul, ntt, channel.keccak, encoding, logLen, round, mle.coeffs, claim,
                                old(ProgressOf(channel, proofState, tensoredEq)),
                                ProgressOf(channel, proofState, tensoredEq), r.value, poly, foldedCode, commitment, tree,
                                foldedMle.coeffs, foldedClaim)
    ensures r.Ok? ==> |foldedMle.coeffs| == |tensoredEq.vals|
    ensures r.Ok? && mle.WellFormed() && mle.packingFactor == 0 ==>
              foldedMle.WellFormed() && foldedMle.packingFactor == 0 && foldedMle.variables == mle.variables - 1
  {
    r, poly, foldedClaim := SumCheckExchange(mul, channel, mle, tensoredEq.vals, claim);
    foldedMle, foldedCode, commitment, tree := mle, encoding, VectorCommitment(ZeroBytes(32), 0), MerkleTree([]);
    if r.Err? {
      return;
    }
    foldedCode, commitment, tree := FoldAndCommit(mul, ntt, round, encoding, channel, proofState, poly, r.value, logLen);
    Pow2AtLeastTwo(tensoredEq.vars);
    foldedMle := mle.FoldLo(mul, r.value);
    tensoredEq.FoldLo(mul, r.value);
  }

  /** Extending the three lists by a commitment to the next code keeps them committed. */
  lemma OraclesCommittedExtend(keccak: Hasher, codes: seq<Code>, oracles: seq<VectorCommitment>,
                                trees: seq<MerkleTree>, code: Code, oracle: VectorCommitment, tree: MerkleTree)
    requires OraclesCommitted(keccak, codes, oracles, trees)
    requires CommittedOracle(keccak, code, oracle, tree)
    ensures OraclesCommitted(keccak, codes + [code], oracles + [oracle], trees + [tree])
  {
    var codes', oracles', trees' := codes + [code], oracles + [oracle], trees + [tree];
    forall k | 0 <= k < |codes'|
      ensures CommittedOracle(keccak, codes'[k], oracles'[k], trees'[k])
    {
      if k < |codes| {
        assert codes'[k] == codes[k] && oracles'[k] == oracles[k] && trees'[k] == trees[k];
        assert CommittedOracle(keccak, codes[k], oracles[k], trees[k]);
      }
    }
  }
  /** A `commit_phase` round extends the sum-check run by one step and one round polynomial. */
  lemma CommitPhaseRunExtend(mul: Mul, round: nat, states: seq<SumCheckState>, polys: seq<Univariate>,
                             challenges: seq<Elem>, mleCoeffs: seq<Elem>, eqVals: seq<Elem>, claim: Elem, r: Elem,
                             poly: Univariate, next: SumCheckState)
    requires round == |challenges| && round == |polys|
    requires IsRun(mul, states, challenges) && PolysOfRun(mul, states, polys)
    requires states[round] == SumCheckState(mleCoeffs, eqVals, claim)
    requires poly == RoundPolynomial(mul, mleCoeffs, eqVals, claim)
    requires && next.mle == FoldLoVals(mul, mleCoeffs, r)
             && next.eqVals == FoldLoVals(mul, eqVals, r)
             && next.claim == Horner(mul, poly.coeffs, r)
    ensures IsRun(mul, states + [next], challenges + [r])
    ensures PolysOfRun(mul, states + [next], polys + [poly])
  {
    var state := states[round];
    assert poly == RoundPoly(mul, state);
    assert next == SumCheckStep(mul, state, r);
    IsRunExtend(mul, states, challenges, r);
    PolysOfRunExtend(mul, states, polys, next);
  }

  /**
   * The sum-check side of `round` finished rounds: the states form a run over the
   * challenges, from the committed table, eq table and claim to the current ones, and
   * polynomial k is the round polynomial of state k.
   */
  ghost predicate RunDone(mul: Mul, mle: PackedMLE, claim: Elem, eq0: seq<Elem>, round: nat,
                          states: seq<SumCheckState>, p: Progress, foldedMle: PackedMLE, foldedClaim: Elem)
  {
    && |p.challenges| == round
    && IsRun(mul, states, p.challenges)
    && states[0] == SumCheckState(mle.coeffs, eq0, claim)
    && states[round] == SumCheckState(foldedMle.coeffs, p.eqVals, foldedClaim)
    && PolysOfRun(mul, states, p.polys)
    && (mle.WellFormed() && mle.packingFactor == 0 ==>
          foldedMle.WellFormed() && foldedMle.packingFactor == 0 && foldedMle.variables == mle.variables - round)
  }

  /** The FRI side: the codes fold one another with halving lengths and are committed by the oracles. */
  ghost predicate FriDone(mul: Mul, ntt: Ntt, keccak: Hasher, encoding: Code, logLen: nat, p: Progress)
  {
    && FoldChain(mul, ntt, encoding, p.codes, p.challenges)
    && HalvingLengths(p.codes, logLen)
    && OraclesCommitted(keccak, p.codes, p.oracles, p.trees)
  }

  /** The channel side: the challenges are drawn from, and the transcript holds, what the rounds sent. */
  ghost predicate TranscriptDone(keccak: Hasher, transcript0: seq<Byte>, roundIdx0: nat, round: nat, p: Progress)
  {
    && ChallengesDrawn(keccak, transcript0, roundIdx0, p.polys, p.oracles, p.challenges)
    && round == |p.challenges|
    && p.transcript == CommitTranscript(transcript0, p.polys, p.oracles, round)
  }

  /**
   * What holds after `round` rounds of `commit_phase`: the counter and the eq table
   * moved by one per round, and the sum-check, FRI and channel sides agree with the
   * rounds.
   */
  ghost predicate RoundsDone(mul: Mul, ntt: Ntt, keccak: Hasher, encoding: Code, mle: PackedMLE, claim: Elem,
                             transcript0: seq<Byte>, roundIdx0: nat, vars0: nat, eq0: seq<Elem>, logLen: nat,
                             round: nat, states: seq<SumCheckState>, p: Progress, foldedMle: PackedMLE,
                             foldedClaim: Elem)
  {
    && |p.challenges| == round && p.roundIdx == roundIdx0 + round
    && p.eqVars == vars0 - round && round <= vars0
    && RunDone(mul, mle, claim, eq0, round, states, p, foldedMle, foldedClaim)
    && FriDone(mul, ntt, keccak, encoding, logLen, p)
    && TranscriptDone(keccak, transcript0, roundIdx0, round, p)
  }

  /** A round extends the sum-check run by the step at its challenge. */
  lemma RunDoneStep(mul: Mul, ntt: Ntt, keccak: Hasher, encoding: Code, mle: PackedMLE, claim: Elem, eq0: seq<Elem>,
                    logLen: nat, round: nat, states: seq<SumCheckState>, before: Progress, after: Progress,
                    foldedMle: PackedMLE, foldedClaim: Elem, r: Elem, poly: Univariate, code: Code,
                    oracle: VectorCommitment, tree: MerkleTree, nextMle: PackedMLE, nextClaim: Elem)
    requires RunDone(mul, mle, claim, eq0, round, states, before, foldedMle, foldedClaim) && |before.polys| == round
    requires RoundStep(mul, ntt, keccak, encoding, logLen, round, foldedMle.coeffs, foldedClaim, before, after, r,
                       poly, code, oracle, tree, nextMle.coeffs, nextClaim)
    requires foldedMle.WellFormed() && foldedMle.packingFactor == 0 ==>
               nextMle.WellFormed() && nextMle.packingFactor == 0 && nextMle.variables == foldedMle.variables - 1
    ensures RunDone(mul, mle, claim, eq0, round + 1, states + [SumCheckState(nextMle.coeffs, after.eqVals, nextClaim)],
                    after, nextMle, nextClaim)
  {
    var next := SumCheckState(nextMle.coeffs, after.eqVals, nextClaim);
    CommitPhaseRunExtend(mul, round, states, before.polys, before.challenges, foldedMle.coeffs, before.eqVals,
                         foldedClaim, r, poly, next);
  }

  /** A round appends the fold of the round's code and its commitment. */
  lemma FriDoneStep(mul: Mul, ntt: Ntt, keccak: Hasher, encoding: Code, logLen: nat, round: nat, claim: Elem,
                    mleCoeffs: seq<Elem>, before: Progress, after: Progress, r: Elem, poly: Univariate, code: Code,
                    oracle: VectorCommitment, tree: MerkleTree, nextCoeffs: seq<Elem>, nextClaim: Elem)
    requires FriDone(mul, ntt, keccak, encoding, logLen, before) && round == |before.codes|
    requires RoundStep(mul, ntt, keccak, encoding, logLen, round, mleCoeffs, claim, before, after, r,
                       poly, code, oracle, tree, nextCoeffs, nextClaim)
    ensures FriDone(mul, ntt, keccak, encoding, logLen, after)
  {
    FoldChainExtend(mul, ntt, encoding, before.codes, before.challenges, round, r, code);
    HalvingLengthsExtend(before.codes, logLen, round, code);
    OraclesCommittedExtend(keccak, before.codes, before.oracles, before.trees, code, oracle, tree);
  }

  /** A round appends its polynomial and commitment to the transcript and draws its challenge after the polynomial. */
  lemma TranscriptDoneStep(mul: Mul, ntt: Ntt, keccak: Hasher, encoding: Code, logLen: nat, transcript0: seq<Byte>,
                           roundIdx0: nat, round: nat, claim: Elem, mleCoeffs: seq<Elem>, before: Progress,
                           after: Progress, r: Elem, poly: Univariate, code: Code, oracle: VectorCommitment,
                           tree: MerkleTree, nextCoeffs: seq<Elem>, nextClaim: Elem)
    requires TranscriptDone(keccak, transcript0, roundIdx0, round, before) && before.roundIdx == roundIdx0 + round
    requires RoundStep(mul, ntt, keccak, encoding, logLen, round, mleCoeffs, claim, before, after, r,
                       poly, code, oracle, tree, nextCoeffs, nextClaim)
    ensures TranscriptDone(keccak, transcript0, roundIdx0, round + 1, after)
  {
    ChallengesDrawnExtend(keccak, transcript0, roundIdx0, before.polys, before.oracles, before.challenges, poly, oracle,
                          r, before.transcript + ElemsLeBytes(poly.coeffs), before.roundIdx);
    CommitTranscriptAppend(transcript0, before.polys, before.oracles, poly, oracle);
  }

  /** A round of `commit_phase` after `round` finished rounds leaves `round + 1` finished rounds. */
  lemma RoundsDoneStep(mul: Mul, ntt: Ntt, keccak: Hasher, encoding: Code, mle: PackedMLE, claim: Elem,
                       transcript0: seq<Byte>, roundIdx0: nat, vars0: nat, eq0: seq<Elem>, logLen: nat,
                       round: nat, states: seq<SumCheckState>, before: Progress, after: Progress,
                       foldedMle: PackedMLE, foldedClaim: Elem, r: Elem, poly: Univariate, code: Code,
                       oracle: VectorCommitment, tree: MerkleTree, nextMle: PackedMLE, nextClaim: Elem)
    requires round < vars0
    requires RoundsDone(mul, ntt, keccak, encoding, mle, claim, transcript0, roundIdx0, vars0, eq0, logLen, round,
                        states, before, foldedMle, foldedClaim)
    requires RoundStep(mul, ntt, keccak, encoding, logLen, round, foldedMle.coeffs, foldedClaim, before, after, r,
                       poly, code, oracle, tree, nextMle.coeffs, nextClaim)
    requires foldedMle.WellFormed() && foldedMle.packingFactor == 0 ==>
               nextMle.WellFormed() && nextMle.packingFactor == 0 && nextMle.variables == foldedMle.variables - 1
    ensures RoundsDone(mul, ntt, keccak, encoding, mle, claim, transcript0, roundIdx0, vars0, eq0, logLen, round + 1,
                       states + [SumCheckState(nextMle.coeffs, after.eqVals, nextClaim)], after, nextMle, nextClaim)
  {
    RunDoneStep(mul, ntt, keccak, encoding, mle, claim, eq0, logLen, round, states, before, after, foldedMle,
                foldedClaim, r, poly, code, oracle, tree, nextMle, nextClaim);
    FriDoneStep(mul, ntt, keccak, encoding, logLen, round, foldedClaim, foldedMle.coeffs, before, after, r, poly, code,
                oracle, tree, nextMle.coeffs, nextClaim);
    TranscriptDoneStep(mul, ntt, keccak, encoding, logLen, transcript0, roundIdx0, round, foldedClaim, foldedMle.coeffs,
                       before, after, r, poly, code, oracle, tree, nextMle.coeffs, nextClaim);
  }

  /** The body of the `commit_phase` loop: a round, and the run and lists it extends. */
  method CommitPhaseRound(mul: Mul, round: nat, encoding: Code, ntt: Ntt, channel: Channel, proofState: ProofState,
                          mle: PackedMLE, tensoredEq: LagrangeBases, claim: Elem, foldedMle: PackedMLE,
                          foldedClaim: Elem, ghost transcript0: seq<Byte>, ghost roundIdx0: nat, ghost vars0: nat,
                          ghost eq0: seq<Elem>, ghost states: seq<SumCheckState>)
    returns (point: Result<Elem>, nextMle: PackedMLE, nextClaim: Elem, ghost nextStates: seq<SumCheckState>)
    requires IsPowerOfTwo(|encoding.encoding|) && round + 1 < TrailingZeros(|encoding.encoding|) && round < vars0
    requires channel.Valid() && proofState.Valid() && tensoredEq.Valid()
    requires |foldedMle.coeffs| == |tensoredEq.vals|
    requires RoundsDone(mul, ntt, channel.keccak, encoding, mle, claim, transcript0, roundIdx0, vars0, eq0,
                        TrailingZeros(|encoding.encoding|), round, states, ProgressOf(channel, proofState, tensoredEq),
                        foldedMle, foldedClaim)
    modifies channel, proofState, tensoredEq
    ensures channel.Valid() && proofState.Valid() && tensoredEq.Valid()
    ensures point.Err? ==> point.error == ChannelCounterOverflow && roundIdx0 + round == USIZE_MAX
    ensures point.Ok? ==> && |nextMle.coeffs| == |tensoredEq.vals|
                          && RoundsDone(mul, ntt, channel.keccak, encoding, mle, claim, transcript0, roundIdx0, vars0,
                                        eq0, TrailingZeros(|encoding.encoding|), round + 1, nextStates,
                                        ProgressOf(channel, proofState, tensoredEq), nextMle, nextClaim)
  {
    ghost var logLen := TrailingZeros(|encoding.encoding|);
    ghost var before := ProgressOf(channel, proofState, tensoredEq);
    var poly, code, oracle, tree;
    point, poly, code, oracle, tree, nextMle, nextClaim :=
      CommitRound(mul, round, encoding, ntt, channel, proofState, foldedMle, tensoredEq, foldedClaim, logLen);
    nextStates := states;
    if point.Err? {
      return;
    }
    RoundsDoneStep(mul, ntt, channel.keccak, encoding, mle, claim, transcript0, roundIdx0, vars0, eq0, logLen, round,
                   states, before, ProgressOf(channel, proofState, tensoredEq), foldedMle, foldedClaim, point.value,
                   poly, code, oracle, tree, nextMle, nextClaim);
    nextStates := states + [SumCheckState(nextMle.coeffs, tensoredEq.vals, nextClaim)];
  }

  /**
   * `commit_phase`: one round per variable to bind (see `CommitRound`). The result is
   * symbol 0 of the last folded code. `states` is the run of the sum-check the rounds
   * went through: polynomial k is the round polynomial of state k, challenge k moves
   * state k to state k + 1, and the last state holds the folded table, the folded eq
   * table and the final claim.
   */
  method CommitPhase(mul: Mul, rounds: nat, encoding: Code, ntt: Ntt, channel: Channel, proofState: ProofState,
                     mle: PackedMLE, tensoredEq: LagrangeBases, claim: Elem)
    returns (r: Result<Elem>, foldedMle: PackedMLE, foldedClaim: Elem, ghost states: seq<SumCheckState>)
    requires rounds >= 1
    requires IsPowerOfTwo(|encoding.encoding|) && rounds < TrailingZeros(|encoding.encoding|)
    requires channel.Valid() && tensoredEq.Valid() && rounds <= tensoredEq.vars
    requires |mle.coeffs| == |tensoredEq.vals|
    requires proofState.Valid() && proofState.randomChallenges == []
    modifies channel, proofState, tensoredEq
    ensures channel.Valid() && proofState.Valid() && tensoredEq.Valid()
    ensures r.Ok? <==> old(channel.roundIdx) + rounds <= USIZE_MAX
    ensures r.Err? ==> r.error == ChannelCounterOverflow
    ensures r.Ok? ==> |proofState.randomChallenges| == rounds && channel.roundIdx == old(channel.roundIdx) + rounds
    ensures r.Ok? ==> FoldChain(mul, ntt, encoding, proofState.friFoldedCodes, proofState.randomChallenges)
    ensures r.Ok? ==> HalvingLengths(proofState.friFoldedCodes, TrailingZeros(|encoding.encoding|))
    ensures r.Ok? ==> OraclesCommitted(channel.keccak, proofState.friFoldedCodes, proofState.friOracles,
                                       proofState.friMerkleTrees)
    ensures r.Ok? ==> r.value == proofState.friFoldedCodes[rounds - 1].encoding[0]
    ensures r.Ok? ==> && IsRun(mul, states, proofState.randomChallenges)
                      && states[0] == SumCheckState(mle.coeffs, old(tensoredEq.vals), claim)
                      && states[rounds] == SumCheckState(foldedMle.coeffs, tensoredEq.vals, foldedClaim)
                      && PolysOfRun(mul, states, proofState.sumCheckOracles)
    ensures r.Ok? ==> tensoredEq.vars == old(tensoredEq.vars) - rounds
    ensures r.Ok? && mle.WellFormed() && mle.packingFactor == 0 ==>
              foldedMle.WellFormed() && foldedMle.variables == mle.variables - rounds
    ensures r.Ok? && IsRing(mul) && claim == DotProduct(mul, mle.coeffs, old(tensoredEq.vals)) ==>
              foldedClaim == DotProduct(mul, foldedMle.coeffs, tensoredEq.vals)
    ensures r.Ok? ==>
              channel.transcript
              == CommitTranscript(old(channel.transcript), proofState.sumCheckOracles, proofState.friOracles, rounds)
    ensures r.Ok? ==> ChallengesDrawn(channel.keccak, old(channel.transcript), old(channel.roundIdx),
                                      proofState.sumCheckOracles, proofState.friOracles, proofState.randomChallenges)
  {
    ghost var transcript0, roundIdx0 := channel.transcript, channel.roundIdx;
    ghost var vars0, eq0 := tensoredEq.vars, tensoredEq.vals;
    ghost var logLen := TrailingZeros(|encoding.encoding|);
    foldedMle, foldedClaim := mle, claim;
    states := [SumCheckState(mle.coeffs, tensoredEq.vals, claim)];
    for round := 0 to rounds
      invariant channel.Valid() && proofState.Valid() && tensoredEq.Valid()
      invariant |foldedMle.coeffs| == |tensoredEq.vals|
      invariant RoundsDone(mul, ntt, channel.keccak, encoding, mle, claim, transcript0, roundIdx0, vars0, eq0, logLen,
                           round, states, ProgressOf(channel, proofState, tensoredEq), foldedMle, foldedClaim)
    {
      var point;
      point, foldedMle, foldedClaim, states :=
        CommitPhaseRound(mul, round, encoding, ntt, channel, proofState, mle, tensoredEq, claim, foldedMle,
                         foldedClaim, transcript0, roundIdx0, vars0, eq0, states);
      if point.Err? {
        r := Err(point.error);
        return;
      }
    }
    r := Ok(proofState.friFoldedCodes[rounds - 1].encoding[0]);
    RunSound(mul, states, proofState.randomChallenges, vars0, rounds);
  }

  // ---------------------------------------------------------------------------
  // The query phase
  // ---------------------------------------------------------------------------

  /** Every query names a leaf of the tree and a symbol pair of the code. */
  ghost predicate Gatherable(tree: MerkleTree, code: Code, queries: seq<nat>)
  {
    && Shaped(tree.data)
    && forall j :: 0 <= j < |queries| ==>
         queries[j] < |tree.data[|tree.data| - 1]| && 2 * queries[j] + 1 < |code.encoding|
  }

  /** The openings of one round: a Merkle path and a symbol pair per query. */
  datatype RoundOpening = RoundOpening(paths: seq<seq<Digest>>, symbols: seq<(Elem, Elem)>)

  /**
   * `gather_round_queries`: for each query i, the authentication path of leaf i and
   * the symbol pair (code[2i], code[2i + 1]) that the leaf hashes.
   */
  function GatherRoundQueries(tree: MerkleTree, code: Code, queries: seq<nat>): (opening: RoundOpening)
    requires Gatherable(tree, code, queries)
    ensures |opening.paths| == |queries| && |opening.symbols| == |queries|
  {
    RoundOpening(seq(|queries|, j requires 0 <= j < |queries| => MerklePath(tree.data, queries[j])),
     seq(|queries|, j requires 0 <= j < |queries| => (code.encoding[2 * queries[j]], code.encoding[2 * queries[j] + 1])))
  }

  /** Each opened pair, hashed as a leaf, verifies with its path against the commitment to the code. */
  lemma GatheredOpeningVerifies(keccak: Hasher, tree: MerkleTree, code: Code, oracle: VectorCommitment,
                                queries: seq<nat>, j: nat)
    requires CommittedOracle(keccak, code, oracle, tree)
    requires forall i :: 0 <= i < |queries| ==> 2 * queries[i] + 1 < |code.encoding|
    requires j < |queries|
    ensures Gatherable(tree, code, queries)
    ensures var opening := GatherRoundQueries(tree, code, queries);
            PathCheck(keccak, oracle, HashTuple(keccak, opening.symbols[j]), queries[j], opening.paths[j]) == Ok(())
  {
    var leaves := ComputeLeafHashes(keccak, code.encoding);
    MerklePathRoundTrip(keccak, tree, leaves, queries[j]);
  }

  /** Every index shifted right by one (`i >> 1`). */
  function Halved(queries: seq<nat>): (halved: seq<nat>)
    ensures |halved| == |queries|
  {
    seq(|queries|, j requires 0 <= j < |queries| => queries[j] / 2)
  }

  /**
   * Folding the code at r sends pair i to symbol i, which the next round opens in its
   * pair i >> 1, as its first component when i is even and its second when i is odd.
   */
  lemma GatheredPairFolds(mul: Mul, ntt: Ntt, tree: MerkleTree, code: Code, r: Elem, round: nat,
                          nextTree: MerkleTree, queries: seq<nat>, j: nat)
    requires Gatherable(tree, code, queries)
    requires Gatherable(nextTree, FoldCode(mul, ntt, code, r, round), Halved(queries))
    requires j < |queries|
    ensures var pair := GatherRoundQueries(tree, code, queries).symbols[j];
            var nextPair := GatherRoundQueries(nextTree, FoldCode(mul, ntt, code, r, round), Halved(queries)).symbols[j];
            (if queries[j] % 2 == 0 then nextPair.0 else nextPair.1)
            == Fold(mul, ntt, r, round, queries[j], pair.0, pair.1)
  {
    var q := queries[j];
    var folded := FoldCode(mul, ntt, code, r, round);
    assert Halved(queries)[j] == q / 2;
    assert q == 2 * (q / 2) + q % 2;
    assert folded.encoding[q] == Fold(mul, ntt, r, round, q, code.encoding[2 * q], code.encoding[2 * q + 1]);
  }

  /** The pair indices round k opens: each drawn query shifted right by k + 1. */
  function RoundQueries(queries: seq<nat>, k: nat): (indices: seq<nat>)
    ensures |indices| == |queries|
  {
    seq(|queries|, j requires 0 <= j < |queries| => Shr(queries[j], k + 1))
  }

  /** The next round's indices are this round's, halved. */
  lemma RoundQueriesHalve(queries: seq<nat>, k: nat)
    ensures RoundQueries(queries, k + 1) == Halved(RoundQueries(queries, k))
  {
    forall j | 0 <= j < |queries|
      ensures RoundQueries(queries, k + 1)[j] == Halved(RoundQueries(queries, k))[j]
    {
      ShiftRightStep(queries[j], k + 1);
    }
  }

  /** The commitment round k opens against: the committed encoding's in round 0, the previous round's after that. */
  function RoundOracle(oracle: VectorCommitment, oracles: seq<VectorCommitment>, k: nat): VectorCommitment
    requires k <= |oracles|
  {
    if k == 0 then oracle else oracles[k - 1]
  }

  /**
   * The trees and codes of the first `rounds` rounds hold every index of a domain of
   * 2^(rounds + LOG_RATE) queries: round k has at least 2^(rounds + 1 - k) leaves and
   * 2^(rounds + 2 - k) symbols.
   */
  ghost predicate QueryableRounds(rounds: nat, encoding: Code, tree: MerkleTree, codes: seq<Code>,
                                  trees: seq<MerkleTree>)
  {
    && rounds <= |codes| + 1 && |trees| == |codes|
    && forall k {:trigger RoundCode(encoding, codes, k)} :: 0 <= k < rounds ==>
         && Shaped(RoundTree(tree, trees, k).data)
         && Pow2(rounds + 1 - k) <= |RoundTree(tree, trees, k).data[|RoundTree(tree, trees, k).data| - 1]|
         && Pow2(rounds + 2 - k) <= |RoundCode(encoding, codes, k).encoding|
  }

  /** Round k can open its indices. */
  lemma RoundGatherable(rounds: nat, encoding: Code, tree: MerkleTree, codes: seq<Code>, trees: seq<MerkleTree>,
                        queries: seq<nat>, k: nat)
    requires QueryableRounds(rounds, encoding, tree, codes, trees) && k < rounds
    requires forall j :: 0 <= j < |queries| ==> queries[j] < Pow2(rounds + LOG_RATE)
    ensures Gatherable(RoundTree(tree, trees, k), RoundCode(encoding, codes, k), RoundQueries(queries, k))
  {
    var indices := RoundQueries(queries, k);
    assert Pow2(rounds + 2 - k) == 2 * Pow2(rounds + 1 - k);
    forall j | 0 <= j < |queries|
      ensures indices[j] < Pow2(rounds + 1 - k)
    {
      ShrBound(queries[j], k + 1, rounds + LOG_RATE);
    }
  }

  /** What `query_phase` opens for the drawn queries: round k gathers round k's indices from its tree and code. */
  function OpenedRounds(rounds: nat, encoding: Code, tree: MerkleTree, codes: seq<Code>, trees: seq<MerkleTree>,
                        queries: seq<nat>): (openings: seq<RoundOpening>)
    requires QueryableRounds(rounds, encoding, tree, codes, trees)
    requires forall j :: 0 <= j < |queries| ==> queries[j] < Pow2(rounds + LOG_RATE)
    ensures |openings| == rounds
  {
    seq(rounds, k requires 0 <= k < rounds =>
      RoundGatherable(rounds, encoding, tree, codes, trees, queries, k);
      GatherRoundQueries(RoundTree(tree, trees, k), RoundCode(encoding, codes, k), RoundQueries(queries, k)))
  }

  /** Round k of the openings gathers round k's indices from round k's tree and code. */
  lemma OpenedRoundAt(rounds: nat, encoding: Code, tree: MerkleTree, codes: seq<Code>, trees: seq<MerkleTree>,
                      queries: seq<nat>, k: nat)
    requires QueryableRounds(rounds, encoding, tree, codes, trees)
    requires forall i :: 0 <= i < |queries| ==> queries[i] < Pow2(rounds + LOG_RATE)
    requires k < rounds
    ensures Gatherable(RoundTree(tree, trees, k), RoundCode(encoding, codes, k), RoundQueries(queries, k))
    ensures OpenedRounds(rounds, encoding, tree, codes, trees, queries)[k]
            == GatherRoundQueries(RoundTree(tree, trees, k), RoundCode(encoding, codes, k), RoundQueries(queries, k))
  {
    RoundGatherable(rounds, encoding, tree, codes, trees, queries, k);
  }

  /**
   * Every pair `query_phase` opens in round k, hashed as a leaf, verifies with its path
   * against round k's commitment.
   */
  lemma OpenedRoundsVerify(keccak: Hasher, rounds: nat, encoding: Code, tree: MerkleTree, oracle: VectorCommitment,
                           codes: seq<Code>, trees: seq<MerkleTree>, oracles: seq<VectorCommitment>,
                           queries: seq<nat>, k: nat, j: nat)
    requires CommittedOracle(keccak, encoding, oracle, tree) && OraclesCommitted(keccak, codes, oracles, trees)
    requires QueryableRounds(rounds, encoding, tree, codes, trees)
    requires forall i :: 0 <= i < |queries| ==> queries[i] < Pow2(rounds + LOG_RATE)
    requires k < rounds && j < |queries|
    ensures var opening := OpenedRounds(rounds, encoding, tree, codes, trees, queries)[k];
            PathCheck(keccak, RoundOracle(oracle, oracles, k), HashTuple(keccak, opening.symbols[j]),
                      RoundQueries(queries, k)[j], opening.paths[j]) == Ok(())
  {
    RoundGatherable(rounds, encoding, tree, codes, trees, queries, k);
    if k > 0 {
      assert CommittedOracle(keccak, codes[k - 1], oracles[k - 1], trees[k - 1]);
    }
    GatheredOpeningVerifies(keccak, RoundTree(tree, trees, k), RoundCode(encoding, codes, k),
                            RoundOracle(oracle, oracles, k), RoundQueries(queries, k), j);
  }

  /**
   * Consecutive rounds of `query_phase` agree with the fold: pair j of round k, folded
   * at challenge k, is the component of pair j of round k + 1 that the round-k index
   * selects (the first when it is even, the second when it is odd).
   */
  lemma OpenedRoundsFold(mul: Mul, ntt: Ntt, rounds: nat, encoding: Code, tree: MerkleTree, codes: seq<Code>,
                         trees: seq<MerkleTree>, challenges: seq<Elem>, queries: seq<nat>, k: nat, j: nat)
    requires FoldChain(mul, ntt, encoding, codes, challenges)
    requires QueryableRounds(rounds, encoding, tree, codes, trees)
    requires forall i :: 0 <= i < |queries| ==> queries[i] < Pow2(rounds + LOG_RATE)
    requires k + 1 < rounds && j < |queries|
    ensures var openings := OpenedRounds(rounds, encoding, tree, codes, trees, queries);
            var pair := openings[k].symbols[j];
            var next := openings[k + 1].symbols[j];
            var q := RoundQueries(queries, k)[j];
            (if q % 2 == 0 then next.0 else next.1) == Fold(mul, ntt, challenges[k], k, q, pair.0, pair.1)
  {
    var code := RoundCode(encoding, codes, k);
    var indices := RoundQueries(queries, k);
    OpenedRoundAt(rounds, encoding, tree, codes, trees, queries, k);
    OpenedRoundNext(mul, ntt, rounds, encoding, tree, codes, trees, challenges, queries, k);
    GatheredPairFolds(mul, ntt, RoundTree(tree, trees, k), code, challenges[k], k, trees[k], indices, j);
  }

  /** Round k + 1 opens the halved indices in the fold of round k's code. */
  lemma OpenedRoundNext(mul: Mul, ntt: Ntt, rounds: nat, encoding: Code, tree: MerkleTree, codes: seq<Code>,
                        trees: seq<MerkleTree>, challenges: seq<Elem>, queries: seq<nat>, k: nat)
    requires FoldChain(mul, ntt, encoding, codes, challenges)
    requires QueryableRounds(rounds, encoding, tree, codes, trees)
    requires forall i :: 0 <= i < |queries| ==> queries[i] < Pow2(rounds + LOG_RATE)
    requires k + 1 < rounds
    ensures var folded := FoldCode(mul, ntt, RoundCode(encoding, codes, k), challenges[k], k);
            && Gatherable(trees[k], folded, Halved(RoundQueries(queries, k)))
            && OpenedRounds(rounds, encoding, tree, codes, trees, queries)[k + 1]
               == GatherRoundQueries(trees[k], folded, Halved(RoundQueries(queries, k)))
  {
    OpenedRoundAt(rounds, encoding, tree, codes, trees, queries, k + 1);
    RoundQueriesHalve(queries, k);
    assert RoundCode(encoding, codes, k + 1) == codes[k] && RoundTree(tree, trees, k + 1) == trees[k];
    assert codes[k] == FoldCode(mul, ntt, RoundCode(encoding, codes, k), challenges[k], k);
  }

  /** The symbol pairs of each round, in round order. */
  function RoundSymbols(openings: seq<RoundOpening>): (symbols: seq<seq<(Elem, Elem)>>)
    ensures |symbols| == |openings|
  {
    seq(|openings|, k requires 0 <= k < |openings| => openings[k].symbols)
  }

  /** The Merkle paths of each round, in round order. */
  function RoundPaths(openings: seq<RoundOpening>): (paths: seq<seq<seq<Digest>>>)
    ensures |paths| == |openings|
  {
    seq(|openings|, k requires 0 <= k < |openings| => openings[k].paths)
  }

  /** Recording one more round appends its pairs and its paths. */
  lemma RoundOpeningsAppend(openings: seq<RoundOpening>, opening: RoundOpening)
    ensures RoundSymbols(openings + [opening]) == RoundSymbols(openings) + [opening.symbols]
    ensures RoundPaths(openings + [opening]) == RoundPaths(openings) + [opening.paths]
  {
    assert forall k :: 0 <= k < |openings| ==> (openings + [opening])[k] == openings[k];
  }

  /** A prefix followed by the next entry is the next prefix. */
  lemma PrefixExtend<T>(xs: seq<T>, ys: seq<T>, x: T)
    requires |xs| < |ys| && xs == ys[..|xs|] && x == ys[|xs|]
    ensures xs + [x] == ys[..|xs| + 1]
  {
  }

  /** `iter_mut().for_each(|i| *i >>= 1)`: shifts every index right by one, in place. */
  method HalveQueries(queries: array<nat>)
    modifies queries
    ensures queries[..] == Halved(old(queries[..]))
  {
    for j := 0 to queries.Length
      invariant forall i :: 0 <= i < j ==> queries[i] == old(queries[i]) / 2
      invariant forall i :: j <= i < queries.Length ==> queries[i] == old(queries[i])
    {
      queries[j] := queries[j] / 2;
    }
  }

  /**
   * One round of `query_phase`'s loop: gathers the openings of the current indices from
   * round `round`'s tree and code, then halves the indices in place.
   */
  method QueryRound(rounds: nat, encoding: Code, merkleTree: MerkleTree, codes: seq<Code>, trees: seq<MerkleTree>,
                    queries: seq<nat>, round: nat, currentQueries: array<nat>)
    returns (gathered: RoundOpening)
    requires QueryableRounds(rounds, encoding, merkleTree, codes, trees) && round < rounds
    requires forall j :: 0 <= j < |queries| ==> queries[j] < Pow2(rounds + LOG_RATE)
    requires currentQueries[..] == RoundQueries(queries, round)
    modifies currentQueries
    ensures gathered == OpenedRounds(rounds, encoding, merkleTree, codes, trees, queries)[round]
    ensures currentQueries[..] == RoundQueries(queries, round + 1)
  {
    var tree, code := merkleTree, encoding;
    if round > 0 {
      tree, code := trees[round - 1], codes[round - 1];
    }
    RoundGatherable(rounds, encoding, merkleTree, codes, trees, queries, round);
    gathered := GatherRoundQueries(tree, code, currentQueries[..]);
    HalveQueries(currentQueries);
    RoundQueriesHalve(queries, round);
  }

  /**
   * The loop of `query_phase`: round by round, gathers the openings of the current
   * indices and halves them; the result is every round's pairs and paths.
   */
  method GatherRounds(rounds: nat, encoding: Code, merkleTree: MerkleTree, codes: seq<Code>, trees: seq<MerkleTree>,
                      queries: seq<nat>, currentQueries: array<nat>)
    returns (roundQueriedSymbols: seq<seq<(Elem, Elem)>>, roundMerklePaths: seq<seq<seq<Digest>>>)
    requires QueryableRounds(rounds, encoding, merkleTree, codes, trees)
    requires forall j :: 0 <= j < |queries| ==> queries[j] < Pow2(rounds + LOG_RATE)
    requires currentQueries[..] == RoundQueries(queries, 0)
    modifies currentQueries
    ensures var openings := OpenedRounds(rounds, encoding, merkleTree, codes, trees, queries);
            roundQueriedSymbols == RoundSymbols(openings) && roundMerklePaths == RoundPaths(openings)
  {
    ghost var openings := OpenedRounds(rounds, encoding, merkleTree, codes, trees, queries);
    roundQueriedSymbols, roundMerklePaths := [], [];
    ghost var gatheredRounds: seq<RoundOpening> := [];
    for round := 0 to rounds
      invariant currentQueries[..] == RoundQueries(queries, round)
      invariant gatheredRounds == openings[..round]
      invariant roundQueriedSymbols == RoundSymbols(gatheredRounds) && roundMerklePaths == RoundPaths(gatheredRounds)
    {
      var gathered := QueryRound(rounds, encoding, merkleTree, codes, trees, queries, round, currentQueries);
      roundMerklePaths := roundMerklePaths + [gathered.paths];
      roundQueriedSymbols := roundQueriedSymbols + [gathered.symbols];
      RoundOpeningsAppend(gatheredRounds, gathered);
      PrefixExtend(gatheredRounds, openings, gathered);
      gatheredRounds := gatheredRounds + [gathered];
    }
    assert openings[..rounds] == openings;
  }

  /**
   * `query_phase`: draws the queries over a domain of 2^(rounds + LOG_RATE) points,
   * turns each into its pair index (`i >> 1`), and in every round gathers the
   * openings of those indices from the round's tree and code, then halves them.
   * It fails exactly when drawing the queries fails.
   */
  method QueryPhase(rounds: nat, encoding: Code, merkleTree: MerkleTree, channel: Channel, proofState: ProofState)
    returns (r: Result<(seq<seq<(Elem, Elem)>>, seq<seq<seq<Digest>>>)>)
    requires channel.Valid() && proofState.Valid()
    requires QueryableRounds(rounds, encoding, merkleTree, proofState.friFoldedCodes, proofState.friMerkleTrees)
    modifies channel
    ensures channel.Valid() && channel.transcript == old(channel.transcript)
    ensures var drawn := Queries(channel.keccak, old(channel.transcript), old(channel.roundIdx), rounds + LOG_RATE);
            && (r.Err? <==> drawn.Err?)
            && (r.Err? ==> r.error == drawn.error)
            && (r.Ok? ==>
                  var openings := OpenedRounds(rounds, encoding, merkleTree, proofState.friFoldedCodes,
                                             proofState.friMerkleTrees, drawn.value);
                  r.value == (RoundSymbols(openings), RoundPaths(openings)))
    ensures var drawn := Queries(channel.keccak, old(channel.transcript), old(channel.roundIdx), rounds + LOG_RATE);
            channel.roundIdx == if drawn.Ok? && DomainSize(rounds + LOG_RATE) >= QUERY_COUNT then old(channel.roundIdx) + QUERY_COUNT
                                else if drawn.Err? && drawn.error == ChannelCounterOverflow then USIZE_MAX
                                else old(channel.roundIdx)
  {
    var drawn := channel.GenQueries(rounds + LOG_RATE);
    if drawn.Err? {
      return Err(drawn.error);
    }
    var queries := drawn.value;
    var currentQueries := new nat[|queries|](j requires 0 <= j < |queries| => queries[j] / 2);
    forall j | 0 <= j < |queries|
      ensures currentQueries[j] == RoundQueries(queries, 0)[j]
    {
      assert Shr(queries[j], 1) == Shr(queries[j] / 2, 0);
    }
    assert currentQueries[..] == RoundQueries(queries, 0);
    var roundQueriedSymbols, roundMerklePaths := GatherRounds(rounds, encoding, merkleTree, proofState.friFoldedCodes,
                                                              proofState.friMerkleTrees, queries, currentQueries);
    r := Ok((roundQueriedSymbols, roundMerklePaths));
  }
}
