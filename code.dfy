/**
 * The rate-1/4 Reed-Solomon code and its FRI fold (src/utils/code.rs).
 *
 * The additive NTT is an external library and is not modelled: `Ntt` carries its
 * forward transform on a coset and its subspace evaluations (the fold twiddles) as
 * functions, and `LengthPreserving` is the one fact about it the model relies on.
 */
module ReedSolomon {
  import opened Field

  const RATE: nat := 4
  const LOG_RATE: nat := 2

  /** The rate is 2^LOG_RATE. */
  lemma RateIsPowerOfLogRate()
    ensures RATE == Pow2(LOG_RATE)
  {
    assert Pow2(2) == 2 * Pow2(1);
  }

  /** A codeword over BinaryField128b. */
  datatype Code = Code(encoding: seq<Elem>)

  /**
   * The additive NTT: `forward(message, coset)` is `forward_transform` of the message
   * on coset `coset`; `subspaceEval(round, idx)` is `get_subspace_eval(round, idx)`.
   */
  datatype Ntt = Ntt(forward: (seq<Elem>, nat) -> seq<Elem>, subspaceEval: (nat, nat) -> Elem)

  /** The transform maps a message to a codeword block of the same length. */
  ghost predicate LengthPreserving(ntt: Ntt)
  {
    forall message: seq<Elem>, coset: nat :: |ntt.forward(message, coset)| == |message|
  }

  /** Number of base elements of tower level `level` packed into one 128-bit element. */
  function Degree(level: nat): nat
    requires level <= 7
  {
    Pow2(7 - level)
  }

  /** The repacked message: each run of `Degree(level)` base elements becomes one element (`from_bases`). */
  function Repack(message: seq<Elem>, level: nat): (repacked: seq<Elem>)
    requires level <= 7 && |message| % Degree(level) == 0
    ensures |repacked| == |message| / Degree(level)
  {
    var d := Degree(level);
    var m := |message| / d;
    seq(m, i requires 0 <= i < m =>
      MulMono(m, i + 1, d);
      FromBases(message[i * d .. (i + 1) * d], level))
  }

  /** A message already over BinaryField128b is its own repacking. */
  lemma RepackTopLevel(message: seq<Elem>)
    ensures Repack(message, 7) == message
  {
    var repacked := Repack(message, 7);
    forall i | 0 <= i < |message|
      ensures repacked[i] == message[i]
    {
      var chunk := message[i .. i + 1];
      assert FromBases(chunk, 7) == LowBits(chunk, 128);
      assert LowBits(chunk, 128) == LowBits(chunk[..0], 128) + chunk[0][..128];
    }
  }

  /** Block i of a codeword whose blocks have m symbols each: positions [i * m, (i + 1) * m). */
  function Block(encoding: seq<Elem>, m: nat, i: nat): seq<Elem>
    requires (i + 1) * m <= |encoding|
  {
    MulMono(i + 1, i, m);
    encoding[i * m .. (i + 1) * m]
  }

  /** The transforms of the message on cosets 0 .. n - 1, one after another. */
  function Encodings(ntt: Ntt, message: seq<Elem>, n: nat): seq<Elem>
  {
    if n == 0 then [] else Encodings(ntt, message, n - 1) + ntt.forward(message, n - 1)
  }

  /** n transforms of a length-preserving NTT fill n blocks of |message| symbols. */
  lemma {:induction false} EncodingsLength(ntt: Ntt, message: seq<Elem>, n: nat)
    requires LengthPreserving(ntt)
    ensures |Encodings(ntt, message, n)| == n * |message|
  {
    if n > 0 {
      EncodingsLength(ntt, message, n - 1);
    }
  }

  /** Block i of the concatenated transforms is the transform on coset i. */
  lemma {:induction false} EncodingsBlock(ntt: Ntt, message: seq<Elem>, n: nat, i: nat)
    requires LengthPreserving(ntt) && i < n
    ensures |Encodings(ntt, message, n)| == n * |message|
    ensures Block(Encodings(ntt, message, n), |message|, i) == ntt.forward(message, i)
  {
    var m := |message|;
    EncodingsLength(ntt, message, n);
    EncodingsLength(ntt, message, n - 1);
    var prefix := Encodings(ntt, message, n - 1);
    MulMono(i + 1, i, m);
    if i == n - 1 {
      assert Block(prefix + ntt.forward(message, i), m, i) == ntt.forward(message, i);
    } else {
      EncodingsBlock(ntt, message, n - 1, i);
      MulMono(n - 1, i + 1, m);
      assert Block(prefix + ntt.forward(message, n - 1), m, i) == Block(prefix, m, i);
    }
  }

  /**
   * `Code::new`: repacks the message, then appends, for each of the RATE cosets, the
   * forward transform of the repacked message on that coset.
   */
  method New(message: seq<Elem>, level: nat, ntt: Ntt) returns (code: Code)
    requires level <= 7 && |message| % Degree(level) == 0
    requires LengthPreserving(ntt)
    ensures |code.encoding| == RATE * (|message| / Degree(level))
    ensures forall i :: 0 <= i < RATE ==>
              Block(code.encoding, |message| / Degree(level), i) == ntt.forward(Repack(message, level), i)
  {
    var repackedMessage := Repack(message, level);
    var encoding: seq<Elem> := [];
    for i := 0 to RATE
      invariant encoding == Encodings(ntt, repackedMessage, i)
    {
      var temp := ntt.forward(repackedMessage, i);
      encoding := encoding + temp;
    }
    code := Code(encoding);
    EncodingsLength(ntt, repackedMessage, RATE);
    forall i | 0 <= i < RATE
      ensures Block(code.encoding, |repackedMessage|, i) == ntt.forward(repackedMessage, i)
    {
      EncodingsBlock(ntt, repackedMessage, RATE, i);
    }
  }

  /**
   * `fold`: undoes one butterfly of the inverse NTT on the pair (`val0`, `val1`) with
   * the twiddle of (`round`, `idx`), then interpolates the line through the two
   * results at `r`: (1 + r) * x0 + r * x1. In a ring of characteristic 2 that is the
   * line through y0 = val0 + (val0 + val1) * twiddle at 0 and y1 = val0 + val1 at 1,
   * evaluated at r.
   */
  function Fold(mul: Mul, ntt: Ntt, r: Elem, round: nat, idx: nat, val0: Elem, val1: Elem): (folded: Elem)
    ensures IsRing(mul) ==>
              var y0 := Add(val0, mul(Add(val0, val1), ntt.subspaceEval(round, idx)));
              var y1 := Add(val0, val1);
              folded == Add(y0, mul(r, Add(y0, y1)))
  {
    var twiddle := ntt.subspaceEval(round, idx);
    var x1 := Add(val1, val0);
    var x0 := Add(val0, mul(x1, twiddle));
    AddComm(val1, val0);
    LineThrough(mul, r, x0, x1);
    Add(mul(Add(ONE, r), x0), mul(r, x1))
  }

  /** (1 + r) * x0 + r * x1 is x0 + r * (x0 + x1): the line through x0 at 0 and x1 at 1. */
  lemma LineThrough(mul: Mul, r: Elem, x0: Elem, x1: Elem)
    ensures IsRing(mul) ==> Add(mul(Add(ONE, r), x0), mul(r, x1)) == Add(x0, mul(r, Add(x0, x1)))
  {
    if IsRing(mul) {
      MulAddLeft(mul, ONE, r, x0);
      MulOne(mul, x0);
      MulAddRight(mul, r, x0, x1);
      AddAssoc(x0, mul(r, x0), mul(r, x1));
    }
  }

  /** At r = 0 the fold is the first butterfly output, val0 + (val0 + val1) * twiddle. */
  lemma FoldAtZero(mul: Mul, ntt: Ntt, round: nat, idx: nat, val0: Elem, val1: Elem)
    requires IsRing(mul)
    ensures Fold(mul, ntt, ZERO, round, idx, val0, val1)
            == Add(val0, mul(Add(val0, val1), ntt.subspaceEval(round, idx)))
  {
    var twiddle := ntt.subspaceEval(round, idx);
    var x1 := Add(val1, val0);
    var x0 := Add(val0, mul(x1, twiddle));
    AddZero(ONE);
    MulZero(mul, x1);
    MulOne(mul, x0);
    AddZero(x0);
    AddComm(val1, val0);
  }

  /** At r = 1 the fold is the second butterfly output, val0 + val1 (characteristic 2). */
  lemma FoldAtOne(mul: Mul, ntt: Ntt, round: nat, idx: nat, val0: Elem, val1: Elem)
    requires IsRing(mul)
    ensures Fold(mul, ntt, ONE, round, idx, val0, val1) == Add(val0, val1)
  {
    var twiddle := ntt.subspaceEval(round, idx);
    var x1 := Add(val1, val0);
    var x0 := Add(val0, mul(x1, twiddle));
    AddSelf(ONE);
    MulZero(mul, x0);
    MulOne(mul, x1);
    AddZero(mul(ONE, x1));
    AddComm(val1, val0);
  }

  /** For fixed r, round and idx the fold is additive in the pair it folds. */
  lemma FoldAdditive(mul: Mul, ntt: Ntt, r: Elem, round: nat, idx: nat, a0: Elem, a1: Elem, b0: Elem, b1: Elem)
    requires IsRing(mul)
    ensures Fold(mul, ntt, r, round, idx, Add(a0, b0), Add(a1, b1))
            == Add(Fold(mul, ntt, r, round, idx, a0, a1), Fold(mul, ntt, r, round, idx, b0, b1))
  {
    var t := ntt.subspaceEval(round, idx);
    var s := Add(ONE, r);
    var xa1, xb1 := Add(a1, a0), Add(b1, b0);
    var xa0, xb0 := Add(a0, mul(xa1, t)), Add(b0, mul(xb1, t));
    var x1 := Add(Add(a1, b1), Add(a0, b0));
    AddFour(a1, b1, a0, b0);
    assert x1 == Add(xa1, xb1);
    MulAddLeft(mul, xa1, xb1, t);
    var x0 := Add(Add(a0, b0), mul(x1, t));
    AddFour(a0, b0, mul(xa1, t), mul(xb1, t));
    assert x0 == Add(xa0, xb0);
    MulAddRight(mul, s, xa0, xb0);
    MulAddRight(mul, r, xa1, xb1);
    AddFour(mul(s, xa0), mul(s, xb0), mul(r, xa1), mul(r, xb1));
  }

  /** (a + b) + (c + d) == (a + c) + (b + d). */
  lemma AddFour(a: Elem, b: Elem, c: Elem, d: Elem)
    ensures Add(Add(a, b), Add(c, d)) == Add(Add(a, c), Add(b, d))
  {
  }

  /** `fold_code`: symbol i of the folded code folds the pair (2i, 2i + 1) of this one. */
  function FoldCode(mul: Mul, ntt: Ntt, code: Code, r: Elem, round: nat): (folded: Code)
    ensures |folded.encoding| == |code.encoding| / 2
  {
    var half := |code.encoding| / 2;
    Code(seq(half, i requires 0 <= i < half =>
      Fold(mul, ntt, r, round, i, code.encoding[2 * i], code.encoding[2 * i + 1])))
  }

  /** Symbol i of the folded code is the fold of the pair (2i, 2i + 1) with the twiddle of (round, i). */
  lemma FoldCodeAt(mul: Mul, ntt: Ntt, code: Code, r: Elem, round: nat, i: nat)
    requires i < |code.encoding| / 2
    ensures 2 * i + 1 < |code.encoding|
    ensures Idx(FoldCode(mul, ntt, code, r, round), i)
            == Fold(mul, ntt, r, round, i, Idx(code, 2 * i), Idx(code, 2 * i + 1))
  {
  }

  /** Folding a codeword whose length is a power of two halves that power. */
  lemma FoldCodeHalvesPow2(mul: Mul, ntt: Ntt, code: Code, r: Elem, round: nat, k: nat)
    requires |code.encoding| == Pow2(k + 1)
    ensures |FoldCode(mul, ntt, code, r, round).encoding| == Pow2(k)
  {
  }

  /** `idx`: symbol `idx` of the codeword. */
  function Idx(code: Code, idx: nat): (symbol: Elem)
    requires idx < |code.encoding|
    ensures symbol == code.encoding[idx]
  {
    code.encoding[idx]
  }

  /** A message of 2^l elements of BinaryField128b encodes to 2^(l + 2) symbols. */
  lemma EncodedLength(l: nat)
    ensures RATE * (Pow2(l) / Degree(7)) == Pow2(l + 2)
  {
    Pow2Add(l, 2);
    assert Degree(7) == 1;
  }

  /**
   * The fold loop of the module's test: a message of 2^l elements is encoded and then
   * folded l times with the challenges `r`, round by round (the test's separate first fold
   * is round 0 of the loop here); what is left has RATE symbols.
   */
  method EncodeAndFold(mul: Mul, ntt: Ntt, poly: seq<Elem>, l: nat, r: seq<Elem>) returns (folded: Code)
    requires |poly| == Pow2(l) && |r| == l && l >= 1
    requires LengthPreserving(ntt)
    ensures |folded.encoding| == RATE
  {
    var code := New(poly, 7, ntt);
    EncodedLength(l);
    folded := code;
    for round := 0 to l
      invariant |folded.encoding| == Pow2(l + 2 - round)
    {
      FoldCodeHalvesPow2(mul, ntt, folded, r[round], round, l + 1 - round);
      folded := FoldCode(mul, ntt, folded, r[round], round);
    }
  }
}
