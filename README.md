# fri-binius prover core in Dafny

fri-binius is a polynomial commitment scheme over binary tower fields. The prover
commits to a multilinear polynomial as a rate-1/4 Reed-Solomon codeword under a
Merkle tree. To prove an evaluation, it first ring-switches the claim: partial
evaluations over the last variables are batched row by row into a claim about a
polynomial over BinaryField128b. It then runs a sum-check whose challenges are also
FRI folding challenges. In each round it folds the codeword and commits to it, and
finally it opens the committed codewords at queries drawn from a Fiat-Shamir channel.

This project models that prover core and proves properties of the model:

- the Merkle tree over symbol pairs (`merkle.dfy`, module `Merkle`);
- the Keccak-based transcript (`channel.dfy`, module `FiatShamir`);
- the eq tables and packed multilinear tables (`mle.dfy`, module `Mle`);
- the rate-4 code and its fold (`code.dfy`, module `ReedSolomon`);
- the commit phase, sum-check round and query phase (`prover.dfy`, module `Prover`).

The field and bit arithmetic they share is in `field.dfy` (module `Field`); the
error values are in `errors.dfy` (module `Errors`).

The three external libraries become parameters:

- A field element is its 128 coordinates over GF(2). Addition is coordinate-wise
  exclusive or, so characteristic 2 (`x + x == 0`) is a theorem. Multiplication
  is a function parameter `mul`, and the lemmas that need the commutative-ring laws
  take `IsRing(mul)` as a precondition.
- Keccak-256 is a function parameter `keccak` from byte strings to 32-byte digests.
  A sponge that has absorbed bytes and is then finalised returns the hash of those
  bytes, so the channel's `state` is modelled as the byte transcript absorbed so far.
- The additive NTT is a datatype `Ntt` of two functions: the forward transform on a
  coset, and the subspace evaluations used as fold twiddles. `LengthPreserving(ntt)`
  is the one fact about it that the model uses.

Code that updates state in place is imperative Dafny: the `Channel`, `ProofState` and
`LagrangeBases` classes, `compute_eq` on an array, the index-halving loop of
`query_phase`, and the loops of `merklize`, `get_merkle_path`, `verify_merkle_path`,
`Code::new`, `evaluate` and `switch_view`. Each loop is proved against a function
that specifies it. Map and reduce code (`sum_check_round`, `get_partial_evals`,
`gather_round_queries`, the `PackedMLE` folds, `fold_code`) is modelled as functions.

`commit_phase` is proved against a value-level description of a sum-check run.
`SumCheckState` holds the table, the eq table and the claim. `IsRun` says that each
state is the fold of the previous one at that round's challenge, with the claim
becoming the round polynomial evaluated there. `RunSound` proves that a run keeps the
invariant "claim = table · eq table", so the commit phase hands the verifier's check
a correctly folded claim.

## Model

| member | source | states |
|---|---|---|
| Merkle.HashConcatenation | src/utils/merkle.rs:72-80 | filling the 64-byte buffer with data1 then data2 and hashing it gives the node hash of the two digests |
| Merkle.HashTuple | src/utils/merkle.rs:64-70 | the hash of a pair is Keccak-256 of the 32 little-endian bytes of the two-element vector [pair.0, pair.1], the same bytes the channel absorbs for that vector |
| Merkle.GetRoot | src/utils/merkle.rs:41-43 | the root is the single node of layer 0; VerifyMerklePath and MerklePathRoundTrip check paths against it |
| Merkle.ComputeLeafHashes | src/utils/merkle.rs:160-176 | needs an even number of values; gives half as many leaves, leaf i being `hash_tuple((vals[2i], vals[2i+1]))` |
| Merkle.BuildParentLayer | src/utils/merkle.rs:178-188 | needs an even number of children; the parent layer is half as long |
| Merkle.Merklize | src/utils/merkle.rs:84-102 | for a power-of-two leaf count, gives trailing_zeros + 1 layers forming a tree over the leaves: layer k has 2^k nodes, the last layer is the leaves, and every node hashes its two children |
| Merkle.LayersBuiltIsTree | src/utils/merkle.rs:94-99 | the layers pushed bottom-up and then reversed are a tree over the leaves |
| Merkle.LayersBuiltParent | src/utils/merkle.rs:94-97 | every node of a pushed parent layer hashes children 2i and 2i+1 of the layer below |
| Merkle.Reverse | src/utils/merkle.rs:99 | reversal keeps the length and puts entry n-1-i at i |
| Merkle.GetMerklePath | src/utils/merkle.rs:105-126 | for a leaf in range, the path has one hash per layer below the root, and entry k is the sibling `(leaf_index >> k) ^ 1` in the layer k levels above the leaves |
| Merkle.AncestorBound | src/utils/merkle.rs:119-122 | the index after k halvings, and its sibling, stay inside the layer it indexes |
| Merkle.VerifyMerklePath | src/utils/merkle.rs:129-156 | succeeds exactly when the path length equals the commitment depth and the root recomputed bit by bit from leaf_index equals the commitment root |
| Merkle.ClimbToParent | src/utils/merkle.rs:143-148 | one verification step from node j and its sibling gives node j/2 of the layer above |
| Merkle.PathHashReachesAncestor | src/utils/merkle.rs:142-149 | after n steps on an honest path the recomputed hash is the leaf's ancestor `leaf_index >> n` |
| Merkle.MerklePathRoundTrip | src/utils/merkle.rs:211-233 | verifying a leaf of a tree with its own path against {root, number of layers - 1} succeeds |
| FiatShamir.Channel.constructor | src/utils/channel.rs:17-22 | a new channel has an empty transcript and round_idx 0 |
| FiatShamir.Channel.AbsorbBytes | src/utils/channel.rs:24-26 | appends the bytes to the transcript and leaves round_idx alone |
| FiatShamir.Channel.SampleDigest | src/utils/channel.rs:28-32 | the digest is Keccak-256 of the transcript followed by the counter's 8 little-endian bytes (`TranscriptDigest`), read without changing the channel |
| FiatShamir.Channel.ObserveFieldElem | src/utils/channel.rs:34-39 | appends the element's 16 little-endian bytes; round_idx unchanged |
| FiatShamir.Channel.ObserveFieldElems | src/utils/channel.rs:41-46 | appends each element's bytes in order; round_idx unchanged |
| FiatShamir.Channel.ObserveVectorCommitment | src/utils/channel.rs:48-51 | appends the root, then the depth as 8 little-endian bytes; round_idx unchanged |
| FiatShamir.Channel.ObserveFriCommitment | src/utils/channel.rs:53-56 | appends the vector commitment, then the packing factor as 8 little-endian bytes; round_idx unchanged |
| FiatShamir.Channel.GetRandomPoint | src/utils/channel.rs:58-66 | below usize::MAX, returns the point drawn from (transcript, round_idx) and increments round_idx by one; at usize::MAX it reports the counter overflow and changes nothing; the transcript is never changed |
| FiatShamir.Channel.GetRandomPoints | src/utils/channel.rs:68-74 | when the counter has room, returns the n consecutive draws and advances round_idx by n; otherwise it reports the counter overflow |
| FiatShamir.DrawsSplit | src/utils/channel.rs:68-74 | drawing a + b points is drawing a points and then b more from the advanced counter |
| FiatShamir.DrawsAt | src/utils/channel.rs:68-74 | draw i of a batch is the point of counter start + i |
| FiatShamir.Queries | src/utils/channel.rs:76-97 | fails for a log length that does not fit in u32 or whose shift overflows usize; gives every index 0..domain-1 in order for a domain under 144; otherwise 144 indices, each below the domain size; fails otherwise only when the 144 draws overflow the counter |
| FiatShamir.Channel.GenQueries | src/utils/channel.rs:76-97 | returns exactly `Queries` of the transcript and counter; advances round_idx by 144 only when it draws, to usize::MAX on overflow, and not at all for a small domain |
| FiatShamir.SameTranscriptSamePoints | src/utils/channel.rs:28-32 | two channels that observe the same elements and draw the same number of points return the same points |
| ReedSolomon.RateIsPowerOfLogRate | src/utils/code.rs:10-11 | RATE == 2^LOG_RATE |
| ReedSolomon.Repack | src/utils/code.rs:22 | repacking chunks of DEGREE base elements gives len / DEGREE elements |
| ReedSolomon.RepackTopLevel | src/utils/code.rs:22 | a message already over BinaryField128b repacks to itself |
| ReedSolomon.EncodingsBlock | src/utils/code.rs:26-30 | block i of the appended transforms is the transform on coset i |
| ReedSolomon.New | src/utils/code.rs:19-34 | the encoding has RATE·m symbols for m repacked elements, and block i is the forward transform of the repacked message on coset i |
| ReedSolomon.Fold | src/utils/code.rs:57-76 | in a characteristic-2 ring, the fold is the line through the inverse-butterfly outputs y0 = val0 + (val0 + val1)·twiddle (at 0) and y1 = val0 + val1 (at 1), evaluated at r: y0 + r·(y0 + y1) |
| ReedSolomon.FoldAtZero | src/utils/code.rs:70-75 | at r = 0 the fold is val0 + (val0 + val1)·twiddle |
| ReedSolomon.FoldAtOne | src/utils/code.rs:70-75 | at r = 1 the fold is val0 + val1 |
| ReedSolomon.FoldAdditive | src/utils/code.rs:70-75 | for fixed r, round and idx the fold is additive in the pair it folds |
| ReedSolomon.FoldCode | src/utils/code.rs:36-49 | the folded code has len / 2 symbols (rounded down, as `len >> 1`); what each symbol is, is stated by FoldCodeAt |
| ReedSolomon.FoldCodeAt | src/utils/code.rs:44-46 | symbol i of the folded code is `fold(r, round, i, encoding[2i], encoding[2i + 1])` |
| ReedSolomon.Idx | src/utils/code.rs:51-53 | the accessor returns symbol idx of the encoding |
| ReedSolomon.FoldCodeHalvesPow2 | src/utils/code.rs:44-48 | folding a code of 2^(k+1) symbols leaves 2^k |
| ReedSolomon.EncodeAndFold | src/utils/code.rs:93-108 | encoding 2^l elements and folding l times leaves RATE symbols |
| Mle.EqTableProduct | src/utils/mle.rs:266-287 | entry b of the eq table is the product over j of r_j when bit j of b is set and 1 - r_j otherwise |
| Mle.EqTableSumsToOne | src/utils/mle.rs:266-287 | the eq table's entries sum to 1 |
| Mle.EqRound | src/utils/mle.rs:271-283 | one pass over the array writes x·r into the upper half and x - x·r into the lower half of the first 2·size entries, and leaves the rest alone |
| Mle.EqStepFromHalves | src/utils/mle.rs:275-281 | halves holding x - x·r and x·r are the next eq table |
| Mle.EqTablePrefixStep | src/utils/mle.rs:271-284 | the table for the first j+1 coordinates is one step from the table for the first j |
| Mle.ComputeEq | src/utils/mle.rs:266-287 | the array built in place is the eq table of the point |
| Mle.LagrangeBases.constructor | src/utils/mle.rs:177-182 | the new table is [1] with 0 variables |
| Mle.LagrangeBases.GenFromPoint | src/utils/mle.rs:200-205 | vals is the eq table of the point and vars its length |
| Mle.LagrangeBases.Tensor | src/utils/mle.rs:207-219 | appends point·old as a second half, subtracting it from the first, and increments vars |
| Mle.TensorStepSum | src/utils/mle.rs:207-219 | tensoring leaves the sum of vals unchanged |
| Mle.TensorExtendsEqTable | src/utils/mle.rs:207-219 | tensoring the eq table of a point with p gives the eq table of the point extended by p |
| Mle.LagrangeBases.FoldLo | src/utils/mle.rs:221-230 | vals becomes the halved fold r·(v[2i] + v[2i+1]) + v[2i] and vars decreases by one |
| Mle.FoldLoAtZero | src/utils/mle.rs:221-230 | folding at r = 0 keeps the even entries |
| Mle.FoldLoAtOne | src/utils/mle.rs:221-230 | folding at r = 1 keeps the odd entries |
| Mle.LagrangeBases.RowBatch | src/utils/mle.rs:233-247 | a fresh table of the same length and vars whose entry i is the bits of vals[i] weighted by eq |
| Mle.RowBatchAdditive | src/utils/mle.rs:233-247 | row batching is additive in the element it batches |
| Mle.LagrangeBases.FoldIn | src/utils/mle.rs:250-259 | with more than one entry, vals becomes the pair sums and vars decreases; otherwise nothing changes; the total sum is kept either way |
| Mle.PairSumsSum | src/utils/mle.rs:250-259 | the pair sums of an even-length table sum to the table's sum |
| Mle.NewPackedMLE | src/utils/mle.rs:31-45 | packing factor is the tower level when packed and 0 otherwise; for a power-of-two length, 2^variables is the length times 2^packing factor |
| Mle.PackedMLE.PackedIdx | src/utils/mle.rs:49-55 | entry idx of the unpacked hypercube is coordinate `idx mod 2^pf` of coefficient `idx >> pf`; PackedIdxAt gives the inverse direction |
| Mle.PackedIdxAt | src/utils/mle.rs:49-55 | `packed_idx` at out·2^pf + c is coordinate c of coefficient out |
| Mle.HypercubeIndex | src/utils/mle.rs:49-55 | every index of the unpacked hypercube names an existing coefficient |
| Mle.GetBoundElem | src/utils/mle.rs:66-78 | the loop's result is the bound element: the raw bit when eq binds no variables, otherwise the eq-weighted sum over the sub-cube |
| Mle.BoundElemAtVertex | src/utils/mle.rs:66-78 | binding with the eq table of a vertex s selects the bit at idx·2^eq.vars + s |
| Mle.PackedMLE.FoldAsUnpackedLo | src/utils/mle.rs:98-106 | an unpacked table over variables - eq.vars whose entry i is `get_bound_elem(i)` |
| Mle.FoldAsUnpackedLoAtVertex | src/utils/mle.rs:98-106 | at a vertex, entry i is the bit at i·2^eq.vars + s |
| Mle.PackedMLE.FoldAsUnpackedHi | src/utils/mle.rs:80-96 | an unpacked table over variables - eq.vars whose entry i sums the bits at i + sub·2^shift weighted by eq |
| Mle.FoldAsUnpackedHiAtVertex | src/utils/mle.rs:80-96 | at a vertex, entry i is the bit at s·2^shift + i |
| Mle.PackedMLE.BatchRows | src/utils/mle.rs:108-122 | an unpacked table over variables - TAU whose entry k sums the bits at k·2^TAU + i weighted by eq |
| Mle.BatchRowsIsFoldAsUnpackedLo | src/utils/mle.rs:98-122 | batching rows with a TAU-variable eq table is folding the low TAU variables |
| Mle.BatchTermsAreBoundTerms | src/utils/mle.rs:108-122 | the terms batch_rows adds are those get_bound_elem adds |
| Mle.PackedMLE.FoldLo | src/utils/mle.rs:128-136 | the coefficients become the halved fold and the result is unpacked over one variable fewer |
| Mle.PackedMLE.FoldAsPackedHi | src/utils/mle.rs:148-164 | len >> eq.vars coefficients, entry i summing eq.vals[sub] times coefficient `i OR (sub << shift)` (bitwise or, shift = trailing_zeros(len) - eq.vars) for every length; well formed over log(len) - eq.vars variables when the length is a power of two |
| Mle.FoldAsPackedHiAtVertex | src/utils/mle.rs:148-164 | at a vertex s, entry i is coefficient `i OR (s << shift)`, which is in range for every length; for a power-of-two length that index is s·2^shift + i, coefficient i of block s |
| Mle.FoldAsPackedHiIdentity | src/utils/mle.rs:148-164 | folding with the 0-variable table [1] keeps the coefficients |
| Mle.DotProduct | src/utils/mle.rs:289-297 | the sum of scalars[i]·vals[i] over the shorter of the two, as `zip` truncates; DotProductOneHot and DotProductAdditive are its properties |
| Mle.DotProductOneHot | src/utils/mle.rs:289-297 | the dot product with the unit vector at s is vals[s] |
| Mle.DotProductAdditive | src/utils/mle.rs:289-297 | the dot product is additive in the values |
| Mle.TransposeAt | src/utils/mle.rs:311-327 | bit j of row i is bit i of vals[j] |
| Mle.TransposeInvolution | src/utils/mle.rs:311-327 | switching the view twice gives back the first 128 elements |
| Mle.TransposeAdditive | src/utils/mle.rs:311-327 | switching the view is additive |
| Mle.SwitchView | src/utils/mle.rs:311-327 | the nested loops build the 128 rows of the bit transpose |
| Mle.ComputeRowBatch | src/utils/mle.rs:300-308 | the result is the dot product of the scalars with the row view |
| Prover.Evaluate | src/prover.rs:296-303 | the loop computes Horner's rule; 0 for no coefficients |
| Prover.HornerIsPowerSum | src/prover.rs:296-303 | Horner's rule equals the sum of coeffs[i]·r^i |
| Prover.HornerAtZero | src/prover.rs:296-303 | the value at 0 is coeffs[0] |
| Prover.HornerAtOne | src/prover.rs:296-303 | the value at 1 is the sum of the coefficients |
| Prover.RoundPolynomial | src/prover.rs:333-352 | the round polynomial has three coefficients; RoundPolynomialCoeffs, SumCheckRoundSumsToClaim and SumCheckRoundFoldsClaim state their values |
| Prover.SumCheckRound | src/prover.rs:348-352 | the round polynomial has three coefficients |
| Prover.RoundPolynomialCoeffs | src/prover.rs:333-352 | the coefficients are [e0, e0 + e1 + e_inf, e_inf], with e0 the even-entry products and e_inf the pair-sum products |
| Prover.SumCheckRoundSumsToClaim | src/prover.rs:328-353 | the value at 0 is e0, and the values at 0 and 1 add up to the claim |
| Prover.FoldedProductIsQuad | src/prover.rs:333-352 | the dot product of the two tables folded at r is the quadratic with those coefficients at r |
| Prover.SumCheckRoundFoldsClaim | src/prover.rs:328-353 | when the claim is table · eq table, the round polynomial at r is folded table · folded eq table |
| Prover.GetPartialEvals | src/prover.rs:307-325 | gives 2^TAU partial evaluations |
| Prover.PartialEvalsAreFoldAsUnpackedHi | src/prover.rs:307-325 | the partial evaluations are `fold_as_unpacked_hi` over the high variables |
| Prover.PartialTermsAreHiTerms | src/prover.rs:317-320 | the terms summed for k are those `fold_as_unpacked_hi` sums for k |
| Prover.PartialEvalsAtVertex | src/prover.rs:307-325 | with the eq table of vertex j, partial evaluation k is the bit at j·2^TAU + k |
| Prover.CommitOracle | src/prover.rs:47-57 | the tree is the tree over the leaf hashes, the root is its root, the depth is log2(len) - 1 (one leaf per symbol pair), and every pair verifies with its own path |
| Prover.Commit | src/prover.rs:19-44 | the encoding is `Code::new` of the coefficients, committed as in `commit_oracle` with the tower level as packing factor, and every pair verifies with its path |
| Prover.ProofState.constructor | src/prover.rs:161-168 | the default state has five empty vectors |
| Prover.ProofState.Update | src/prover.rs:171-184 | pushes exactly one entry onto each of the five vectors, keeping their lengths equal |
| Prover.SumCheckExchange | src/prover.rs:203-209 | sends the round polynomial, draws r from the transcript, and sets the claim to the polynomial at r; fails exactly on counter overflow |
| Prover.RoundCodeFolds | src/prover.rs:212-215 | the code folded in round k has 2^(log len - k - 1) symbols, at least two |
| Prover.FoldAndCommit | src/prover.rs:211-221 | folds the encoding in round 0 and the previous code afterwards, commits to it, absorbs the commitment and pushes one entry onto each vector |
| Prover.CommitRound | src/prover.rs:201-224 | one round: the round polynomial, challenge, new claim, fold, commitment, transcript bytes and table folds, as `RoundStep` lists them; fails exactly on counter overflow |
| Prover.IsRunExtend | src/prover.rs:203-223 | appending the step of the last state extends a sum-check run |
| Prover.StepSound | src/prover.rs:203-223 | a round keeps "claim = table · eq table" and halves the table |
| Prover.RunSound | src/prover.rs:201-224 | every state of a run keeps "claim = table · eq table", with 2^(v-k) entries after k rounds |
| Prover.CommitTranscriptAppend | src/prover.rs:205-219 | a round appends the polynomial's bytes, the root and the depth to the transcript |
| Prover.ChallengesDrawnExtend | src/prover.rs:205-219 | the round's challenge is the draw from the transcript after the polynomial, at counter start + round |
| Prover.FoldChainExtend | src/prover.rs:212-215 | a round's code extends the chain in which code k folds code k-1 (the encoding for k = 0) at challenge k |
| Prover.OraclesCommittedExtend | src/prover.rs:217-221 | a round's oracle and tree extend the lists in which oracle k commits to code k |
| Prover.RoundsDoneStep | src/prover.rs:201-224 | one more round keeps the commit phase's loop invariant |
| Prover.CommitPhaseRound | src/prover.rs:201-224 | a loop iteration keeps the loop invariant, or fails with the counter overflow |
| Prover.CommitPhase | src/prover.rs:187-227 | succeeds exactly when the counter has room for `rounds` draws. Each vector then has `rounds` entries, code k folds code k-1 at challenge k and has half its length, every oracle commits to its code, and the result is symbol 0 of the last code. The claims form a sum-check run that keeps "claim = table · eq table". The transcript and the challenges are those of the rounds' messages |
| Prover.GatherRoundQueries | src/prover.rs:271-284 | one path and one symbol pair per query |
| Prover.GatheredOpeningVerifies | src/prover.rs:276-281 | the pair (code[2i], code[2i+1]) hashed as a leaf verifies with the path of leaf i against the code's commitment |
| Prover.GatheredPairFolds | src/prover.rs:258-265 | folding pair i at r gives the component (i mod 2) of the next round's pair i >> 1 |
| Prover.RoundQueriesHalve | src/prover.rs:263-265 | the indices of round k+1 are those of round k shifted right by one |
| Prover.HalveQueries | src/prover.rs:263-265 | shifts every index right by one in place |
| Prover.RoundGatherable | src/prover.rs:239-258 | every drawn index shifted right by k+1 names a leaf of round k's tree and a pair of round k's code |
| Prover.OpenedRoundAt | src/prover.rs:250-258 | round k of the openings gathers round k's indices from round k's tree and code |
| Prover.OpenedRoundNext | src/prover.rs:250-265 | round k+1 opens the halved indices in the fold of round k's code |
| Prover.OpenedRoundsVerify | src/prover.rs:249-266 | every pair opened in round k verifies with its path against round k's commitment |
| Prover.OpenedRoundsFold | src/prover.rs:249-266 | pair j of round k folded at challenge k is the component of pair j of round k+1 that its index selects |
| Prover.RoundOpeningsAppend | src/prover.rs:260-261 | recording a round appends its paths and its pairs |
| Prover.QueryRound | src/prover.rs:250-265 | one iteration gathers round k's openings and halves the indices in place |
| Prover.GatherRounds | src/prover.rs:249-266 | the loop returns every round's pairs and paths, in round order |
| Prover.QueryPhase | src/prover.rs:229-269 | fails exactly when drawing the queries fails, with the same error. Otherwise it returns one entry per round, round k opening every drawn query shifted right by k+1. The transcript is unchanged; round_idx grows by 144 when the domain has at least 144 points, ends at usize::MAX on counter overflow, and is unchanged otherwise |

## Left out

- The tower-field arithmetic of `binius_field` is not modelled. Multiplication is a parameter with the commutative-ring laws as a precondition. `iter_bases`, `from_bases`, `serialize_canonical` and `deserialize` are modelled on the 128 coordinates: coordinate i is bit i of the little-endian value.
- The additive NTT of `binius_ntt` is a parameter. The law relating folding to encoding cannot be stated without its internals.
- Keccak-256 is a parameter. Collision resistance is not modelled.
- `Code::new_ext` (src/prover.rs:28) is not defined in the code module; `Commit` uses `Code::new` in its place.
- `PackedMLE::fold_hi` (src/utils/mle.rs:138-146) is not modelled: it is unused, and `i | (1 << i)` indexes past the end for all but the smallest i.
- `PackedMLE::repack_for_fri`, `LagrangeBases::packed_idx` and `LagrangeBases::from_mle` (src/utils/mle.rs:57-65, 184-198) are not modelled; the prover's driver uses the first, and nothing in the core uses the others.
- `hash` and `hash_field` (src/utils/merkle.rs:48-62) are not modelled; the core does not call them.
- The driver `prove` and `EvalProof` (src/prover.rs:62-154) are not modelled. They sequence the modelled operations.
- src/verifier.rs is not part of this model. It refers to types and fields that the prover does not define.
- rayon parallel iterators are modelled as sequential maps and sums. The reductions are order-independent because addition is commutative and associative.
- `tracing` instrumentation, printing and random sampling in the tests are left out.
- FiatShamir.Channel.ObserveFieldElem: never fails; serializing a BinaryField128b into a vector cannot fail, so the error path of `serialize_canonical` is not modelled.
- FiatShamir.Channel.GetRandomPoint: the point is the first 16 bytes of the 32-byte digest; deserializing them cannot fail, so that error path is not modelled.
- Integer widths: only `round_idx` is bounded, by usize::MAX on a 64-bit target, and the shift in `gen_queries` is checked against u32 and 64 bits. Other usize arithmetic is unbounded, because the lengths involved are far from overflow.
- Prover.CommitPhase: requires `rounds >= 1` and fewer rounds than the encoding's log length. With `rounds = 0` the source panics indexing `fri_folded_codes[rounds - 1]`.
- Prover.QueryPhase: requires every round's tree and code to hold the drawn indices. Out-of-range indices make the source panic.
