# Longfellow in Dafny

This project models the Longfellow proof system of the repository (the protocol of draft-google-cfrg-libzk-01) and proves
what each part of it is for. A prover evaluates a layered circuit, pads the witness, commits to it with a Ligero tableau
and a Merkle tree, runs a sumcheck whose checks are deferred to linear constraints, and proves those constraints with
Ligero. A verifier replays the Fiat-Shamir transcript, derives the same constraints and checks the Ligero proof. The main
result, `Longfellow.Prove` with `Longfellow.Verify`, says that the verifier accepts every proof of an accepted circuit
with zero outputs, for all pads, random elements, nonces and challenges. Its counterpart for proofs of any origin says what
acceptance means: the verifier accepts exactly when the equations of Ligero hold (`Longfellow.AcceptanceMeans`), for
constraints of which every row is exactly one check of a plain sumcheck verifier (`SumcheckChecks.ConstraintsMean`); and one
failing check, one violated quadratic constraint or one wrong copy is found whenever its weight is not zero.

How the model is laid out:

- A field is a value (`Fields.Field`) with a predicate that states its laws. `Fields.Ring` proves a polynomial identity in
  any commutative ring by comparing normal forms over the integers; the algebraic steps of all modules use it. `Sums`,
  `Dots` and `Polynomials` hold finite sums, inner products, evaluation and interpolation.
- `Ntt` and `Extend` are the in-place transforms and the Reed-Solomon extension over the integers 0, 1, 2, ...
- `Merkle`, `Tableau`, `LigeroRows`, `InnerProduct`, `Constraints`, `LigeroChecks` and `Ligero` are the commitment scheme.
  `LigeroEquations` says what its checks mean for any proof, with sums, evaluation and extension.
- `Bind`, `Sparse`, `Circuits`, `Witness`, `Symbolic`, `SumcheckRounds`, `Sumcheck` and `SumcheckRun` are the circuit and
  the sumcheck. Each step of a run is a function of the proof and of the transcript history; the methods of `SumcheckRun`,
  in the role of prover or of verifier, are proved against it. `SumcheckScript` writes the transcript of a run out as a list
  of messages and draws, and `SumcheckChecks` has a verifier on plain values, stated over that list alone, to which the
  emitted constraints are proved equivalent.
- `Longfellow` puts both protocols together, as in src/zk_one_circuit.
- The protocols see the transcript as an oracle on histories (`FiatShamir`). `TranscriptBytes`, `Framing` and `Sampling` are
  the transcript at the level of bytes, and `TranscriptOracle` proves that it answers like such an oracle.
- `Gf2128`, `Ecdsa` and `RunCoder` are the multiplication in GF(2^128), the signature ladder and the coder for Ligero
  columns. `Lfc2` and `Lfc` are the circuit converter with its reader and decoder, and `Lfc2Format` a writer of the format
  that the reader inverts. `Cbor` is the CBOR walker, `CborItems` the data items on which it is correct, and `Challenge` the
  derivation of challenges.
- `Options`, `Bytes` and `Arithmetic` are shared helpers.

Loops that update an array in place work on Dafny arrays in `Ntt`, and on sequences that the method reassigns elsewhere.
SHA-256 and AES are uninterpreted functions, and elliptic-curve points form a commutative group.

## Properties that the code does not have

Each has a concrete input and the exact condition under which the property holds.

- Merkle verification does not bind an included leaf that a later leaf with the same index overrides
  (`Merkle.RepeatedIndexIsNotBound`, for one leaf given twice). An included leaf is bound if no later one has its index
  (`Merkle.MerkleBinding`), and otherwise it can be replaced by anything (`Merkle.OverriddenNodeIsFree`). The transcript
  only asks for distinct indices (`Sampling.GenerateNaturalsWithoutReplacement`).
- The frames of the transcript do not determine the messages in the mode V3Compatibility, which src/zk_one_circuit uses:
  for every size of field elements there are two message sequences with the same bytes (`Framing.V3FramesCollide`). They
  do exactly in Normal mode (`Framing.InjectiveExactly`). In both modes they do among messages whose kinds and lengths are
  fixed in advance (`Framing.ShapedFramesInjective`).
- The run coder fails on columns in which an element of the subfield stands before and after one outside it
  (`RunCoder.InterleavedColumnsFail`), because a run is as long as the number of matching elements in all that is left.
  It succeeds exactly when the counts put no element outside the subfield into a subfield run
  (`RunCoder.EncodesWhenRunsFit`, for any length), which below the limit on runs is a condition on the order of the
  elements (`RunCoder.EncodesExactly`).
- The limit of the LFC2 converter on the number of terms never applies, because the output budget is reached first
  (`Lfc.One` states the exact condition without it).

The comment on `generate_naturals_without_replacement` asks for max > count, and the code asserts it; the model requires
it. The documentation of the transcript modes speaks of tests, but the prover and the verifier run in V3Compatibility.

## Model

| member | source | states |
|---|---|---|
| `Longfellow.LongfellowCompleteness` | src/zk_one_circuit/prover.rs:41-92 | a proof whose parts are an honest sumcheck run, an honest commitment and an honest Ligero run over one transcript is accepted by the whole verifier |
| `Longfellow.Prove` | src/zk_one_circuit/prover.rs:41-92 | proving succeeds exactly for the right number of inputs and an accepted circuit, and the proof is then accepted for the public inputs, for all pads, random elements and nonces |
| `Longfellow.Verify` | src/zk_one_circuit/verifier.rs:33-64 | the verifier accepts exactly when the statement has the right length and all Ligero checks hold for the constraints of the sumcheck proof; for any proof that is exactly when the equations of Ligero hold |
| `Longfellow.StartTranscript` | src/sumcheck/mod.rs:45-75 | both sides start from the session, the commitment, the circuit id, the public inputs, a zero element and one zero byte per quad |
| `Longfellow.AcceptanceMeans` | src/zk_one_circuit/verifier.rs:33-64 | for any proof, honest or not, the verifier accepts exactly when the statement has the right length and the equations of Ligero hold |
| `Longfellow.WrongCheckIsRejected` | src/zk_one_circuit/verifier.rs:33-64 | a prover that follows Ligero but whose sumcheck proof fails exactly one check of the plain verifier, for a layer or for the inputs, is rejected if the weight of that row is not zero |
| `Longfellow.TranscriptDetermines` | src/zk_one_circuit/verifier.rs:33-64 | equal final transcripts come from equal sessions, commitments, public inputs and sumcheck proofs and equal vectors of Ligero: nothing that the verifier reads before it requests columns is left out of the transcript |
| `Longfellow.StartHistoryDetermines` | src/sumcheck/mod.rs:45-75 | the start of the transcript determines the session, the commitment, the circuit id, the public inputs and the number of quads |
| `Sumcheck.SumcheckCompleteness` | src/sumcheck/mod.rs:254-620 | for every circuit with disjoint gates, every accepted input with zero outputs, every pad and every challenge, the witness satisfies every linear constraint of the honest run |
| `Sumcheck.LayerStepKeeps` | src/sumcheck/mod.rs:303-566 | one layer keeps the invariant: the claims on the two bound wire values are the values, and the constraints so far hold |
| `Sumcheck.LastQuadSingle` | src/sumcheck/mod.rs:500-515 | after all rounds one quad entry is left and its three indices are zero, as the code asserts |
| `Sumcheck.ConstraintsInRange` | src/sumcheck/mod.rs:567-620 | every constraint refers to an existing witness, for any complete proof |
| `SumcheckChecks.ConstraintsMean` | src/sumcheck/mod.rs:303-620 | for any proof and any vector, row j holds if and only if the claim after the rounds is the quad at the challenges times the two claimed wires, wherever the third wire pad is the product of the other two; the last row holds if and only if the last claims are the inputs at the two points |
| `SumcheckChecks.LinearIsPlain` | src/sumcheck/mod.rs:303-620 | a vector that meets the quadratic constraints meets all linear constraints if and only if a sumcheck verifier without padding accepts |
| `SumcheckChecks.TermsMean` | src/sumcheck/mod.rs:540-556 | the terms and the right hand side that a layer emits hold exactly when the claim is the bound quad times the two unpadded wires |
| `SumcheckChecks.QuadMeans` | src/sumcheck/mod.rs:374-515 | the entry that is left after the rounds is the sum over all quads, weighted by the tables of the challenges of both hands |
| `SumcheckChecks.HandDual` | src/sumcheck/bind/sparse.rs:391-453 | summing the bound quad over a table is summing the quad over the doubled table |
| `SumcheckChecks.InterpolatedIsValue` | src/sumcheck/mod.rs:466-498 | from the sum of the values at 0 and 1 and the values at 0 and the third point, the update of the claim finds the value of every quadratic polynomial |
| `SumcheckScript.LayersFollow` | src/sumcheck/mod.rs:290-566 | for any proof the transcript is the written-out list of its messages and draws, and every binding is the answer to the draw at its place in that list |
| `SumcheckScript.RunHistoryDetermines` | src/sumcheck/mod.rs:254-620 | runs with equal final transcripts started from equal transcripts and have equal proofs |
| `SumcheckRounds.RoundsClaim` | src/sumcheck/mod.rs:374-498 | through all rounds and both hands the symbolic claim equals the sum over the bound quad and the bound wires |
| `SumcheckRun.RunProtocol` | src/sumcheck/mod.rs:254-620 | in both roles the loop yields the constraints and the transcript that the proof determines; for every vector, row by row, the constraints hold exactly when the checks of the plain verifier do; as prover it writes a padded honest proof, as verifier it uses the given one |
| `SumcheckRun.Prove` | src/sumcheck/mod.rs:148-206 | fails exactly on a wrong number of inputs, without touching the transcript; otherwise returns an honest proof and its constraints |
| `SumcheckRun.LinearConstraintsOf` | src/sumcheck/mod.rs:219-240 | fails exactly on a wrong number of public inputs; otherwise, for any proof, row j of the result holds of a vector exactly when the check of layer j holds with its pads, and the last row exactly when the inputs match the last claims |
| `SumcheckRun.Lockstep` | src/sumcheck/mod.rs:240-620 | prover and verifier that start from equal transcripts end with equal constraints and equal transcripts, for every evaluation |
| `Circuits.Evaluate` | src/circuit.rs:193-300 | evaluation succeeds exactly when every assertion gate of every layer is zero, and returns the wires of every layer, each the sum over the quads of its gate of the constant from the table times the two wires below |
| `Circuits.LevelsExactly` | src/circuit.rs:193-300 | the wires of an evaluation are the only ones in which every wire of every level is the sum over the quads of its gate |
| `Circuits.AcceptedExactly` | src/circuit.rs:193-300 | a circuit accepts exactly the inputs that start with one and for which the gates of all quads with a zero constant output zero |
| `Circuits.CombinedQuadClaim` | src/circuit.rs:307-332 | the quad that combines products and assertions, bound to a table of gates, sums to the inner product of the table with the outputs of the layer, because the two kinds of gates are disjoint and assertions vanish |
| `Bind.BoundElementAt` | src/sumcheck/bind/mod.rs:73-100 | the three shortcuts for binding to 0, to 1 and to the third point all give the linear interpolation |
| `Bind.BindInPlace` | src/sumcheck/bind/mod.rs:58-71 | overwriting the front of the array while reading further back gives the array bound at the point |
| `Bind.BindEq` | src/sumcheck/bind/mod.rs:120-126 | the combined table is the first table plus the scaled second one |
| `Bind.EqBinds` | src/sumcheck/bind/mod.rs:120-163 | the inner product with the doubling table is the array bound to all variables one after the other, for arrays of any length |
| `Bind.PairDotSum` | src/sumcheck/mod.rs:374-421 | p(0) + p(1) is the inner product of the unbound arrays, so that p(1) need not be sent |
| `Bind.PairDotLagrange` | src/fields/mod.rs:223-245 | the round polynomial at any point follows from its values at 0, 1 and the third point by the Lagrange basis of the code |
| `Sparse.InterleaveInjective` | src/sumcheck/bind/sparse.rs:256-277 | interleaving the bits of two wire numbers loses nothing |
| `Sparse.Mates` | src/sumcheck/bind/sparse.rs:232-247 | in a sorted quad two entries fall together when bound exactly if they are neighbours 2i and 2i + 1, which is what the code tests |
| `Sparse.HandBoundIncreasing` | src/sumcheck/bind/sparse.rs:391-453 | a quad sorted for one hand is sorted for the other hand after binding, so that hands can alternate without sorting |
| `Sparse.BindHand` | src/sumcheck/bind/sparse.rs:391-453 | the compaction in place gives the bound and merged quad |
| `Sparse.BindGate` | src/sumcheck/bind/sparse.rs:477-517 | the compaction in place gives the quad bound to the table of gates |
| `Sparse.RoundClaim` | src/sumcheck/mod.rs:374-498 | the sum over the bound quad is the Lagrange combination of the claim, p(0) and p at the third point |
| `Symbolic.AddTermValue` | src/sumcheck/constraints/mod.rs:140-147 | adding a term to a symbolic expression adds its value under any witness |
| `Symbolic.ScaleValue` | src/sumcheck/constraints/mod.rs:149-175 | scaling a symbolic expression scales its value under any witness |
| `Witness.LayoutIsBijection` | src/witness.rs:45-97 | every position below the length belongs to exactly one private input, polynomial pad or wire pad |
| `Witness.FilledSlot` | src/witness.rs:123-154 | at each position the filled witness has the input or the pad that belongs there, and the product of the two wire pads at the third wire position |
| `Witness.FilledQuadratic` | src/sumcheck/constraints/mod.rs:43-60 | a filled witness satisfies the quadratic constraint of every layer |
| `Witness.PadsAreFresh` | src/witness.rs:123-154 | every pad in a filled witness is an element of the random stream of its own |
| `Ligero.HonestChecks` | src/ligero/verifier.rs:71-253 | for an honest commitment and proof, all checks together hold if and only if the combined linear constraint holds of the witness |
| `Ligero.ChecksAreEquations` | src/ligero/verifier.rs:71-253 | for any proof the checks of the verifier are the equations at the requested columns, the equation for the dot product and the inclusion of the leaves |
| `Ligero.AcceptanceIsEquations` | src/ligero/verifier.rs:71-253 | the same for the challenges and columns of the transcript |
| `Ligero.AcceptedColumnsAreCommitted` | src/ligero/verifier.rs:230-253 | against the commitment to a tableau, every column of an accepted proof hashes like the committed column, or two nodes of the tree collide |
| `Ligero.ViolationIsRejected` | src/ligero/verifier.rs:194-229 | a prover that commits to a witness with exactly one violated quadratic constraint is rejected if the blind of its row is not zero |
| `Ligero.WrongCopyIsRejected` | src/ligero/verifier.rs:128-154 | a prover whose rows for the quadratic constraints hold exactly one wrong copy of a witness is rejected if the weight of that copy is not zero |
| `Ligero.OneRowIsRejected` | src/ligero/verifier.rs:128-154 | a prover whose witness violates exactly one linear constraint is rejected if the weight of that row is not zero |
| `Ligero.ProofHistoryDetermines` | src/ligero/prover.rs:208-230 | the transcript from which columns are requested determines the four vectors of the proof |
| `LigeroEquations.LowDegreeMeans` | src/ligero/verifier.rs:100-127 | the low-degree check holds if and only if at every requested column the combination of the sent column is the value of the polynomial through the low-degree proof |
| `LigeroEquations.DotRowMeans` | src/ligero/verifier.rs:155-193 | the dot check holds if and only if at every requested column the sum of products is the value of the polynomial through the dot proof |
| `LigeroEquations.QuadraticMeans` | src/ligero/verifier.rs:194-229 | the quadratic check holds if and only if at every requested column the blind row plus the weighted sum of z - x * y is the value of the polynomial through the two sent parts with zeros between them |
| `LigeroEquations.ProductMeans` | src/ligero/verifier.rs:128-154 | the dot product check holds if and only if the witness positions of the dot proof sum to the combination of the right hand sides |
| `LigeroEquations.AgreeingCodewords` | src/ligero/verifier.rs:71-253 | two rows of degree below m that agree in m columns are equal |
| `LigeroEquations.QuadraticCheckFinds` | src/ligero/verifier.rs:194-229 | with no more violated positions than requested columns, the quadratic check holds exactly when there is no violation |
| `Ligero.LigeroCompleteness` | src/ligero/verifier.rs:71-253 | a witness that meets the linear and quadratic constraints gives a proof that the verifier accepts, for every parameter set, randomness and challenge |
| `Ligero.CommitProveVerify` | src/ligero/prover.rs:65-266 | committing, proving and verifying with two transcripts in the same state accepts and leaves both in the same state |
| `Ligero.Prove` | src/ligero/prover.rs:93-266 | the accumulating loops produce the proof of the run, and the transcript ends with the request for columns |
| `Ligero.Verify` | src/ligero/verifier.rs:71-253 | accepts exactly when the low-degree, dot, quadratic and Merkle checks hold for the challenges of the transcript; for any proof that is exactly when the equations between the sent columns and the sent rows hold at every requested column |
| `Ligero.Commit` | src/ligero/tableau.rs:406-431 | the tree is built over the hashes of the nonces and the columns beyond the first DBLOCK |
| `Ligero.Generate` | src/ligero/mod.rs:62-127 | the challenges are drawn after the hash of the constraints is written, in the order blind, linear, quadratic, blind |
| `LigeroChecks.LowDegreeCheckPasses` | src/ligero/verifier.rs:100-127 | on an honest tableau the requested columns of the sum of rows agree with the extension of the low-degree proof |
| `LigeroChecks.DotRowCheckPasses` | src/ligero/verifier.rs:155-193 | on an honest tableau the requested columns of the dot row agree with the extension of the dot proof |
| `LigeroChecks.DotProductCheckDecides` | src/ligero/verifier.rs:128-154 | on an honest tableau the dot product check holds if and only if the combined linear constraint holds of the witness |
| `LigeroChecks.QuadraticCheckPasses` | src/ligero/verifier.rs:194-229 | on an honest tableau the requested columns of the quadratic row agree with the extension of the quadratic proof |
| `LigeroChecks.StitchedProof` | src/ligero/prover.rs:458-467 | the middle of the quadratic proof is zero, so the two parts that are sent determine it |
| `LigeroRows.LdtRowCodeword` | src/ligero/prover.rs:111-127 | the random combination of rows has degree below BLOCK |
| `LigeroRows.DotRowCodeword` | src/ligero/prover.rs:128-171 | the dot row, a sum of products of two rows of degree below BLOCK, has degree below DBLOCK |
| `LigeroRows.QuadRowCodeword` | src/ligero/prover.rs:181-207 | the quadratic row has degree below DBLOCK |
| `LigeroRows.QuadRowIsZero` | src/ligero/prover.rs:181-207 | the quadratic row vanishes at the witness positions if the quadratic constraints hold |
| `LigeroRows.DotRowSum` | src/ligero/prover.rs:128-171 | the witness positions of the dot row sum to the inner product of the vector with the witness and its copies |
| `InnerProduct.InnerProductIdentity` | src/ligero/prover.rs:274-323 | the challenges added at the copies and subtracted at the originals cancel, and what is left is the combination of the left hand sides of the linear constraints |
| `InnerProduct.InnerProductMeans` | src/ligero/prover.rs:274-323 | whatever the constraint rows hold, the vector weighs the left hand sides of the linear constraints and, for every quadratic constraint, the three differences between its copies and the witnesses they copy |
| `InnerProduct.WrongCopyShows` | src/ligero/prover.rs:274-323 | exactly one wrong copy with a weight that is not zero makes the differences not cancel |
| `InnerProduct.AllCopied` | src/ligero/tableau.rs:330-392 | every quadratic constraint has its copies if a row has room for as many as are laid out for it |
| `InnerProduct.InnerProductVector` | src/ligero/prover.rs:274-323 | the loops over terms, rows of copies and positions produce that vector |
| `Constraints.AlphaCombination` | src/ligero/verifier.rs:128-154 | if every constraint holds, the combinations of both sides by the challenges are equal |
| `Constraints.OneRowShows` | src/ligero/verifier.rs:128-154 | if exactly one constraint is violated and its weight is not zero, the combinations of the two sides differ |
| `Tableau.Build` | src/ligero/tableau.rs:193-392 | every row is the extension of its random elements, witnesses and padding, and the random elements are used in order |
| `Tableau.RandomCellsAreFresh` | src/ligero/tableau.rs:193-392 | every random cell of the tableau holds an element of the random stream of its own |
| `Tableau.BuildIsGood` | src/ligero/tableau.rs:193-392 | all rows have low degree, the test rows vanish or sum to zero where they must, and the constraint rows hold the witness and its copies |
| `Tableau.LinearTestSumsToZero` | src/ligero/tableau.rs:193-260 | the element computed last makes the witness positions of the linear test row sum to zero |
| `Merkle.MerkleCompleteness` | src/ligero/merkle.rs:180-281 | for every number of leaves and every non-empty request in range, repeated or not, the honest proof is accepted |
| `Merkle.MerkleBinding` | src/ligero/merkle.rs:165-281 | if verification accepts against the root of a built tree, an included node that no later one overrides is the leaf of the tree, or at some inner node the tree and the partial tree of the proof have different pairs of children with the same hash |
| `Merkle.MerkleBindingDistinct` | src/ligero/merkle.rs:165-281 | with distinct indices every included node is the leaf of the tree, or such a node exists |
| `Merkle.OverriddenNodeIsFree` | src/ligero/merkle.rs:220-281 | an included node that a later one overrides can be replaced by any other without changing the verdict |
| `Merkle.RepeatedIndexIsNotBound` | src/ligero/merkle.rs:220-281 | a wrong node followed by the right one for the same index is accepted |
| `Merkle.ProofNodeKept` | src/ligero/merkle.rs:239-281 | a proof node is not overwritten when the inner nodes are recomputed |
| `Merkle.MarkTree` | src/ligero/merkle.rs:180-195 | exactly the requested leaves and the nodes above them are marked |
| `Merkle.MerkleTree.Build` | src/ligero/merkle.rs:165-174 | every inner node is the hash of its children and the leaves are unchanged |
| `Merkle.MerkleTree.Prove` | src/ligero/merkle.rs:198-217 | the proof lists the unmarked siblings of marked nodes, from the bottom of the tree up |
| `Merkle.Verify` | src/ligero/merkle.rs:220-281 | accepts exactly when the lengths agree, the indices are in range, there are enough proof nodes and the recomputed root is the given one |
| `Ntt.NttBitReversed` | src/fields/ntt.rs:39-82 | the strided loops in place are the stages of the transform |
| `Ntt.NttIsDft` | src/fields/ntt.rs:39-82 | for every power-of-two length, the value at the bit reversal of j is the sum of a_i * omega^(i * j) |
| `Ntt.ScaledInverseNttBitReversed` | src/fields/ntt.rs:99-140 | the loops in place are the inverse stages in the opposite order |
| `Ntt.InverseOfNtt` | src/fields/ntt.rs:39-140 | the scaled inverse of the forward transform is the input times its length, for every array |
| `Ntt.PointwiseIsConvolution` | src/fields/extend_p.rs:140-200 | multiplying transforms is transforming the cyclic convolution |
| `Extend.ExtendNodes` | src/fields/extend_p.rs:140-201 | the output at every k is the value at k of the polynomial of degree below the number of nodes through the nodes |
| `Extend.ExtendPrecompute` | src/fields/extend_p.rs:38-137 | the context holds the transformed scaled reciprocals and both lists of coefficients |
| `Extend.ConvolutionTail` | src/fields/extend_p.rs:140-201 | the zeros that pad the input add nothing at the positions that are used |
| `Extend.InterpolationFormula` | src/fields/extend_p.rs:38-201 | the alternating sum of binomials, node values and reciprocals, times the coefficient applied afterwards, is the value of the polynomial |
| `Extend.BinomialCoefficients` | src/fields/extend_p.rs:63-75 | the recurrence gives the binomial coefficients exactly |
| `Extend.AfterCoefficients` | src/fields/extend_p.rs:90-115 | the recurrence gives (-1)^d (k - d) (k choose d) exactly |
| `Extend.BatchedInversionSequence` | src/fields/extend_p.rs:204-242 | one inversion gives the reciprocals of 1, 2, ..., and zero at zero |
| `Extend.ExpVartime` | src/fields/mod.rs:66-83 | square and multiply computes the power |
| `Polynomials.ExtensionUnique` | src/fields/extend_p.rs:140-201 | every polynomial of low degree through the nodes has the same extension |
| `Polynomials.CodewordMul` | src/ligero/verifier.rs:71-253 | the product of two rows is a row of the added degree |
| `Polynomials.CodewordIsExtension` | src/ligero/verifier.rs:71-253 | a row of low degree is the extension of its own first values |
| `TranscriptOracle.RunHistory` | src/transcript.rs:115-295 | over any sequence of messages and requests, the transcript of bytes answers like one oracle on histories, and stops exactly where a rejection loop exceeds its bound |
| `TranscriptOracle.ByteOracleIsValid` | src/transcript.rs:235-295 | that oracle has the shape on which the protocols rest: the right number of elements, and distinct naturals in range |
| `TranscriptOracle.GenerateChallenge` | src/transcript.rs:235-247 | the elements of a challenge are, one after the other, the first blocks of the stream that the field accepts |
| `TranscriptOracle.ElementsAreYielded` | src/transcript.rs:362-372 | every element found is preceded by rejected blocks only, and the next one starts where it ends |
| `TranscriptOracle.WrittenAreFrames` | src/transcript.rs:115-222 | what is hashed before a challenge are the frames of all messages so far, and nothing else |
| `TranscriptOracle.EncodedInjective` | src/transcript.rs:115-222 | messages of the same kind with the same bytes are equal if elements decode |
| `TranscriptBytes.Run` | src/transcript.rs:177-247 | over every interleaving of writes and requests, the answers are successive bytes of the stream since the last write |
| `TranscriptBytes.Transcript.NextByte` | src/transcript.rs:374-387 | the next byte is byte p % 16 of the encryption of block p / 16 under the hash of everything written |
| `TranscriptBytes.Transcript.WriteZeroArray` | src/transcript.rs:177-195 | writing zeros in chunks feeds the same bytes as writing that many zero bytes at once |
| `TranscriptBytes.Transcript.WriteFieldElementArray` | src/transcript.rs:128-150 | feeds one frame and discards the cached stream |
| `Framing.FramesRoundTrip` | src/transcript.rs:115-222 | in Normal mode the hashed bytes decode to exactly the messages |
| `Framing.InjectiveExactly` | src/transcript.rs:43-53 | for every size of elements, the frames determine the messages if and only if the mode is Normal |
| `Framing.V3FramesCollide` | src/transcript.rs:43-53 | for every size of elements, two different message sequences with the same frames in V3Compatibility mode |
| `Framing.ShapedFramesInjective` | src/transcript.rs:115-222 | in both modes, messages of the same kinds and lengths with the same frames are equal |
| `Sampling.GenerateNaturalsWithoutReplacement` | src/transcript.rs:281-295 | the swaps in place return distinct naturals in range, and are the successive selections by the naturals that the stream yields one after the other |
| `Sampling.PicksInjective` | src/transcript.rs:281-295 | different draws give different selections |
| `Sampling.EverySelectionIsPicked` | src/transcript.rs:281-295 | every selection without repeats comes from some draws |
| `Sampling.GenerateNatural` | src/transcript.rs:250-277 | returns the first candidate of the stream, read as a little-endian value modulo the power of two, that is below max, and uses exactly the bytes up to its end |
| `Sampling.NaturalFromFirst` | src/transcript.rs:250-277 | if the first k candidates are at least max and the next is below, that one is drawn |
| `Sampling.NaturalFromNone` | src/transcript.rs:250-277 | nothing is drawn exactly when every candidate within the bound is at least max |
| `Sampling.EveryNaturalIsDrawn` | src/transcript.rs:250-277 | every natural below max is drawn for some bytes of the stream, its own encoding |
| `Sampling.FirstSelected` | src/transcript.rs:281-295 | the first entry of a selection is the first natural that the stream yields |
| `Sampling.PicksHeld` | src/transcript.rs:281-295 | entry i of a selection is what the drawn position holds after the swaps before |
| `Sampling.MaskedIsLow` | src/transcript.rs:250-277 | clearing the excess bits of the last byte reduces the value modulo the power of two |
| `Sampling.MoreAttempts` | src/transcript.rs:262-276 | the bound on the attempts does not change what a rejection loop finds |
| `Gf2128.GaloisMultiply` | src/fields/field2_128/backend_naive_loop.rs:4-39 | the result is the remainder of the polynomial product over GF(2) modulo x^128 + x^7 + x^2 + x + 1 |
| `Gf2128.CarrylessProduct` | src/fields/field2_128/backend_naive_loop.rs:4-21 | bit k of the product is the parity of the pairs of bits whose positions add up to k |
| `Gf2128.Reduce` | src/fields/field2_128/backend_naive_loop.rs:22-32 | the downward loop keeps the residue class and clears every bit from 128 up |
| `Gf2128.ProductUnique` | src/fields/field2_128/backend_naive_loop.rs:4-39 | division determines the remainder, so the product is well defined |
| `Gf2128.ProductDistributes` | src/fields/field2_128/backend_naive_loop.rs:4-39 | the product distributes over exclusive or |
| `Gf2128.ComposeRoundTrip` | src/fields/field2_128/backend_naive_loop.rs:33-50 | bits composed to an integer and decomposed again are the same bits |
| `Ecdsa.Ladder` | src/nymauth/ecdsa.rs:235-255 | after every step the accumulator is the combination of the prefixes of the three scalars, and each recorded index is the odd number of its bits |
| `Ecdsa.SelectLadder` | src/mdoc_zk/ec.rs:585-630 | the ladder with conditional assignments records the same steps |
| `Ecdsa.LadderEndsAtIdentity` | src/nymauth/ecdsa.rs:164-259 | once R is recovered from the signature, any scalars that agree with the digest and r modulo n end the ladder at the identity |
| `Ecdsa.SignatureEquation` | src/nymauth/ecdsa.rs:180-195 | s * R is e * G + r * Q for the recovered R |
| `Ecdsa.Verification` | src/nymauth/ecdsa.rs:164-259 | each error is returned exactly under its condition, the final identity check never rejects, and an accepted signature has a full trace that ends at the identity |
| `Ecdsa.FillEcdsaWitness` | src/mdoc_zk/ec.rs:485-633 | the same for the second implementation, which requires the x-coordinate of R to be r itself and runs over the unreduced hash |
| `Ecdsa.ScalarMul` | src/nymauth/ecdsa.rs:112-121 | double and add computes the multiple |
| `Ecdsa.BitIsValueBit` | src/nymauth/ecdsa.rs:71-73 | bit i of big-endian bytes is bit i of their value |
| `RunCoder.EncodeColumns` | src/ligero/prover.rs:417-448 | the loop terminates, although a run may be empty, and writes every element once and in order |
| `RunCoder.DecodeColumns` | src/ligero/prover.rs:352-389 | the loop returns exactly the expected number of elements or fails |
| `RunCoder.RunsRoundTrip` | src/ligero/prover.rs:352-448 | whenever encoding succeeds, decoding returns the same elements and leaves the bytes after them |
| `RunCoder.EncodesWhenRunsFit` | src/ligero/prover.rs:417-448 | for any number of elements, encoding succeeds if and only if the counts put only subfield elements into subfield runs |
| `RunCoder.EncodesExactly` | src/ligero/prover.rs:417-448 | below the limit on runs, with f elements outside the subfield, encoding succeeds if and only if after the first f elements no subfield element follows one outside |
| `RunCoder.InterleavedColumnsFail` | src/ligero/prover.rs:417-448 | subfield, full, subfield cannot be encoded |
| `RunCoder.CountRun` | src/ligero/prover.rs:420-430 | the counting loop counts matches in all that is left, up to the limit |
| `Lfc2.Rd.Uleb` | src/nymauth/lfc2.rs:69-79 | reads at most four groups of seven bits and advances by exactly their number, or fails |
| `Lfc2.Unzigzag` | src/nymauth/lfc2.rs:100-102 | even codes are v / 2, odd codes are -(v + 1) / 2 modulo 2^32 |
| `Lfc2.ReadLayer` | src/nymauth/lfc2.rs:150-184 | reads a layer as the format says, and every index in it is in range |
| `Lfc.One` | src/nymauth/lfc2.rs:116-216 | conversion succeeds exactly when the input starts with a readable circuit that fits the output budget and in which no index moves by 2^23 or more; the result is the LFC1 encoding of a circuit whose terms are the sums of the entries of the token stream, field by field, and the exact number of bytes read |
| `Lfc.ExpansionMeans` | src/nymauth/lfc2.rs:184-213 | the entries are the segments of the tokens in order, and term i has the sums of the first i + 1 of them modulo 2^32, each field by its own differences, and the constant of entry i |
| `Lfc.ExpandedCircuitMeans` | src/nymauth/lfc2.rs:116-216 | the same for every layer of a circuit, with all other fields unchanged |
| `Lfc.TermBytes` | src/nymauth/lfc2.rs:90-112 | a term is written as twelve bytes: three numbers that are twice the difference to the term before, plus one if it is negative, and the constant |
| `Lfc2Format.ReaderInvertsWriter` | src/nymauth/lfc2.rs:116-184 | the reader finds every circuit that fits the format, as an independent writer of the format puts it |
| `Lfc2Format.UlebRoundTrip` | src/nymauth/lfc2.rs:69-79 | numbers written in groups of seven bits read back |
| `Lfc.ToLegacyPair` | src/nymauth/lfc2.rs:221-236 | succeeds exactly for two such circuits with nothing after them whose conversions fit together |
| `Lfc.ConvertThenDecode` | src/circuit.rs:67-103 | decoding a successful conversion for the field of the circuit consumes all of it and gives a circuit of which term i has the sums of the first i + 1 entries modulo 2^32, each of gate, left and right by its own differences, and the constant of entry i; for another field it fails |
| `Lfc.CircuitRoundTrip` | src/circuit.rs:67-103 | the decoder reads every encoded circuit back and leaves the bytes after it |
| `Lfc.LayerRoundTrip` | src/circuit.rs:544-563 | the same for a layer |
| `Lfc.TermsRoundTrip` | src/circuit.rs:629-648 | terms relative to the one before read back without overflow or underflow |
| `Lfc.DeltaRoundTrip` | src/lib.rs:106-142 | a difference reads back, whatever the values |
| `Lfc.TermsFailExactly` | src/nymauth/lfc2.rs:90-112 | writing terms fails if and only if some index moves by 2^23 or more |
| `Lfc.WriteLayer` | src/nymauth/lfc2.rs:184-213 | a layer is converted exactly unless a limit is exceeded or an index moves too far |
| `Cbor.EndDepth` | src/nymauth/cbor.rs:32-81 | a successful walk ends after its start and inside the buffer, at the end of the item |
| `CborItems.WalkerExactly` | src/nymauth/cbor.rs:32-81 | the walk succeeds and ends at q if and only if a well-formed data item of nesting at most 16 stands from p up to q |
| `CborItems.ItemOnce` | src/nymauth/cbor.rs:11-81 | at most one data item stands at a position, and it has one end |
| `CborItems.TooDeep` | src/nymauth/cbor.rs:32-35 | a data item of deeper nesting is refused |
| `CborItems.MapGetFinds` | src/nymauth/cbor.rs:100-115 | in every map of bounded nesting the lookup returns where the value of the first entry with the key stands, or that there is none |
| `CborItems.ArrayItemFinds` | src/nymauth/cbor.rs:121-134 | in every array of bounded nesting the position returned is where the item with that number stands |
| `Cbor.EndWithTail` | src/nymauth/cbor.rs:32-81 | bytes after an item do not change where it ends |
| `Cbor.HeadRoundTrip` | src/nymauth/challenge.rs:38-46 | the reader recovers every head that the writer emits, wherever it stands |
| `Cbor.StringRoundTrip` | src/nymauth/challenge.rs:48-54 | the walker steps over every string that the writer emits, and finds its content |
| `Cbor.MapGet` | src/nymauth/cbor.rs:100-115 | finds the value of the first entry with the key, absent or malformed otherwise |
| `Cbor.ArrayItem` | src/nymauth/cbor.rs:121-134 | returns the start of item i, reached by walking over the items before it, or fails |
| `Challenge.SessionTranscriptAccepted` | src/nymauth/challenge.rs:74-142 | the SessionTranscript that the derivation builds always passes the check on it |
| `Challenge.ChallengeDigest` | src/nymauth/challenge.rs:111-142 | succeeds exactly for a valid document type and a transcript of three items that fill it, and hashes a message that reads back to the transcript and the document type |
| `Challenge.DeriveChallenge` | src/nymauth/challenge.rs:74-106 | succeeds exactly on valid fields; the transcript passes the check in the digest and reads back to the label and the hash of an info whose three items are the origin, the nonce and the thumbprint or null, and the digest is the hash of a message that reads back to that transcript and the document type |
| `Challenge.TranscriptBinds` | src/nymauth/challenge.rs:74-106 | equal transcripts come from equal origins, nonces and thumbprints, or from two infos with the same hash |
| `Challenge.DigestBinds` | src/nymauth/challenge.rs:111-142 | equal digests come from equal transcripts and document types, or from two messages with the same hash |
| `Challenge.TranscriptReads` | src/nymauth/challenge.rs:74-106 | the transcript reads back to three items, the third an array of the label and the hash |
| `Challenge.MessageReads` | src/nymauth/challenge.rs:111-142 | the message that is hashed reads back to the transcript and the document type |

## Left out

- Foreign function interfaces, the C, WASM, Go and mobile wrappers, and parsing of mdoc documents.
- SHA-256 and AES (uninterpreted functions), random number sources (arbitrary streams) and wiping of buffers.
- Soundness and zero knowledge, which are statements about probability.
- The Montgomery field back ends, the subfield of GF(2^128) and the extension over it. Ligero is proved for any distinct
  evaluation points; `Extend.ExtendNodes` shows that the extension over a field of large characteristic is of that kind.
- The elliptic-curve formulas and the test that a point is on the curve: points form a commutative group in which every
  element has order n, and the inverse of s modulo n is given with its defining equation.
- Projective coordinates: `Ecdsa.Ladder` records points of the group, so the scaling of the first entry is not visible.
- Ecdsa.FillEcdsaWitness: the last accumulator, which the source checks and does not store, is recorded like the others,
  and the inverses that are stored for the circuit are left out.
- Extend.ExtendNodes: requires more evaluations than nodes, as the source asserts in debug builds; in release builds the
  source returns the first nodes instead.
- Sampling.GenerateNatural: the loop is bounded by a number of attempts, on which a value that is found does not depend; that
  a value is found is not claimed.
- TranscriptOracle.RunHistory: the answers are those of the source as long as no rejection loop exceeds that bound.
- Framing.InjectiveExactly: elements have at least one byte and fewer than 2^64 - 1, as lengths are written in eight bytes.
- RunCoder.EncodesExactly: stated below the limit of 2^25 elements in a run; `RunCoder.EncodesWhenRunsFit` covers all lengths.
- Uniqueness of Merkle proofs: verification ignores proof nodes after the last one it needs.
- Proof codecs other than the coder for columns, and the length bounds of machine integers in index arithmetic.
- The evaluation mode that ignores failed assertions, which only exists in debugging builds.
- Circuits are well formed as the source asserts when it loads them: sorted quads, disjoint kinds of gates, wire counts between
  powers of two, at least one quad per layer, and at most 2^40 outputs.
- SumcheckRun.Prove: outputs are zero, as the source asserts; otherwise it would abort.
- Ligero.Prove: the quadratic constraints hold, as the source asserts by checking the middle of the quadratic proof.
- Sparse.InterleaveInjective: interleaving is by recursion on the bits and not by shifts and masks on 64-bit words.
- Cbor.StringRoundTrip: the test for UTF-8 is an uninterpreted predicate, and lengths are below 2^32.
