/**
 The Longfellow prover and verifier for one circuit (src/zk_one_circuit/prover.rs, src/zk_one_circuit/verifier.rs),
 which run sumcheck and Ligero over one transcript, and the completeness of the whole proof system.
 */
module Longfellow {
  import opened Fields
  import opened Sums
  import opened Polynomials
  import opened Circuits
  import opened Constraints
  import opened Tableau
  import opened Options
  import SR = SumcheckRounds
  import SC = Sumcheck
  import Run = SumcheckRun
  import Script = SumcheckScript
  import Plain = SumcheckChecks
  import LG = Ligero
  import Wit = Witness
  import FS = FiatShamir
  import Merkle
  import Bytes

  datatype Proof<F, N, C> = Proof(session: seq<Bytes.Byte>, sumcheck: seq<SR.ProofLayer<F>>, commitment: N,
                                  ligero: LG.LigeroProof<F, N, C>)

  /** What prover and verifier agree on: `bytes` encodes a commitment for the transcript. */
  datatype System<!F, !N, !C> = System(
    setting: SR.Setting<F>,
    pts: seq<F>,
    parameters: LigeroParameters,
    hashes: LG.Hashes<F, N, C>,
    bytes: N -> seq<Bytes.Byte>)
  {
    function Layout(): TableauLayout {
      TableauLayout(parameters, setting.layout.Length(), setting.layout.NumLayers())
    }

    function Quadratic(): seq<QuadraticConstraint> {
      Wit.QuadraticConstraints(setting.layout)
    }
  }

  ghost predicate GoodSystem<F(!new), N, C>(R: Field<F>, Y: System<F, N, C>) {
    && IsField(R) && SC.GoodSetting(R, Y.setting) && FS.ValidOracle(Y.setting.oracle)
    && Y.Layout().Valid() && Distinct(Y.pts) && |Y.pts| >= Y.Layout().NumColumns()
  }

  // ----- The transcript before sumcheck -----

  ghost function ElementSteps<F>(xs: seq<F>, k: nat): FS.History<F>
    requires k <= |xs|
  {
    if k == 0 then [] else ElementSteps(xs, k - 1) + [FS.Write(FS.Element(xs[k - 1]))]
  }

  /** The session, the commitment, the circuit, the public inputs, a zero and a zero byte for every quad. */
  ghost function StartHistory<F>(R: Field<F>, session: seq<Bytes.Byte>, commitment: seq<Bytes.Byte>, c: Circuit<F>,
                                 publicInputs: seq<F>): FS.History<F> {
    [FS.Write(FS.Bytes(session))] + [FS.Write(FS.Bytes(commitment))] + [FS.Write(FS.Bytes(c.id))]
      + ElementSteps(publicInputs, |publicInputs|)
      + [FS.Write(FS.Element(R.zero))] + [FS.Write(FS.Zeros(c.NumQuads()))]
  }

  /** `Transcript::new`, the commitment and `initialize_transcript` of src/sumcheck/mod.rs */
  method StartTranscript<F(!new)>(R: Field<F>, oracle: FS.Oracle<F>, session: seq<Bytes.Byte>,
                                  commitment: seq<Bytes.Byte>, c: Circuit<F>, publicInputs: seq<F>)
      returns (transcript: FS.Transcript<F>)
    ensures fresh(transcript) && transcript.oracle == oracle
      && transcript.history == StartHistory(R, session, commitment, c, publicInputs)
  {
    transcript := new FS.Transcript(oracle, []);
    transcript.Append(FS.Bytes(session));
    transcript.Append(FS.Bytes(commitment));
    transcript.Append(FS.Bytes(c.id));
    ghost var before := transcript.history;
    for k := 0 to |publicInputs|
      invariant fresh(transcript) && transcript.oracle == oracle
        && transcript.history == before + ElementSteps(publicInputs, k)
    {
      transcript.Append(FS.Element(publicInputs[k]));
    }
    transcript.Append(FS.Element(R.zero));
    transcript.Append(FS.Zeros(c.NumQuads()));
  }

  lemma {:induction false} ElementStepsInjective<F>(xs: seq<F>, ys: seq<F>, k: nat)
    requires k <= |xs| && k <= |ys| && ElementSteps(xs, k) == ElementSteps(ys, k)
    ensures xs[..k] == ys[..k]
  {
    if k > 0 {
      var m := k - 1;
      var a, b := FS.Write(FS.Element(xs[m])), FS.Write(FS.Element(ys[m]));
      Script.SplitEnd(ElementSteps(xs, m), [a], ElementSteps(ys, m), [b]);
      assert [a][0] == [b][0];
      ElementStepsInjective(xs, ys, m);
      assert xs[..k] == xs[..m] + [xs[m]] && ys[..k] == ys[..m] + [ys[m]];
    }
  }

  lemma {:induction false} ElementStepsLength<F>(xs: seq<F>, k: nat)
    requires k <= |xs|
    ensures |ElementSteps(xs, k)| == k
  {
    if k > 0 {
      ElementStepsLength(xs, k - 1);
    }
  }

  /** The start of the transcript determines the session, the commitment, the circuit's name and the public inputs. */
  lemma StartHistoryDetermines<F>(R: Field<F>, session: seq<Bytes.Byte>, commitment: seq<Bytes.Byte>, c: Circuit<F>,
                                  xs: seq<F>,
                                  session': seq<Bytes.Byte>, commitment': seq<Bytes.Byte>, c': Circuit<F>, ys: seq<F>)
    requires StartHistory(R, session, commitment, c, xs) == StartHistory(R, session', commitment', c', ys)
    ensures session == session' && commitment == commitment' && c.id == c'.id && xs == ys
      && c.NumQuads() == c'.NumQuads()
  {
    var s, t := StartHistory(R, session, commitment, c, xs), StartHistory(R, session', commitment', c', ys);
    ElementStepsLength(xs, |xs|);
    ElementStepsLength(ys, |ys|);
    assert |s| == |xs| + 5 && |t| == |ys| + 5;
    assert s[0] == t[0] && s[1] == t[1] && s[2] == t[2] && s[|s| - 1] == t[|t| - 1];
    assert ElementSteps(xs, |xs|) == s[3..3 + |xs|] && ElementSteps(ys, |ys|) == t[3..3 + |ys|];
    ElementStepsInjective(xs, ys, |xs|);
    assert xs[..|xs|] == xs && ys[..|ys|] == ys;
  }

  // ----- Verifying -----

  ghost predicate WellFormed<F, N, C>(Y: System<F, N, C>, proof: Proof<F, N, C>)
    requires Y.Layout().Valid()
  {
    SC.CompleteProof(Y.setting, proof.sumcheck) && LG.WellFormedProof(Y.Layout(), proof.ligero)
  }

  ghost function StartOf<F, N, C>(R: Field<F>, Y: System<F, N, C>, proof: Proof<F, N, C>,
                                  statement: seq<F>): FS.History<F> {
    StartHistory(R, proof.session, Y.bytes(proof.commitment), Y.setting.circuit, statement)
  }

  /** The exact condition under which the verifier accepts. */
  ghost predicate Accepts<F, N, C>(R: Field<F>, Y: System<F, N, C>, statement: seq<F>, proof: Proof<F, N, C>)
    requires Y.Layout().Valid() && |Y.pts| >= Y.Layout().NumColumns() && WellFormed(Y, proof)
  {
    var h := StartOf(R, Y, proof, statement);
    && |statement| == Y.setting.circuit.numPublicInputs
    && LG.VerifierAccepts(R, Y.pts, Y.hashes, Y.Layout(), Y.setting.oracle,
      SC.RunHistory(R, Y.setting, proof.sumcheck, h), proof.commitment,
                          proof.ligero, SC.RunConstraints(R, Y.setting, statement, proof.sumcheck, h), Y.Quadratic())
  }

  /** `Verifier::verify` */
  method Verify<F(!new, ==), N(==), C>(R: Field<F>, Y: System<F, N, C>, statement: seq<F>, proof: Proof<F, N, C>)
      returns (ok: bool)
    requires GoodSystem(R, Y) && WellFormed(Y, proof)
    ensures ok <==> Accepts(R, Y, statement, proof)
    ensures ok <==> AcceptsByEquations(R, Y, statement, proof)
  {
    if |statement| != Y.setting.circuit.numPublicInputs {
      return false;
    }
    var transcript :=
      StartTranscript(R, Y.setting.oracle, proof.session, Y.bytes(proof.commitment), Y.setting.circuit, statement);
    var linear := Run.LinearConstraintsOf(R, Y.setting, statement, proof.sumcheck, transcript);
    SC.ConstraintsInRange(R, Y.setting, statement, proof.sumcheck, StartOf(R, Y, proof, statement));
    QuadraticsInRange(Y);
    ok :=
      LG.Verify(R, Y.pts, Y.hashes, Y.Layout(), transcript, proof.commitment, proof.ligero, linear.value,
      Y.Quadratic());
    AcceptanceMeans(R, Y, statement, proof);
  }

  lemma QuadraticsInRange<F, N, C>(Y: System<F, N, C>)
    ensures QuadraticInRange(Y.Quadratic(), Y.setting.layout.Length())
  {
    forall k | 0 <= k < |Y.Quadratic()|
      ensures Y.Quadratic()[k].x < Y.setting.layout.Length() && Y.Quadratic()[k].y < Y.setting.layout.Length()
        && Y.Quadratic()[k].z < Y.setting.layout.Length()
    {
      SC.WirePosition(Y.setting.layout, k);
    }
  }

  /** The transcript from which the columns are requested. */
  ghost function FinalHistory<F, N, C>(R: Field<F>, Y: System<F, N, C>, statement: seq<F>, proof: Proof<F, N,
                                       C>): FS.History<F>
    requires Y.Layout().Valid() && WellFormed(Y, proof)
  {
    var h := StartOf(R, Y, proof, statement);
    LG.ProofHistory(SC.RunHistory(R, Y.setting, proof.sumcheck, h), Y.Layout(),
      |SC.RunConstraints(R, Y.setting, statement, proof.sumcheck, h).rhs|,
                    |Y.Quadratic()|, proof.ligero)
  }

  lemma ConstraintCount<F, N, C>(R: Field<F>, Y: System<F, N, C>, statement: seq<F>, layers: seq<SR.ProofLayer<F>>,
                                 h: FS.History<F>)
    requires SC.GoodSetting(R, Y.setting) && SC.CompleteProof(Y.setting, layers)
    ensures |SC.RunConstraints(R, Y.setting, statement, layers, h).rhs| == |layers| + 1
  {
    SC.LayersNumbered(R, Y.setting, layers, h);
  }

  /**
   Everything the verifier reads before the columns are requested is in the transcript: equal final transcripts come
   from equal statements and equal proofs, except for the nonces, columns and hashes that answer the request.
   */
  lemma TranscriptDetermines<F, N, C>(R: Field<F>, Y: System<F, N, C>, statement: seq<F>, proof: Proof<F, N, C>,
                                      statement': seq<F>, proof': Proof<F, N, C>)
    requires Y.Layout().Valid() && SC.GoodSetting(R, Y.setting) && WellFormed(Y, proof) && WellFormed(Y, proof')
    requires FinalHistory(R, Y, statement, proof) == FinalHistory(R, Y, statement', proof')
    ensures statement == statement' && proof.session == proof'.session
      && Y.bytes(proof.commitment) == Y.bytes(proof'.commitment)
    ensures proof.sumcheck == proof'.sumcheck
    ensures proof.ligero.lowDegreeTestProof == proof'.ligero.lowDegreeTestProof
      && proof.ligero.dotProof == proof'.ligero.dotProof
    ensures proof.ligero.quadraticLow == proof'.ligero.quadraticLow
      && proof.ligero.quadraticHigh == proof'.ligero.quadraticHigh
  {
    var h, g := StartOf(R, Y, proof, statement), StartOf(R, Y, proof', statement');
    ConstraintCount(R, Y, statement, proof.sumcheck, h);
    ConstraintCount(R, Y, statement', proof'.sumcheck, g);
    LG.ProofHistoryDetermines(SC.RunHistory(R, Y.setting, proof.sumcheck, h),
      SC.RunHistory(R, Y.setting, proof'.sumcheck, g), Y.Layout(),
                              |proof.sumcheck| + 1, |Y.Quadratic()|, proof.ligero, proof'.ligero);
    Script.RunHistoryDetermines(R, Y.setting, proof.sumcheck, proof'.sumcheck, h, g);
    StartHistoryDetermines(R, proof.session, Y.bytes(proof.commitment), Y.setting.circuit, statement,
                           proof'.session, Y.bytes(proof'.commitment), Y.setting.circuit, statement');
  }

  // ----- What acceptance means -----

  /** The equations of Ligero hold, for the constraints of the statement and the sumcheck proof. */
  ghost predicate AcceptsByEquations<F(!new), N, C>(R: Field<F>, Y: System<F, N, C>, statement: seq<F>, proof: Proof<F,
                                                    N, C>)
    requires Y.Layout().Valid() && |Y.pts| >= Y.Layout().NumColumns() && WellFormed(Y, proof)
  {
    var h := StartOf(R, Y, proof, statement);
    && |statement| == Y.setting.circuit.numPublicInputs
    && LG.RunEquations(R, Y.pts, Y.hashes, Y.Layout(), Y.setting.oracle, SC.RunHistory(R, Y.setting, proof.sumcheck, h),
      proof.commitment,
                       proof.ligero, SC.RunConstraints(R, Y.setting, statement, proof.sumcheck, h), Y.Quadratic())
  }

  /** For any proof, honest or not, the verifier accepts exactly when the equations hold. */
  lemma AcceptanceMeans<F(!new), N, C>(R: Field<F>, Y: System<F, N, C>, statement: seq<F>, proof: Proof<F, N, C>)
    requires GoodSystem(R, Y) && WellFormed(Y, proof)
    ensures Accepts(R, Y, statement, proof) <==> AcceptsByEquations(R, Y, statement, proof)
  {
    var h := StartOf(R, Y, proof, statement);
    LG.AcceptanceIsEquations(R, Y.pts, Y.hashes, Y.Layout(), Y.setting.oracle,
      SC.RunHistory(R, Y.setting, proof.sumcheck, h), proof.commitment,
                             proof.ligero, SC.RunConstraints(R, Y.setting, statement, proof.sumcheck, h),
                               Y.Quadratic());
  }

  /** Check k of the plain verifier: a layer, or the inputs after the last one. */
  ghost predicate PlainCheck<F(!new), N, C>(R: Field<F>, Y: System<F, N, C>, statement: seq<F>, proof: Proof<F, N, C>,
                                            w: seq<F>, k: nat)
    requires GoodSystem(R, Y) && WellFormed(Y, proof) && k <= |proof.sumcheck|
  {
    var h := StartOf(R, Y, proof, statement);
    if k < |proof.sumcheck| then Plain.LayerPasses(R, Y.setting, proof.sumcheck, h, w, k)
    else Plain.InputCheck(R, Y.setting, statement, proof.sumcheck, h, w)
  }

  lemma WrongCheckViolates<F(!new), N, C>(R: Field<F>, Y: System<F, N, C>, statement: seq<F>, proof: Proof<F, N, C>,
                                          w: seq<F>, k: nat)
    requires GoodSystem(R, Y) && WellFormed(Y, proof) && |statement| == Y.setting.circuit.numPublicInputs
      && QuadraticHold(R, Y.Quadratic(), w)
    requires k <= |proof.sumcheck| && forall c ::
      0 <= c <= |proof.sumcheck| ==> (PlainCheck(R, Y, statement, proof, w, c) <==> c != k)
    ensures ViolatesRow(R, SC.RunConstraints(R, Y.setting, statement, proof.sumcheck, StartOf(R, Y, proof, statement)),
      w, k)
  {
    var h := StartOf(R, Y, proof, statement);
    var linear := SC.RunConstraints(R, Y.setting, statement, proof.sumcheck, h);
    Plain.ConstraintsMean(R, Y.setting, statement, proof.sumcheck, h, w);
    forall c | 0 <= c <= |proof.sumcheck| ensures RowHolds(R, linear, w, c) <==> c != k {
      RowIsPlain(R, Y, statement, proof, w, c, linear);
    }
  }

  lemma RowIsPlain<F(!new), N, C>(R: Field<F>, Y: System<F, N, C>, statement: seq<F>, proof: Proof<F, N, C>, w: seq<F>,
                                  c: nat, linear: LinearConstraints<F>)
    requires GoodSystem(R, Y) && WellFormed(Y, proof) && QuadraticHold(R, Y.Quadratic(), w) && c <= |proof.sumcheck|
    requires Plain.ConstraintsAreChecks(R, Y.setting, statement, proof.sumcheck, StartOf(R, Y, proof, statement),
      linear, w)
    ensures RowHolds(R, linear, w, c) <==> PlainCheck(R, Y, statement, proof, w, c)
  {
    if c < |proof.sumcheck| {
      assert Plain.RowIsCheck(R, Y.setting, proof.sumcheck, StartOf(R, Y, proof, statement), linear, w, c);
      Plain.PadsHold(R, Y.setting.layout, w, c);
    }
  }

  /**
   A prover that commits to a witness and follows Ligero, but whose sumcheck proof, with the pads and inputs of that
   witness, fails exactly one check of the plain verifier, is rejected if the weight of that row is not zero.
   */
  lemma WrongCheckIsRejected<F(!new), N(!new), C>(R: Field<F>, Y: System<F, N, C>, statement: seq<F>, proof: Proof<F, N,
                                                  C>, w: seq<F>, T: seq<seq<F>>,
                                                  nonces: seq<C>, digests: seq<N>, k: nat)
    requires GoodSystem(R, Y) && WellFormed(Y, proof) && |statement| == Y.setting.circuit.numPublicInputs
      && k <= |proof.sumcheck|
    requires LG.HonestCommitment(R, Y.pts, Y.hashes, Y.Layout(), w, Y.Quadratic(), T, nonces, digests)
      && proof.commitment == digests[1]
    requires var h := StartOf(R, Y, proof, statement);
      var linear, g :=
        SC.RunConstraints(R, Y.setting, statement, proof.sumcheck, h), SC.RunHistory(R, Y.setting, proof.sumcheck, h);
      && LG.ProofOfRun(R, Y.pts, Y.Layout(), Y.setting.oracle, g, T, linear, Y.Quadratic(), nonces, digests,
        proof.ligero)
      && At(R, LG.RunChallenges(Y.setting.oracle, g, Y.Layout(), |linear.rhs|, |Y.Quadratic()|).linearConstraintAlphas,
        k) != R.zero
    requires forall c :: 0 <= c <= |proof.sumcheck| ==> (PlainCheck(R, Y, statement, proof, w, c) <==> c != k)
    ensures !Accepts(R, Y, statement, proof)
  {
    var h := StartOf(R, Y, proof, statement);
    var linear, g :=
      SC.RunConstraints(R, Y.setting, statement, proof.sumcheck, h), SC.RunHistory(R, Y.setting, proof.sumcheck, h);
    WrongCheckViolates(R, Y, statement, proof, w, k);
    SC.ConstraintsInRange(R, Y.setting, statement, proof.sumcheck, h);
    LG.OneRowIsRejected(R, Y.pts, Y.hashes, Y.Layout(), Y.setting.oracle, g, w, linear, Y.Quadratic(), T, nonces,
      digests, proof.ligero, k);
  }

  // ----- Proving -----

  /** All outputs of the circuit are zero. */
  ghost predicate ZeroOutputs<F>(R: Field<F>, c: Circuit<F>, inputs: seq<F>)
    requires |inputs| == c.LevelWires(c.NumLayers())
  {
    forall g :: 0 <= g < c.numOutputs ==> Level(R, c, inputs, 0)[g] == R.zero
  }

  lemma FilledIsWitness<F(!new)>(R: Field<F>, S: SR.Setting<F>, inputs: seq<F>, pad: nat -> F, w: seq<F>)
    requires SR.LayoutOf(S.layout, S.circuit) && |inputs| == S.circuit.numInputs
    requires w == Wit.Filled(R, S.layout, inputs[S.circuit.numPublicInputs..], pad, S.layout.NumLayers())
    ensures SC.WitnessOf(R, S, inputs, w) && QuadraticHold(R, Wit.QuadraticConstraints(S.layout), w)
  {
    var n, privateInputs := S.circuit.numPublicInputs, inputs[S.circuit.numPublicInputs..];
    forall i | 0 <= i < S.layout.numPrivateInputs ensures SC.HoldsInput(R, w, inputs, n, i) {
      Wit.FilledSlot(R, S.layout, privateInputs, pad, Wit.PrivateInput(i));
    }
    Wit.FilledQuadratic(R, S.layout, privateInputs, pad);
    var q := Wit.QuadraticConstraints(S.layout);
    forall j | 0 <= j < S.layout.NumLayers() ensures SC.WirePadsHold(R, S.layout, w, j) {
      assert q[j].x == S.layout.WireIndex(j);
    }
  }

  /** The sumcheck part and the Ligero part of an honest proof. */
  ghost predicate HonestParts<F(!new), N(!new), C>(R: Field<F>, Y: System<F, N, C>, inputs: seq<F>, w: seq<F>,
                                                   T: seq<seq<F>>, nonces: seq<C>, digests: seq<N>,
                                                   proof: Proof<F, N, C>)
    requires GoodSystem(R, Y) && |inputs| == Y.setting.circuit.numInputs
  {
    var S, statement := Y.setting, inputs[..Y.setting.circuit.numPublicInputs];
    var h := StartOf(R, Y, proof, statement);
    && SC.WitnessOf(R, S, inputs, w) && Accepted(R, S.circuit, inputs) && ZeroOutputs(R, S.circuit, inputs)
    && SC.CompleteProof(S, proof.sumcheck) && SC.HonestProof(R, S, inputs, w, h, proof.sumcheck, |proof.sumcheck|)
    && LG.HonestCommitment(R, Y.pts, Y.hashes, Y.Layout(), w, Y.Quadratic(), T, nonces, digests)
      && proof.commitment == digests[1]
    && LG.ProofOfRun(R, Y.pts, Y.Layout(), S.oracle, SC.RunHistory(R, S, proof.sumcheck, h), T,
                     SC.RunConstraints(R, S, statement, proof.sumcheck, h), Y.Quadratic(), nonces, digests,
                       proof.ligero)
  }

  /** Completeness of the proof system: the verifier accepts every honest proof. */
  lemma LongfellowCompleteness<F(!new), N(!new), C>(R: Field<F>, Y: System<F, N, C>, inputs: seq<F>, w: seq<F>,
                                                    T: seq<seq<F>>, nonces: seq<C>, digests: seq<N>,
                                                    proof: Proof<F, N, C>)
    requires GoodSystem(R, Y) && |inputs| == Y.setting.circuit.numInputs
    requires HonestParts(R, Y, inputs, w, T, nonces, digests, proof)
    ensures WellFormed(Y, proof) && Accepts(R, Y, inputs[..Y.setting.circuit.numPublicInputs], proof)
  {
    var S, statement := Y.setting, inputs[..Y.setting.circuit.numPublicInputs];
    var h := StartOf(R, Y, proof, statement);
    SC.SumcheckCompleteness(R, S, inputs, w, h, proof.sumcheck);
    LG.LigeroCompleteness(R, Y.pts, Y.hashes, Y.Layout(), S.oracle, SC.RunHistory(R, S, proof.sumcheck, h), w,
                          SC.RunConstraints(R, S, statement, proof.sumcheck, h), Y.Quadratic(), T, nonces, digests,
                            proof.ligero);
  }

  /** Commit to the tableau of the witness. */
  method CommitTo<F(!new), N(==, !new), C>(R: Field<F>, Y: System<F, N, C>, w: seq<F>, random: nat -> F,
                                           nonce: nat -> C, emptyNode: N, emptyNonce: C)
      returns (T: seq<seq<F>>, tree: Merkle.MerkleTree<N, C>)
    requires GoodSystem(R, Y) && |w| == Y.setting.layout.Length() && QuadraticHold(R, Y.Quadratic(), w)
    ensures fresh(tree) && tree.Valid() && tree.leafCount == Y.Layout().NumColumns() - Y.Layout().Dblock()
    ensures LG.HonestCommitment(R, Y.pts, Y.hashes, Y.Layout(), w, Y.Quadratic(), T, tree.nonces, tree.digests)
  {
    QuadraticsInRange(Y);
    T := Build(R, Y.pts, Y.Layout(), w, Y.Quadratic(), random);
    BuildIsGood(R, Y.pts, Y.Layout(), w, Y.Quadratic(), random, T);
    tree := LG.Commit(R, Y.hashes, Y.Layout(), T, nonce, emptyNode, emptyNonce);
  }

  /** Start the transcript and run the sumcheck prover on it. */
  method ProveSumcheck<F(!new, ==), N, C>(R: Field<F>, Y: System<F, N, C>, session: seq<Bytes.Byte>,
                                          commitment: seq<Bytes.Byte>, statement: seq<F>, levels: seq<seq<F>>,
                                          w: seq<F>, ghost inputs: seq<F>)
      returns (transcript: FS.Transcript<F>, linear: LinearConstraints<F>, layers: seq<SR.ProofLayer<F>>)
    requires IsField(R) && SC.GoodSetting(R, Y.setting) && FS.ValidOracle(Y.setting.oracle)
    requires |inputs| == Y.setting.circuit.numInputs && LevelsFrom(R, Y.setting.circuit, inputs, 0, levels)
    requires |w| == Y.setting.layout.Length() && statement == inputs[..Y.setting.circuit.numPublicInputs]
    ensures fresh(transcript) && transcript.oracle == Y.setting.oracle && SC.CompleteProof(Y.setting, layers)
    ensures var h := StartHistory(R, session, commitment, Y.setting.circuit, statement);
      && SC.HonestProof(R, Y.setting, inputs, w, h, layers, |layers|)
      && linear == SC.RunConstraints(R, Y.setting, statement, layers, h)
        && transcript.history == SC.RunHistory(R, Y.setting, layers, h)
    ensures LinearInRange(linear, Y.setting.layout.Length())
  {
    var S := Y.setting;
    transcript := StartTranscript(R, S.oracle, session, commitment, S.circuit, statement);
    ghost var h := transcript.history;
    var result := Run.Prove(R, S, levels, w, transcript, inputs);
    linear, layers := result.value.0, result.value.1;
    SC.ConstraintsInRange(R, S, statement, layers, h);
  }

  /** Sumcheck and Ligero over one transcript, for an accepted input and its witness. */
  method ProveCommitted<F(!new, ==), N(==, !new), C>(R: Field<F>, Y: System<F, N, C>, session: seq<Bytes.Byte>,
                                                     levels: seq<seq<F>>, w: seq<F>, T: seq<seq<F>>,
                                                     tree: Merkle.MerkleTree<N, C>, ghost inputs: seq<F>)
      returns (proof: Proof<F, N, C>)
    requires GoodSystem(R, Y) && |inputs| == Y.setting.circuit.numInputs
      && LevelsFrom(R, Y.setting.circuit, inputs, 0, levels)
    requires Accepted(R, Y.setting.circuit, inputs) && ZeroOutputs(R, Y.setting.circuit, inputs)
      && SC.WitnessOf(R, Y.setting, inputs, w)
    requires tree.Valid() && tree.leafCount == Y.Layout().NumColumns() - Y.Layout().Dblock()
    requires LG.HonestCommitment(R, Y.pts, Y.hashes, Y.Layout(), w, Y.Quadratic(), T, tree.nonces, tree.digests)
    ensures HonestParts(R, Y, inputs, w, T, tree.nonces, tree.digests, proof)
  {
    var S := Y.setting;
    var statement := levels[S.circuit.NumLayers()][..S.circuit.numPublicInputs];
    var root := tree.Root();
    var transcript, linear, layers := ProveSumcheck(R, Y, session, Y.bytes(root), statement, levels, w, inputs);
    var ligero := ProveConstraints(R, Y, transcript, w, T, tree, linear);
    proof := Proof(session, layers, root, ligero);
    PartsAreHonest(R, Y, inputs, w, T, tree.nonces, tree.digests, proof, linear, statement,
      StartOf(R, Y, proof, statement));
  }

  method ProveConstraints<F(!new, ==), N(==, !new), C>(R: Field<F>, Y: System<F, N, C>, transcript: FS.Transcript<F>,
                                                       w: seq<F>, T: seq<seq<F>>,
                                                       tree: Merkle.MerkleTree<N, C>, linear: LinearConstraints<F>)
      returns (ligero: LG.LigeroProof<F, N, C>)
    requires GoodSystem(R, Y) && transcript.oracle == Y.setting.oracle
      && LinearInRange(linear, Y.setting.layout.Length())
    requires tree.Valid() && tree.leafCount == Y.Layout().NumColumns() - Y.Layout().Dblock()
    requires LG.HonestCommitment(R, Y.pts, Y.hashes, Y.Layout(), w, Y.Quadratic(), T, tree.nonces, tree.digests)
    modifies transcript
    ensures LG.ProofOfRun(R, Y.pts, Y.Layout(), Y.setting.oracle, old(transcript.history), T, linear, Y.Quadratic(),
                          tree.nonces, tree.digests, ligero)
  {
    ligero := LG.Prove(R, Y.pts, Y.Layout(), transcript, T, tree, linear, Y.Quadratic(), w);
  }

  lemma PartsAreHonest<F(!new), N(!new), C>(R: Field<F>, Y: System<F, N, C>, inputs: seq<F>, w: seq<F>, T: seq<seq<F>>,
                                            nonces: seq<C>, digests: seq<N>,
                                            proof: Proof<F, N, C>, linear: LinearConstraints<F>, statement: seq<F>,
                                              h: FS.History<F>)
    requires GoodSystem(R, Y) && |inputs| == Y.setting.circuit.numInputs
      && statement == inputs[..Y.setting.circuit.numPublicInputs]
    requires SC.WitnessOf(R, Y.setting, inputs, w) && Accepted(R, Y.setting.circuit, inputs)
      && ZeroOutputs(R, Y.setting.circuit, inputs)
    requires SC.CompleteProof(Y.setting, proof.sumcheck)
      && SC.HonestProof(R, Y.setting, inputs, w, h, proof.sumcheck, |proof.sumcheck|)
    requires LG.HonestCommitment(R, Y.pts, Y.hashes, Y.Layout(), w, Y.Quadratic(), T, nonces, digests)
      && proof.commitment == digests[1]
    requires h == StartOf(R, Y, proof, statement)
      && linear == SC.RunConstraints(R, Y.setting, statement, proof.sumcheck, h)
    requires LG.ProofOfRun(R, Y.pts, Y.Layout(), Y.setting.oracle, SC.RunHistory(R, Y.setting, proof.sumcheck, h), T,
      linear, Y.Quadratic(),
                           nonces, digests, proof.ligero)
    ensures HonestParts(R, Y, inputs, w, T, nonces, digests, proof)
  {
  }

  /**
   `Prover::prove`: fails exactly when the number of inputs is wrong or the circuit does not accept them; otherwise the
   verifier accepts the proof, for every pad, tableau randomness, nonce and random oracle. The source asserts that the
   outputs of an accepted input are zero.
   */
  method Prove<F(!new, ==), N(==, !new), C>(R: Field<F>, Y: System<F, N, C>, session: seq<Bytes.Byte>, inputs: seq<F>,
                                            pad: nat -> F, random: nat -> F,
                                            nonce: nat -> C, emptyNode: N, emptyNonce: C)
      returns (r: Option<Proof<F, N, C>>)
    requires GoodSystem(R, Y)
    requires |inputs| == Y.setting.circuit.numInputs && Accepted(R, Y.setting.circuit, inputs) ==>
      ZeroOutputs(R, Y.setting.circuit, inputs)
    ensures r.Some? <==> |inputs| == Y.setting.circuit.numInputs && Accepted(R, Y.setting.circuit, inputs)
    ensures r.Some? ==> WellFormed(Y, r.value) && Accepts(R, Y, inputs[..Y.setting.circuit.numPublicInputs], r.value)
  {
    var S := Y.setting;
    if |inputs| != S.circuit.numInputs {
      return None;
    }
    var levels := Evaluate(R, S.circuit, inputs);
    if levels.None? {
      return None;
    }
    var w := Wit.FillWitness(R, S.layout, inputs[S.circuit.numPublicInputs..], pad);
    FilledIsWitness(R, S, inputs, pad, w);
    var T, tree := CommitTo(R, Y, w, random, nonce, emptyNode, emptyNonce);
    var proof := ProveCommitted(R, Y, session, levels.value, w, T, tree, inputs);
    LongfellowCompleteness(R, Y, inputs, w, T, tree.nonces, tree.digests, proof);
    r := Some(proof);
  }
}
