/**
 `SumcheckProtocol::run_protocol` of src/sumcheck/mod.rs, which runs as the prover on concrete values or as the verifier
 on a given proof: both emit the constraints of the proof, from the same transcript.
 */
module SumcheckRun {
  import opened Fields
  import opened Sums
  import opened Dots
  import opened Bind
  import opened Sparse
  import opened Options
  import opened Circuits
  import opened Constraints
  import opened SumcheckRounds
  import opened Sumcheck
  import opened SumcheckChecks
  import Sym = Symbolic
  import Wit = Witness
  import FS = FiatShamir

  /** The prover has the wires of every level and the witness; the verifier has the public inputs and the proof. */
  datatype Role<F> =
    | Prover(levels: seq<seq<F>>, witnesses: seq<F>)
    | Verifier(publicInputs: seq<F>, proof: seq<ProofLayer<F>>)

  datatype Wires<F> = Wires(left: seq<F>, right: seq<F>)
  {
    function For(hand: Hand): seq<F> {
      if hand.Left? then left else right
    }

    function With(hand: Hand, w: seq<F>): Wires<F> {
      if hand.Left? then Wires(w, right) else Wires(left, w)
    }
  }

  /** The variables of the inner loops. */
  datatype RoundData<F> = RoundData(quad: seq<QuadElement<F>>, claim: Sym.Expression<F>, left: seq<F>, right: seq<F>,
                                    wires: Wires<F>)

  ghost predicate Tracks<F>(d: RoundData<F>, st: RoundState<F>) {
    d.quad == st.quad && d.claim == st.claim && d.left == st.left && d.right == st.right
  }

  /** The prover's wires are those of the level, bound to the challenges so far. */
  ghost predicate WiresBound<F>(R: Field<F>, role: Role<F>, j: nat, d: RoundData<F>) {
    role.Prover? ==>
      j + 1 < |role.levels|
      && d.wires == Wires(BindAll(R, role.levels[j + 1], d.left), BindAll(R, role.levels[j + 1], d.right))
  }

  ghost predicate RoleFits<F>(S: Setting<F>, role: Role<F>) {
    match role
    case Prover(levels, witnesses) =>
      && |levels| == S.circuit.NumLayers() + 1 && |witnesses| == S.layout.Length()
      && forall l :: 0 <= l < |levels| ==> |levels[l]| == S.circuit.LevelWires(l)
    case Verifier(publicInputs, proof) =>
      |publicInputs| == S.circuit.numPublicInputs && CompleteProof(S, proof)
  }

  method EvaluatePolynomial<F(!new)>(R: Field<F>, K: SumcheckConstants<F>, a: seq<F>, wires: seq<F>, at: Binding<F>)
      returns (v: F)
    requires IsRing(R) && GoodConstants(R, K) && |a| == |wires| > 1
    ensures v == PairDot(R, a, wires, Point(R, K, at), HalfLength(|a|))
  {
    v := R.zero;
    for index := 0 to HalfLength(|a|)
      invariant v == PairDot(R, a, wires, Point(R, K, at), index)
    {
      v := R.add(v, R.mul(BoundElementAt(R, K, a, at, index), BoundElementAt(R, K, wires, at, index)));
    }
  }

  /** The prover's padded polynomial for one hand of a round. */
  method ProverPolynomial<F(!new)>(R: Field<F>, K: SumcheckConstants<F>, quad: seq<QuadElement<F>>, hand: Hand,
                                   wires: Wires<F>, witnesses: seq<F>, i: nat)
      returns (p: Polynomial<F>)
    requires IsRing(R) && GoodConstants(R, K) && |wires.For(hand)| > 1 && i + 1 < |witnesses|
    requires WiresBelow(quad, hand, |wires.For(hand)|) && WiresBelow(quad, Opposite(hand), |wires.For(Opposite(hand))|)
    ensures HonestPolynomial(R, K, quad, hand, wires.For(hand), wires.For(Opposite(hand)), witnesses, i, p)
  {
    var a := ComputeA(R, quad, hand, wires.For(hand), wires.For(Opposite(hand)));
    var p0 := EvaluatePolynomial(R, K, a, wires.For(hand), Binding.Zero);
    var p2 := EvaluatePolynomial(R, K, a, wires.For(hand), SumcheckP2);
    p := Polynomial(R.sub(p0, witnesses[i]), R.sub(p2, witnesses[i + 1]));
  }

  /** What the loops need of the circuit. */
  ghost predicate Runnable<F(!new)>(R: Field<F>, S: Setting<F>, role: Role<F>) {
    IsRing(R) && GoodSetting(R, S) && FS.ValidOracle(S.oracle) && RoleFits(S, role)
  }

  lemma BoundWidths<F>(R: Field<F>, S: Setting<F>, j: nat, round: nat, hand: Hand, level: seq<F>, st: RoundState<F>)
    requires j < S.circuit.NumLayers() && WellFormedLayer(R, S.circuit, j) && round < S.circuit.layers[j].logw
    requires |level| == S.circuit.layers[j].numWires && GoodShape(S, j, st, hand)
    requires |st.left| == (if hand.Left? then round else round + 1) && |st.right| == round
    ensures |Bound(R, level, st, hand)| > 1
    ensures WiresBelow(st.quad, hand, |Bound(R, level, st, hand)|)
      && WiresBelow(st.quad, Opposite(hand), |Bound(R, level, st, Opposite(hand))|)
  {
    BindAllWidth(R, level, st.left);
    BindAllWidth(R, level, st.right);
    LayerWidths(R, S.circuit, j, round);
  }

  /** The polynomial of one hand of a round: computed by the prover, taken from the proof by the verifier. */
  method PolynomialOf<F(!new)>(R: Field<F>, S: Setting<F>, j: nat, round: nat, hand: Hand, role: Role<F>,
                               d: RoundData<F>, ghost st: RoundState<F>)
      returns (p: Polynomial<F>)
    requires Runnable(R, S, role) && j < S.circuit.NumLayers() && round < S.circuit.layers[j].logw
    requires Tracks(d, st) && WiresBound(R, role, j, d) && GoodShape(S, j, st, hand)
    requires |st.left| == (if hand.Left? then round else round + 1) && |st.right| == round
    ensures role.Prover? ==>
      |d.wires.For(hand)| > 1 && HonestHand(R, S, j, round, hand, role.levels[j + 1], role.witnesses, st, p)
    ensures role.Verifier? ==>
      j < |role.proof| && round < |role.proof[j].polynomials| && p == role.proof[j].polynomials[round].For(hand)
  {
    match role
    case Prover(levels, witnesses) =>
      assert WellFormedLayer(R, S.circuit, j);
      BoundWidths(R, S, j, round, hand, levels[j + 1], st);
      PolynomialPosition(S, j, round, hand);
      p :=
        ProverPolynomial(R, S.K, d.quad, hand, d.wires, witnesses, S.layout.PolynomialIndex(j, round, HandIndex(hand)));
    case Verifier(_, proof) =>
      assert LayerFits(S, j, proof[j]);
      p := proof[j].polynomials[round].For(hand);
  }

  /** The body of the inner loop. */
  method RunHand<F(!new)>(R: Field<F>, S: Setting<F>, j: nat, round: nat, hand: Hand, role: Role<F>,
                          transcript: FS.Transcript<F>, d: RoundData<F>,
                          ghost st: RoundState<F>)
      returns (p: Polynomial<F>, next: RoundData<F>, ghost after: RoundState<F>)
    requires Runnable(R, S, role) && j < S.circuit.NumLayers() && round < S.circuit.layers[j].logw
    requires Tracks(d, st) && WiresBound(R, role, j, d) && GoodShape(S, j, st, hand)
    requires |st.left| == (if hand.Left? then round else round + 1) && |st.right| == round
    requires transcript.oracle == S.oracle && transcript.history == st.history
    modifies transcript
    ensures after == HandStep(R, S, j, round, hand, p, st) && Tracks(next, after) && transcript.history == after.history
    ensures WiresBound(R, role, j, next) && GoodShape(S, j, after, Opposite(hand))
    ensures role.Prover? ==> HonestHand(R, S, j, round, hand, role.levels[j + 1], role.witnesses, st, p)
    ensures role.Verifier? ==>
      j < |role.proof| && round < |role.proof[j].polynomials| && p == role.proof[j].polynomials[round].For(hand)
  {
    p := PolynomialOf(R, S, j, round, hand, role, d, st);
    var x := DrawBinding(R, p, transcript);
    after := HandStep(R, S, j, round, hand, p, st);
    HandStepShape(R, S, j, round, hand, p, st);
    next := BindRound(R, S, j, round, hand, role, d, p, x);
  }

  /** Commit to the padded polynomial and draw the next binding. */
  method DrawBinding<F(!new)>(R: Field<F>, p: Polynomial<F>, transcript: FS.Transcript<F>) returns (x: F)
    requires FS.ValidOracle(transcript.oracle)
    modifies transcript
    ensures x == Challenge(R, transcript.oracle, AfterPolynomial(old(transcript.history), p))
    ensures transcript.history == AfterPolynomial(old(transcript.history), p) + [FS.Draw(1)]
  {
    transcript.Append(FS.Element(p.p0));
    transcript.Append(FS.Element(p.p2));
    var challenge := transcript.GenerateChallenge(1);
    x := challenge[0];
  }

  /** Bind the wires of the hand and the quad to the challenge and update the claim. */
  method BindRound<F(!new)>(R: Field<F>, S: Setting<F>, j: nat, round: nat, hand: Hand, role: Role<F>, d: RoundData<F>,
                            p: Polynomial<F>, x: F)
      returns (next: RoundData<F>)
    requires IsRing(R) && GoodConstants(R, S.K) && j < S.layout.NumLayers() && round < S.layout.logw[j]
    requires Increasing(hand, d.quad) && GateIsBound(d.quad) && WiresBound(R, role, j, d)
      && (role.Prover? ==> |d.wires.For(hand)| > 1)
    ensures next.quad == HandBound(R, d.quad, hand, x)
    ensures next.claim == UpdatedClaim(R, S.K, d.claim, x, p, S.layout.PolynomialIndex(j, round, HandIndex(hand)))
    ensures next.left == (if hand.Left? then d.left + [x] else d.left)
      && next.right == (if hand.Left? then d.right else d.right + [x])
    ensures WiresBound(R, role, j, next)
  {
    var wires := d.wires;
    if role.Prover? {
      var bound := BindInPlace(R, S.K, d.wires.For(hand), Other(x));
      wires := d.wires.With(hand, bound);
      BindAllNext(R, role.levels[j + 1], if hand.Left? then d.left else d.right, x);
    }
    var quad := BindHand(R, d.quad, hand, x);
    var claim := UpdatedClaim(R, S.K, d.claim, x, p, S.layout.PolynomialIndex(j, round, HandIndex(hand)));
    next :=
      RoundData(quad, claim, if hand.Left? then d.left + [x] else d.left, if hand.Left? then d.right
      else d.right + [x], wires);
  }

  method RunRound<F(!new)>(R: Field<F>, S: Setting<F>, j: nat, round: nat, role: Role<F>, transcript: FS.Transcript<F>,
                           d: RoundData<F>,
                           ghost st: RoundState<F>)
      returns (ps: RoundPolynomials<F>, next: RoundData<F>, ghost after: RoundState<F>)
    requires Runnable(R, S, role) && j < S.circuit.NumLayers() && round < S.circuit.layers[j].logw
    requires Tracks(d, st) && WiresBound(R, role, j, d) && GoodShape(S, j, st, Left) && |st.left| == |st.right| == round
    requires transcript.oracle == S.oracle && transcript.history == st.history
    modifies transcript
    ensures after == RoundStep(R, S, j, round, ps, st) && Tracks(next, after) && transcript.history == after.history
    ensures WiresBound(R, role, j, next) && GoodShape(S, j, after, Left) && |after.left| == |after.right| == round + 1
    ensures role.Prover? ==> HonestRound(R, S, j, round, role.levels[j + 1], role.witnesses, st, ps)
    ensures role.Verifier? ==>
      j < |role.proof| && round < |role.proof[j].polynomials| && ps == role.proof[j].polynomials[round]
  {
    var p, mid, q;
    ghost var middle;
    p, mid, middle := RunHand(R, S, j, round, Left, role, transcript, d, st);
    q, next, after := RunHand(R, S, j, round, Right, role, transcript, mid, middle);
    ps := RoundPolynomials(p, q);
  }

  /** All rounds of a layer. */
  method RunRounds<F(!new)>(R: Field<F>, S: Setting<F>, j: nat, role: Role<F>, transcript: FS.Transcript<F>,
                            d: RoundData<F>, ghost st: RoundState<F>)
      returns (ps: seq<RoundPolynomials<F>>, next: RoundData<F>, ghost after: RoundState<F>)
    requires Runnable(R, S, role) && j < S.circuit.NumLayers()
    requires Tracks(d, st) && WiresBound(R, role, j, d) && GoodShape(S, j, st, Left) && |st.left| == |st.right| == 0
    requires transcript.oracle == S.oracle && transcript.history == st.history
    modifies transcript
    ensures |ps| == S.layout.logw[j] && after == Rounds(R, S, j, ps, st, |ps|) && Tracks(next, after)
      && transcript.history == after.history
    ensures WiresBound(R, role, j, next)
    ensures role.Prover? ==> HonestRounds(R, S, j, role.levels[j + 1], role.witnesses, st, ps, |ps|)
    ensures role.Verifier? ==> j < |role.proof| && ps == role.proof[j].polynomials
  {
    ps, next, after := [], d, st;
    for round := 0 to S.layout.logw[j]
      invariant Progress(R, S, j, role, st, ps, round, after) && Tracks(next, after)
        && transcript.history == after.history
      invariant WiresBound(R, role, j, next) && GoodShape(S, j, after, Left) && |after.left| == |after.right| == round
    {
      ps, next, after := NextRound(R, S, j, round, role, transcript, next, st, ps, after);
    }
    if role.Verifier? {
      WholeProof(S, role.proof, j, ps);
    }
  }

  lemma WholeProof<F>(S: Setting<F>, proof: seq<ProofLayer<F>>, j: nat, ps: seq<RoundPolynomials<F>>)
    requires ProofFits(S, proof) && FromProof(S, proof, j, ps) && j < S.layout.NumLayers() && |ps| == S.layout.logw[j]
    ensures ps == proof[j].polynomials
  {
    assert LayerFits(S, j, proof[j]);
  }

  /** One more round. */
  method NextRound<F(!new)>(R: Field<F>, S: Setting<F>, j: nat, round: nat, role: Role<F>, transcript: FS.Transcript<F>,
                            d: RoundData<F>, ghost st: RoundState<F>,
                            before: seq<RoundPolynomials<F>>, ghost current: RoundState<F>)
      returns (ps: seq<RoundPolynomials<F>>, next: RoundData<F>, ghost after: RoundState<F>)
    requires Runnable(R, S, role) && j < S.circuit.NumLayers() && round < S.circuit.layers[j].logw
    requires Progress(R, S, j, role, st, before, round, current) && Tracks(d, current) && WiresBound(R, role, j, d)
    requires GoodShape(S, j, current, Left) && |current.left| == |current.right| == round
    requires transcript.oracle == S.oracle && transcript.history == current.history
    modifies transcript
    ensures Progress(R, S, j, role, st, ps, round + 1, after) && Tracks(next, after)
      && transcript.history == after.history
    ensures WiresBound(R, role, j, next) && GoodShape(S, j, after, Left) && |after.left| == |after.right| == round + 1
  {
    var p;
    p, next, after := RunRound(R, S, j, round, role, transcript, d, current);
    ProgressNext(R, S, j, role, st, before, round, current, p, after);
    ps := before + [p];
  }

  /** The polynomials so far are honest, or the verifier's own, and `after` is the state they lead to. */
  ghost predicate Progress<F(!new)>(R: Field<F>, S: Setting<F>, j: nat, role: Role<F>, st: RoundState<F>,
                                    ps: seq<RoundPolynomials<F>>, round: nat, after: RoundState<F>)
    requires j < S.layout.NumLayers() && round <= S.layout.logw[j]
  {
    && |ps| == round && after == Rounds(R, S, j, ps, st, round)
    && (role.Prover? ==>
      j + 1 < |role.levels| && HonestRounds(R, S, j, role.levels[j + 1], role.witnesses, st, ps, round))
    && (role.Verifier? ==> FromProof(S, role.proof, j, ps))
  }

  lemma ProgressNext<F(!new)>(R: Field<F>, S: Setting<F>, j: nat, role: Role<F>, st: RoundState<F>,
                              ps: seq<RoundPolynomials<F>>, round: nat,
                        before: RoundState<F>, p: RoundPolynomials<F>, after: RoundState<F>)
    requires j < S.layout.NumLayers() && round < S.layout.logw[j] && Progress(R, S, j, role, st, ps, round, before)
    requires after == RoundStep(R, S, j, round, p, before)
    requires role.Prover? ==> HonestRound(R, S, j, round, role.levels[j + 1], role.witnesses, before, p)
    requires role.Verifier? ==>
      j < |role.proof| && round < |role.proof[j].polynomials| && p == role.proof[j].polynomials[round]
    ensures Progress(R, S, j, role, st, ps + [p], round + 1, after)
  {
    match role
    case Prover(levels, witnesses) =>
      RoundsExtend(R, S, j, ps, p, st);
      HonestExtend(R, S, j, levels[j + 1], witnesses, ps, p, st);
    case Verifier(_, proof) =>
      RoundsExtend(R, S, j, ps, p, st);
      FromProofNext(S, proof, j, ps, p);
  }

  lemma FromProofNext<F>(S: Setting<F>, proof: seq<ProofLayer<F>>, j: nat, ps: seq<RoundPolynomials<F>>,
                         p: RoundPolynomials<F>)
    requires FromProof(S, proof, j, ps) && |ps| < |proof[j].polynomials| && p == proof[j].polynomials[|ps|]
    ensures FromProof(S, proof, j, ps + [p])
  {
  }

  ghost predicate FromProof<F>(S: Setting<F>, proof: seq<ProofLayer<F>>, j: nat, ps: seq<RoundPolynomials<F>>) {
    j < |proof| && |ps| <= |proof[j].polynomials| && ps == proof[j].polynomials[..|ps|]
  }

  lemma RoundsExtend<F>(R: Field<F>, S: Setting<F>, j: nat, ps: seq<RoundPolynomials<F>>, p: RoundPolynomials<F>,
                        st: RoundState<F>)
    requires j < S.layout.NumLayers() && |ps| < S.layout.logw[j]
    ensures Rounds(R, S, j, ps + [p], st, |ps| + 1) == RoundStep(R, S, j, |ps|, p, Rounds(R, S, j, ps, st, |ps|))
  {
    RoundsPrefix(R, S, j, ps, p, st, |ps|);
  }

  lemma HonestExtend<F(!new)>(R: Field<F>, S: Setting<F>, j: nat, wires: seq<F>, w: seq<F>,
                              ps: seq<RoundPolynomials<F>>, p: RoundPolynomials<F>, st: RoundState<F>)
    requires j < S.layout.NumLayers() && |ps| < S.layout.logw[j] && HonestRounds(R, S, j, wires, w, st, ps, |ps|)
    requires HonestRound(R, S, j, |ps|, wires, w, Rounds(R, S, j, ps, st, |ps|), p)
    ensures HonestRounds(R, S, j, wires, w, st, ps + [p], |ps| + 1)
  {
    forall i: nat | i < |ps| + 1 ensures HonestRoundsOf(R, S, j, wires, w, st, ps + [p])(i) {
      if i < |ps| {
        assert HonestRoundsOf(R, S, j, wires, w, st, ps)(i);
      }
      HonestPrefix(R, S, j, wires, w, ps, p, st, i);
    }
  }

  lemma HonestPrefix<F>(R: Field<F>, S: Setting<F>, j: nat, wires: seq<F>, w: seq<F>, ps: seq<RoundPolynomials<F>>,
                        p: RoundPolynomials<F>, st: RoundState<F>, i: nat)
    requires j < S.layout.NumLayers() && i <= |ps| < S.layout.logw[j]
    requires HonestRound(R, S, j, i, wires, w, Rounds(R, S, j, ps, st, i), (ps + [p])[i])
    ensures HonestRoundAt(R, S, j, wires, w, st, ps + [p], i)
  {
    RoundsPrefix(R, S, j, ps, p, st, i);
  }

  // ----- One layer -----

  /** The variables of the outer loop. */
  datatype LayerData<F> = LayerData(lhs: seq<LhsTerm<F>>, rhs: seq<F>, left: seq<F>, right: seq<F>, vl: F, vr: F)

  ghost predicate TracksLayer<F>(d: LayerData<F>, st: LayerState<F>) {
    && d.lhs == st.lhs && d.rhs == st.rhs && d.left == st.left && d.right == st.right && d.vl == st.vl && d.vr == st.vr
    && |st.left| == |st.right|
  }

  method DrawOne<F(!new)>(R: Field<F>, transcript: FS.Transcript<F>) returns (x: F)
    requires FS.ValidOracle(transcript.oracle)
    modifies transcript
    ensures x == Challenge(R, transcript.oracle, old(transcript.history))
      && transcript.history == old(transcript.history) + [FS.Draw(1)]
  {
    var challenge := transcript.GenerateChallenge(1);
    x := challenge[0];
  }

  /** The combined quad of a layer, bound to the gate. */
  method FirstQuad<F(!new, ==)>(R: Field<F>, c: Circuit<F>, j: nat, left: seq<F>, right: seq<F>, alpha: F, beta: F)
      returns (quad: seq<QuadElement<F>>)
    requires j < c.NumLayers() && QuadsInRange(c, j) && |c.layers[j].quads| > 0 && |left| == |right|
      && c.LevelWires(j) <= Exp2(|left|)
    ensures quad == GateBound(R, CombinedQuad(R, c, c.layers[j].quads, beta), EqBoth(R, left, right, alpha))
  {
    var table := BindEq(R, left, right, alpha);
    var combined := CombinedQuad(R, c, c.layers[j].quads, beta);
    forall i | 0 <= i < |combined| ensures combined[i].gate < |table| {
      assert QuadInRange(c, j, c.layers[j].quads[i]);
    }
    quad := BindGate(R, combined, table);
  }

  lemma LayerHasQuads<F>(R: Field<F>, c: Circuit<F>, j: nat)
    requires WellFormed(R, c) && j < c.NumLayers()
    ensures |c.layers[j].quads| > 0
  {
    assert WellFormedLayer(R, c, j);
  }

  method DrawTwo<F(!new)>(R: Field<F>, transcript: FS.Transcript<F>) returns (alpha: F, beta: F)
    requires FS.ValidOracle(transcript.oracle)
    modifies transcript
    ensures alpha == Challenge(R, transcript.oracle, old(transcript.history))
    ensures beta == Challenge(R, transcript.oracle, old(transcript.history) + [FS.Draw(1)])
    ensures transcript.history == old(transcript.history) + [FS.Draw(1)] + [FS.Draw(1)]
  {
    alpha := DrawOne(R, transcript);
    beta := DrawOne(R, transcript);
  }

  method BeginLayer<F(!new, ==)>(R: Field<F>, S: Setting<F>, j: nat, role: Role<F>, transcript: FS.Transcript<F>,
                                 d: LayerData<F>, ghost st: LayerState<F>)
      returns (rd: RoundData<F>)
    requires Runnable(R, S, role) && j < S.circuit.NumLayers() && TracksLayer(d, st)
      && S.circuit.LevelWires(j) <= Exp2(|st.left|)
    requires transcript.oracle == S.oracle && transcript.history == st.history
    modifies transcript
    ensures Tracks(rd, FirstRound(R, S, j, st)) && transcript.history == FirstRound(R, S, j, st).history
      && WiresBound(R, role, j, rd)
  {
    LayerInRange(R, S.circuit, j);
    LayerHasQuads(R, S.circuit, j);
    var alpha, beta := DrawTwo(R, transcript);
    var quad := FirstQuad(R, S.circuit, j, d.left, d.right, alpha, beta);
    var claim := FirstClaim(R, S.layout, j, d.vl, d.vr, alpha);
    rd := RoundData(quad, claim, [], [], FirstWires(role, j));
  }

  /** The prover binds the wires below the layer as left and as right wires; the verifier has none. */
  function FirstWires<F>(role: Role<F>, j: nat): Wires<F>
    requires role.Prover? ==> j + 1 < |role.levels|
  {
    if role.Prover? then Wires(role.levels[j + 1], role.levels[j + 1]) else Wires([], [])
  }

  /** The padded claims about the wires of a layer. */
  method WireClaims<F(!new)>(R: Field<F>, S: Setting<F>, j: nat, role: Role<F>, rd: RoundData<F>) returns (vl: F, vr: F)
    requires Runnable(R, S, role) && j < S.circuit.NumLayers() && WiresBound(R, role, j, rd)
    requires |rd.left| == |rd.right| == S.circuit.layers[j].logw
    ensures role.Prover? ==>
      vl == R.sub(At(R, BindAll(R, role.levels[j + 1], rd.left), 0), At(R, role.witnesses, S.layout.WireIndex(j)))
    ensures role.Prover? ==>
      vr == R.sub(At(R, BindAll(R, role.levels[j + 1], rd.right), 0), At(R, role.witnesses, S.layout.WireIndex(j) + 1))
    ensures role.Verifier? ==> j < |role.proof| && vl == role.proof[j].vl && vr == role.proof[j].vr
  {
    match role
    case Prover(levels, witnesses) =>
      assert WellFormedLayer(R, S.circuit, j);
      BindAllWidth(R, levels[j + 1], rd.left);
      BindAllWidth(R, levels[j + 1], rd.right);
      LayerWidths(R, S.circuit, j, S.circuit.layers[j].logw);
      WirePosition(S.layout, j);
      var i := S.layout.WireIndex(j);
      vl := R.sub(rd.wires.left[0], witnesses[i]);
      vr := R.sub(rd.wires.right[0], witnesses[i + 1]);
    case Verifier(_, proof) =>
      vl, vr := proof[j].vl, proof[j].vr;
  }

  ghost predicate LayerFromRole<F(!new)>(R: Field<F>, S: Setting<F>, j: nat, role: Role<F>, st: LayerState<F>,
                                         lp: ProofLayer<F>)
    requires LayerFits(S, j, lp) && |st.left| == |st.right|
  {
    match role
    case Prover(levels, witnesses) => j + 1 < |levels| && HonestLayer(R, S, j, levels[j + 1], witnesses, st, lp)
    case Verifier(_, proof) => j < |proof| && lp == proof[j]
  }

  method RoundsOfLayer<F(!new, ==)>(R: Field<F>, S: Setting<F>, j: nat, role: Role<F>, transcript: FS.Transcript<F>,
                                    d: LayerData<F>, ghost st: LayerState<F>)
      returns (ps: seq<RoundPolynomials<F>>, rd: RoundData<F>)
    requires Runnable(R, S, role) && j < S.circuit.NumLayers() && TracksLayer(d, st)
      && S.circuit.LevelWires(j) <= Exp2(|st.left|)
    requires transcript.oracle == S.oracle && transcript.history == st.history
    modifies transcript
    ensures |ps| == S.layout.logw[j]
    ensures var rs :=
      Rounds(R, S, j, ps, FirstRound(R, S, j, st), |ps|); Tracks(rd, rs) && transcript.history == rs.history
    ensures |rd.left| == |rd.right| == S.layout.logw[j] && WiresBound(R, role, j, rd)
    ensures |rd.quad| == 1 && rd.quad[0].gate == rd.quad[0].left == rd.quad[0].right == 0
    ensures role.Prover? ==>
      HonestRounds(R, S, j, role.levels[j + 1], role.witnesses, FirstRound(R, S, j, st), ps, |ps|)
    ensures role.Verifier? ==> j < |role.proof| && ps == role.proof[j].polynomials
  {
    assert WellFormedLayer(R, S.circuit, j);
    var first := BeginLayer(R, S, j, role, transcript, d, st);
    FirstRoundShape(R, S, j, st);
    ghost var rs;
    ps, rd, rs := RunRounds(R, S, j, role, transcript, first, FirstRound(R, S, j, st));
    LastQuadSingle(R, S, j, ProofLayer(ps, R.zero, R.zero), st);
  }

  method RunLayer<F(!new, ==)>(R: Field<F>, S: Setting<F>, j: nat, role: Role<F>, transcript: FS.Transcript<F>,
                               d: LayerData<F>, ghost st: LayerState<F>)
      returns (lp: ProofLayer<F>, next: LayerData<F>)
    requires Runnable(R, S, role) && j < S.circuit.NumLayers() && TracksLayer(d, st)
      && S.circuit.LevelWires(j) <= Exp2(|st.left|)
    requires transcript.oracle == S.oracle && transcript.history == st.history
    modifies transcript
    ensures LayerFits(S, j, lp) && TracksLayer(next, LayerStep(R, S, j, lp, st))
      && transcript.history == LayerStep(R, S, j, lp, st).history
    ensures LayerFromRole(R, S, j, role, st, lp)
  {
    var ps, rd := RoundsOfLayer(R, S, j, role, transcript, d, st);
    var vl, vr := WireClaims(R, S, j, role, rd);
    lp := ProofLayer(ps, vl, vr);
    if role.Prover? {
      ProverLayer(R, S, j, role.levels[j + 1], role.witnesses, st, lp, rd);
    }
    next := EndLayer(R, S.layout, j, transcript, d, rd, vl, vr, st, LastRound(R, S, j, lp, st));
  }

  lemma ProverLayer<F(!new)>(R: Field<F>, S: Setting<F>, j: nat, wires: seq<F>, w: seq<F>, st: LayerState<F>,
                             lp: ProofLayer<F>, rd: RoundData<F>)
    requires LayerFits(S, j, lp) && |st.left| == |st.right| && Tracks(rd, LastRound(R, S, j, lp, st))
    requires HonestRounds(R, S, j, wires, w, FirstRound(R, S, j, st), lp.polynomials, S.layout.logw[j])
    requires lp.vl == R.sub(At(R, BindAll(R, wires, rd.left), 0), At(R, w, S.layout.WireIndex(j)))
    requires lp.vr == R.sub(At(R, BindAll(R, wires, rd.right), 0), At(R, w, S.layout.WireIndex(j) + 1))
    ensures HonestLayer(R, S, j, wires, w, st, lp)
  {
  }

  /** Emit the constraint of the layer and commit to the padded claims. */
  method EndLayer<F(!new)>(R: Field<F>, layout: Wit.WitnessLayout, j: nat, transcript: FS.Transcript<F>,
                           d: LayerData<F>, rd: RoundData<F>, vl: F, vr: F,
                           ghost st: LayerState<F>, ghost rs: RoundState<F>)
      returns (next: LayerData<F>)
    requires j < layout.NumLayers() && TracksLayer(d, st) && Tracks(rd, rs) && |rd.left| == |rd.right|
      && transcript.history == rs.history
    requires |rd.quad| == 1 && rd.quad[0].gate == rd.quad[0].left == rd.quad[0].right == 0
    modifies transcript
    ensures TracksLayer(next, NextState(R, layout, j, st, rs, vl, vr))
      && transcript.history == NextState(R, layout, j, st, rs, vl, vr).history
  {
    var bound := rd.quad[0].coefficient;
    var e := LastClaim(R, layout, j, rd.claim, bound, vl, vr);
    transcript.Append(FS.Elements([vl, vr]));
    next :=
      LayerData(d.lhs + e.terms, d.rhs + [R.sub(R.mul(R.mul(bound, vl), vr), e.known)], rd.left, rd.right, vl, vr);
  }

  // ----- The whole protocol -----

  lemma {:induction false} LayersPrefix<F>(R: Field<F>, S: Setting<F>, layers: seq<ProofLayer<F>>,
                                           all: seq<ProofLayer<F>>, h: FS.History<F>, k: nat)
    requires S.circuit.LevelBits(0) <= MAX_BINDINGS && ProofFits(S, layers) && ProofFits(S, all)
      && k <= |layers| <= |all|
    requires forall j :: 0 <= j < |layers| ==> all[j] == layers[j]
    ensures Layers(R, S, all, h, k) == Layers(R, S, layers, h, k)
  {
    for j := 0 to k
      invariant Layers(R, S, all, h, j) == Layers(R, S, layers, h, j)
    {
      LayersNext(R, S, layers, h, j);
      LayersNext(R, S, all, h, j);
    }
  }

  ghost predicate FromRole<F(!new)>(R: Field<F>, S: Setting<F>, role: Role<F>, h: FS.History<F>,
                                    layers: seq<ProofLayer<F>>, j: nat)
    requires S.circuit.LevelBits(0) <= MAX_BINDINGS && ProofFits(S, layers) && j < |layers|
  {
    LayerFits(S, j, layers[j]) && LayerFromRole(R, S, j, role, Layers(R, S, layers, h, j), layers[j])
  }

  /** The proof layers so far, and the state they lead to. */
  ghost predicate LayersDone<F(!new)>(R: Field<F>, S: Setting<F>, role: Role<F>, h: FS.History<F>,
                                      layers: seq<ProofLayer<F>>, st: LayerState<F>) {
    && S.circuit.LevelBits(0) <= MAX_BINDINGS && ProofFits(S, layers)
    && st == Layers(R, S, layers, h, |layers|)
    && AllFromRole(R, S, role, h, layers, |layers|)
  }

  ghost predicate AllFromRole<F(!new)>(R: Field<F>, S: Setting<F>, role: Role<F>, h: FS.History<F>,
                                       layers: seq<ProofLayer<F>>, k: nat)
    requires S.circuit.LevelBits(0) <= MAX_BINDINGS && ProofFits(S, layers) && k <= |layers|
  {
    k > 0 ==> AllFromRole(R, S, role, h, layers, k - 1) && FromRole(R, S, role, h, layers, k - 1)
  }

  lemma FitsNext<F>(S: Setting<F>, layers: seq<ProofLayer<F>>, lp: ProofLayer<F>)
    requires ProofFits(S, layers) && LayerFits(S, |layers|, lp)
    ensures ProofFits(S, layers + [lp])
  {
    var all := layers + [lp];
    forall j | 0 <= j < |all| ensures LayerFits(S, j, all[j]) {
      if j < |layers| {
        assert LayerFits(S, j, layers[j]);
      }
    }
  }

  lemma FromRoleKept<F(!new)>(R: Field<F>, S: Setting<F>, role: Role<F>, h: FS.History<F>, layers: seq<ProofLayer<F>>,
                              all: seq<ProofLayer<F>>, j: nat)
    requires S.circuit.LevelBits(0) <= MAX_BINDINGS && ProofFits(S, layers) && ProofFits(S, all)
      && j < |layers| <= |all|
    requires forall i :: 0 <= i < |layers| ==> all[i] == layers[i]
    requires FromRole(R, S, role, h, layers, j)
    ensures FromRole(R, S, role, h, all, j)
  {
    LayersPrefix(R, S, layers, all, h, j);
  }

  lemma FromRoleLast<F(!new)>(R: Field<F>, S: Setting<F>, role: Role<F>, h: FS.History<F>, layers: seq<ProofLayer<F>>,
                              lp: ProofLayer<F>)
    requires S.circuit.LevelBits(0) <= MAX_BINDINGS && ProofFits(S, layers) && ProofFits(S, layers + [lp])
      && LayerFits(S, |layers|, lp)
    requires LayerFromRole(R, S, |layers|, role, Layers(R, S, layers, h, |layers|), lp)
    ensures FromRole(R, S, role, h, layers + [lp], |layers|)
    ensures Layers(R, S, layers + [lp], h, |layers| + 1)
      == LayerStep(R, S, |layers|, lp, Layers(R, S, layers, h, |layers|))
  {
    LayersPrefix(R, S, layers, layers + [lp], h, |layers|);
    LayersNext(R, S, layers + [lp], h, |layers|);
  }

  lemma LayersDoneNext<F(!new)>(R: Field<F>, S: Setting<F>, role: Role<F>, h: FS.History<F>, layers: seq<ProofLayer<F>>,
                                st: LayerState<F>, lp: ProofLayer<F>)
    requires LayersDone(R, S, role, h, layers, st) && LayerFits(S, |layers|, lp)
      && LayerFromRole(R, S, |layers|, role, st, lp)
    ensures LayersDone(R, S, role, h, layers + [lp], LayerStep(R, S, |layers|, lp, st))
  {
    FitsNext(S, layers, lp);
    FromRoleLast(R, S, role, h, layers, lp);
    AllFromRoleNext(R, S, role, h, layers, layers + [lp], |layers|);
  }

  lemma {:induction false} AllFromRoleNext<F(!new)>(R: Field<F>, S: Setting<F>, role: Role<F>, h: FS.History<F>,
                                                    layers: seq<ProofLayer<F>>,
                                              all: seq<ProofLayer<F>>, k: nat)
    requires S.circuit.LevelBits(0) <= MAX_BINDINGS && ProofFits(S, layers) && ProofFits(S, all)
      && k <= |layers| <= |all|
    requires forall i :: 0 <= i < |layers| ==> all[i] == layers[i]
    requires AllFromRole(R, S, role, h, layers, k)
    ensures AllFromRole(R, S, role, h, all, k)
    decreases k
  {
    if k > 0 {
      var j := k - 1;
      assert AllFromRole(R, S, role, h, layers, j) && FromRole(R, S, role, h, layers, j);
      AllFromRoleNext(R, S, role, h, layers, all, j);
      FromRoleKept(R, S, role, h, layers, all, j);
      assert k == j + 1;
    }
  }

  /** `generate_output_wire_bindings` */
  method OutputBindings<F(!new)>(R: Field<F>, S: Setting<F>, transcript: FS.Transcript<F>) returns (d: LayerData<F>)
    requires S.circuit.LevelBits(0) <= MAX_BINDINGS && FS.ValidOracle(S.oracle) && transcript.oracle == S.oracle
    modifies transcript
    ensures TracksLayer(d, FirstState(R, S, old(transcript.history)))
      && transcript.history == FirstState(R, S, old(transcript.history)).history
  {
    var n := S.circuit.LevelBits(0);
    var _ := transcript.GenerateChallenge(MAX_BINDINGS);
    var bindings := transcript.GenerateChallenge(n);
    var _ := transcript.GenerateChallenge(MAX_BINDINGS - n);
    d := LayerData([], [], bindings, bindings, R.zero, R.zero);
  }

  method RunLayers<F(!new, ==)>(R: Field<F>, S: Setting<F>, role: Role<F>, transcript: FS.Transcript<F>)
      returns (layers: seq<ProofLayer<F>>, d: LayerData<F>)
    requires Runnable(R, S, role) && transcript.oracle == S.oracle
    modifies transcript
    ensures CompleteProof(S, layers)
      && LayersDone(R, S, role, old(transcript.history), layers,
      Layers(R, S, layers, old(transcript.history), |layers|))
    ensures TracksLayer(d, Layers(R, S, layers, old(transcript.history), |layers|))
    ensures transcript.history == Layers(R, S, layers, old(transcript.history), |layers|).history
  {
    ghost var h := transcript.history;
    d := OutputBindings(R, S, transcript);
    ghost var st := FirstState(R, S, h);
    layers := [];
    for j := 0 to S.circuit.NumLayers()
      invariant |layers| == j && LayersDone(R, S, role, h, layers, st) && TracksLayer(d, st)
        && transcript.history == st.history
    {
      BindingsCover(R, S, layers, h, j);
      var lp, next := RunLayer(R, S, j, role, transcript, d, st);
      LayersDoneNext(R, S, role, h, layers, st, lp);
      layers, d, st := layers + [lp], next, LayerStep(R, S, j, lp, st);
    }
  }

  /** The constraint on the inputs. */
  method FinalConstraint<F(!new)>(R: Field<F>, layout: Wit.WitnessLayout, publicInputs: seq<F>, table: seq<F>, gamma: F,
                                  vl: F, vr: F)
      returns (e: Sym.Expression<F>, rhs: F)
    requires layout.NumLayers() > 0 && |publicInputs| + layout.numPrivateInputs <= |table|
    ensures e == InputClaim(R, layout, |publicInputs|, table, gamma)
      && rhs == InputRhs(R, publicInputs, table, gamma, vl, vr)
  {
    var n := layout.NumLayers();
    e := Sym.NewExpression(R, n);
    for k := 0 to layout.numPrivateInputs
      invariant e == PrivateClaim(R, n, |publicInputs|, table, k)
    {
      e := Sym.AddTerm(R, e, Sym.ScaleTerm(R, Sym.NewTerm(R, k), table[k + |publicInputs|]));
    }
    var i := layout.WireIndex(n - 1);
    e := Sym.AddTerm(R, e, Sym.ScaleTerm(R, Sym.NewTerm(R, i), R.neg(R.one)));
    e := Sym.AddTerm(R, e, Sym.ScaleTerm(R, Sym.NewTerm(R, i + 1), R.neg(gamma)));
    var sum := R.zero;
    for k := 0 to |publicInputs|
      invariant sum == Dot(R, publicInputs, table, k)
    {
      sum := R.add(sum, R.mul(publicInputs[k], table[k]));
    }
    rhs := R.sub(R.add(vl, R.mul(gamma, vr)), sum);
  }

  function PublicInputsOf<F>(S: Setting<F>, role: Role<F>): seq<F>
    requires role.Prover? ==> |role.levels| > 0 && S.circuit.numPublicInputs <= |role.levels[|role.levels| - 1]|
  {
    match role
    case Prover(levels, _) => levels[|levels| - 1][..S.circuit.numPublicInputs]
    case Verifier(publicInputs, _) => publicInputs
  }

  lemma PublicInputsFit<F>(R: Field<F>, S: Setting<F>, role: Role<F>)
    requires GoodSetting(R, S) && RoleFits(S, role)
    ensures role.Prover? ==> |role.levels| > 0 && S.circuit.numPublicInputs <= |role.levels[|role.levels| - 1]|
    ensures |PublicInputsOf(S, role)| == S.circuit.numPublicInputs
  {
  }

  /**
   `run_protocol`. In both roles the constraints and the final transcript are the same function of the circuit, the
   public inputs, the starting transcript and the proof.
   */
  method RunProtocol<F(!new, ==)>(R: Field<F>, S: Setting<F>, role: Role<F>, transcript: FS.Transcript<F>)
      returns (linear: LinearConstraints<F>, layers: seq<ProofLayer<F>>)
    requires Runnable(R, S, role) && transcript.oracle == S.oracle
    requires role.Prover? ==> |role.levels| > 0 && S.circuit.numPublicInputs <= |role.levels[|role.levels| - 1]|
    modifies transcript
    ensures CompleteProof(S, layers)
    ensures LayersDone(R, S, role, old(transcript.history), layers,
      Layers(R, S, layers, old(transcript.history), |layers|))
    ensures linear == RunConstraints(R, S, PublicInputsOf(S, role), layers, old(transcript.history))
    ensures MeanChecks(R, S, PublicInputsOf(S, role), layers, old(transcript.history), linear)
    ensures transcript.history == RunHistory(R, S, layers, old(transcript.history))
  {
    PublicInputsFit(R, S, role);
    ghost var h := transcript.history;
    var d;
    layers, d := RunLayers(R, S, role, transcript);
    BindingsCover(R, S, layers, h, |layers|);
    var gamma := DrawOne(R, transcript);
    var table := BindEq(R, d.left, d.right, gamma);
    var publicInputs := PublicInputsOf(S, role);
    var e, rhs := FinalConstraint(R, S.layout, publicInputs, table, gamma, d.vl, d.vr);
    linear := LinearConstraints(d.lhs + e.terms, d.rhs + [rhs]);
    AllMeanChecks(R, S, publicInputs, layers, h);
  }

  /** For every vector, the constraints are the checks of the plain verifier. */
  ghost predicate MeanChecks<F(!new)>(R: Field<F>, S: Setting<F>, publicInputs: seq<F>, layers: seq<ProofLayer<F>>,
                                      h: FS.History<F>, linear: LinearConstraints<F>)
    requires CompleteProof(S, layers)
  {
    forall w: seq<F> :: ConstraintsAreChecks(R, S, publicInputs, layers, h, linear, w)
  }

  lemma AllMeanChecks<F(!new)>(R: Field<F>, S: Setting<F>, publicInputs: seq<F>, layers: seq<ProofLayer<F>>,
                               h: FS.History<F>)
    requires IsRing(R) && GoodSetting(R, S) && FS.ValidOracle(S.oracle) && CompleteProof(S, layers)
      && |publicInputs| == S.circuit.numPublicInputs
    ensures MeanChecks(R, S, publicInputs, layers, h, RunConstraints(R, S, publicInputs, layers, h))
  {
    forall w: seq<F> ensures ConstraintsAreChecks(R, S, publicInputs, layers, h,
      RunConstraints(R, S, publicInputs, layers, h), w) {
      ConstraintsMean(R, S, publicInputs, layers, h, w);
    }
  }

  // ----- Prover and verifier -----

  lemma {:induction false} ProverIsHonest<F(!new)>(R: Field<F>, S: Setting<F>, levels: seq<seq<F>>, w: seq<F>,
                                                   inputs: seq<F>, h: FS.History<F>,
                                             layers: seq<ProofLayer<F>>, k: nat)
    requires S.circuit.LevelBits(0) <= MAX_BINDINGS && ProofFits(S, layers) && k <= |layers|
    requires |inputs| == S.circuit.LevelWires(S.circuit.NumLayers()) && LevelsFrom(R, S.circuit, inputs, 0, levels)
    requires AllFromRole(R, S, Prover(levels, w), h, layers, k)
    ensures HonestProof(R, S, inputs, w, h, layers, k)
    decreases k
  {
    if k > 0 {
      var j := k - 1;
      ProverIsHonest(R, S, levels, w, inputs, h, layers, j);
      assert FromRole(R, S, Prover(levels, w), h, layers, j);
      assert levels[j + 1] == Level(R, S.circuit, inputs, j + 1);
      assert k == j + 1;
    }
  }

  lemma {:induction false} VerifierLayer<F(!new)>(R: Field<F>, S: Setting<F>, publicInputs: seq<F>,
                                                  proof: seq<ProofLayer<F>>, h: FS.History<F>,
                                            layers: seq<ProofLayer<F>>, k: nat, j: nat)
    requires S.circuit.LevelBits(0) <= MAX_BINDINGS && ProofFits(S, layers) && j < k <= |layers| == |proof|
    requires AllFromRole(R, S, Verifier(publicInputs, proof), h, layers, k)
    ensures layers[j] == proof[j]
    decreases k
  {
    if j + 1 < k {
      VerifierLayer(R, S, publicInputs, proof, h, layers, k - 1, j);
    } else {
      assert FromRole(R, S, Verifier(publicInputs, proof), h, layers, k - 1);
    }
  }

  lemma VerifierUsesProof<F(!new)>(R: Field<F>, S: Setting<F>, publicInputs: seq<F>, proof: seq<ProofLayer<F>>,
                                   h: FS.History<F>, layers: seq<ProofLayer<F>>)
    requires S.circuit.LevelBits(0) <= MAX_BINDINGS && ProofFits(S, layers) && |layers| == |proof|
    requires AllFromRole(R, S, Verifier(publicInputs, proof), h, layers, |layers|)
    ensures layers == proof
  {
    forall j | 0 <= j < |layers| ensures layers[j] == proof[j] {
      VerifierLayer(R, S, publicInputs, proof, h, layers, |layers|, j);
    }
  }

  /** `prove`: the outputs have to be zero, as the source asserts; the wrong number of inputs is an error. */
  method Prove<F(!new, ==)>(R: Field<F>, S: Setting<F>, levels: seq<seq<F>>, w: seq<F>, transcript: FS.Transcript<F>,
                            ghost inputs: seq<F>)
      returns (r: Option<(LinearConstraints<F>, seq<ProofLayer<F>>)>)
    requires IsRing(R) && GoodSetting(R, S) && FS.ValidOracle(S.oracle) && transcript.oracle == S.oracle
    requires |levels| == S.circuit.NumLayers() + 1 && |w| == S.layout.Length()
    requires |levels[S.circuit.NumLayers()]| == S.circuit.numInputs ==>
      inputs == levels[S.circuit.NumLayers()] && LevelsFrom(R, S.circuit, inputs, 0, levels)
    modifies transcript
    ensures r.Some? <==> |levels[S.circuit.NumLayers()]| == S.circuit.numInputs
    ensures r.None? ==> transcript.history == old(transcript.history)
    ensures r.Some? ==>
      var (linear, layers) := r.value;
      && CompleteProof(S, layers)
      && HonestProof(R, S, inputs, w, old(transcript.history), layers, |layers|)
      && linear == RunConstraints(R, S, inputs[..S.circuit.numPublicInputs], layers, old(transcript.history))
      && transcript.history == RunHistory(R, S, layers, old(transcript.history))
  {
    if |levels[S.circuit.NumLayers()]| != S.circuit.numInputs {
      return None;
    }
    ghost var h := transcript.history;
    var linear, layers := RunProtocol(R, S, Role.Prover(levels, w), transcript);
    ProverIsHonest(R, S, levels, w, inputs, h, layers, |layers|);
    r := Some((linear, layers));
  }

  /** `linear_constraints`: the verifier's side, from a proof of the right shape. */
  method LinearConstraintsOf<F(!new, ==)>(R: Field<F>, S: Setting<F>, publicInputs: seq<F>, proof: seq<ProofLayer<F>>,
                                          transcript: FS.Transcript<F>)
      returns (r: Option<LinearConstraints<F>>)
    requires IsRing(R) && GoodSetting(R, S) && FS.ValidOracle(S.oracle) && transcript.oracle == S.oracle
      && CompleteProof(S, proof)
    modifies transcript
    ensures r.Some? <==> |publicInputs| == S.circuit.numPublicInputs
    ensures r.None? ==> transcript.history == old(transcript.history)
    ensures r.Some? ==> r.value == RunConstraints(R, S, publicInputs, proof, old(transcript.history))
    ensures r.Some? ==> MeanChecks(R, S, publicInputs, proof, old(transcript.history), r.value)
    ensures r.Some? ==> transcript.history == RunHistory(R, S, proof, old(transcript.history))
  {
    if |publicInputs| != S.circuit.numPublicInputs {
      return None;
    }
    ghost var h := transcript.history;
    var linear, layers := RunProtocol(R, S, Verifier(publicInputs, proof), transcript);
    VerifierUsesProof(R, S, publicInputs, proof, h, layers);
    r := Some(linear);
  }

  /**
   Lockstep: from the same starting transcript, the verifier that is given the prover's own proof emits the same linear
   constraints and ends with the same transcript.
   */
  method Lockstep<F(!new, ==)>(R: Field<F>, S: Setting<F>, levels: seq<seq<F>>, w: seq<F>, prover: FS.Transcript<F>,
                               verifier: FS.Transcript<F>)
      returns (a: LinearConstraints<F>, b: LinearConstraints<F>)
    requires IsRing(R) && GoodSetting(R, S) && FS.ValidOracle(S.oracle) && |w| == S.layout.Length()
    requires |levels| == S.circuit.NumLayers() + 1 && |levels[S.circuit.NumLayers()]| == S.circuit.numInputs
    requires LevelsFrom(R, S.circuit, levels[S.circuit.NumLayers()], 0, levels)
    requires prover != verifier && prover.oracle == verifier.oracle == S.oracle && prover.history == verifier.history
    modifies prover, verifier
    ensures a == b && prover.history == verifier.history
  {
    var n := S.circuit.NumLayers();
    var r := Prove(R, S, levels, w, prover, levels[n]);
    a := r.value.0;
    var s := LinearConstraintsOf(R, S, levels[n][..S.circuit.numPublicInputs], r.value.1, verifier);
    b := s.value;
  }
}
