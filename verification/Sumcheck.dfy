/**
 Sumcheck over all layers of a circuit (src/sumcheck/mod.rs): the linear constraints as a function of the circuit, the
 public inputs, the proof and the transcript, and the proof that an honest prover's witness satisfies all of them.
 */
module Sumcheck {
  import opened Fields
  import opened Sums
  import opened Dots
  import opened Bind
  import opened Sparse
  import opened Options
  import opened Circuits
  import opened Constraints
  import opened SumcheckRounds
  import Sym = Symbolic
  import Wit = Witness
  import FS = FiatShamir

  /** The state between two layers: bindings, claims and the constraints emitted so far. */
  datatype LayerState<F> = LayerState(
    history: FS.History<F>,
    lhs: seq<LhsTerm<F>>,
    rhs: seq<F>,
    left: seq<F>,
    right: seq<F>,
    vl: F,
    vr: F)

  const MAX_BINDINGS: nat := 40

  ghost predicate GoodSetting<F>(R: Field<F>, S: Setting<F>) {
    WellFormed(R, S.circuit) && LayoutOf(S.layout, S.circuit) && GoodConstants(R, S.K)
  }

  // ----- The protocol as a function of the proof -----

  /** `generate_output_wire_bindings` */
  ghost function FirstState<F>(R: Field<F>, S: Setting<F>, h: FS.History<F>): LayerState<F>
    requires S.circuit.LevelBits(0) <= MAX_BINDINGS
  {
    var n := S.circuit.LevelBits(0);
    var bindings := S.oracle.challenge(h + [FS.Draw(MAX_BINDINGS)], n);
    LayerState(h + [FS.Draw(MAX_BINDINGS)] + [FS.Draw(n)] + [FS.Draw(MAX_BINDINGS - n)], [], [], bindings, bindings,
      R.zero, R.zero)
  }

  /** The witness positions of the pads of the previous layer's vl and vr. */
  function PadIndex(layout: Wit.WitnessLayout, j: nat, part: nat): Option<nat>
    requires j <= layout.NumLayers()
  {
    if j == 0 then None else Some(layout.WireIndex(j - 1) + part)
  }

  function FirstClaim<F>(R: Field<F>, layout: Wit.WitnessLayout, j: nat, vl: F, vr: F, alpha: F): Sym.Expression<F>
    requires j <= layout.NumLayers()
  {
    var claim0 := Sym.FromKnown(R, vl).(witnessIndex := PadIndex(layout, j, 0));
    var claim1 := Sym.ScaleTerm(R, Sym.FromKnown(R, vr), alpha).(witnessIndex := PadIndex(layout, j, 1));
    Sym.AddTerm(R, Sym.AddTerm(R, Sym.NewExpression(R, j), claim0), claim1)
  }

  /** The state at the start of the rounds of layer j. */
  ghost function FirstRound<F>(R: Field<F>, S: Setting<F>, j: nat, st: LayerState<F>): RoundState<F>
    requires j < S.circuit.NumLayers() && j < S.layout.NumLayers() && |st.left| == |st.right|
  {
    var alpha := Challenge(R, S.oracle, st.history);
    var h := st.history + [FS.Draw(1)];
    var beta := Challenge(R, S.oracle, h);
    var quad :=
      GateBound(R, CombinedQuad(R, S.circuit, S.circuit.layers[j].quads, beta), EqBoth(R, st.left, st.right, alpha));
    RoundState(h + [FS.Draw(1)], quad, FirstClaim(R, S.layout, j, st.vl, st.vr, alpha), [], [])
  }

  /** The claim after the rounds, minus Q * vl * vr as far as the pads make it unknown. */
  function LastClaim<F>(R: Field<F>, layout: Wit.WitnessLayout, j: nat, claim: Sym.Expression<F>, bound: F, vl: F,
                        vr: F): Sym.Expression<F>
    requires j < layout.NumLayers()
  {
    var i := layout.WireIndex(j);
    Minus(R, MinusScaled(R, MinusScaled(R, claim, i, bound, vr), i + 1, bound, vl), i + 2, bound)
  }

  /** e - (bound * v) * W[i] */
  function MinusScaled<F>(R: Field<F>, e: Sym.Expression<F>, i: nat, bound: F, v: F): Sym.Expression<F> {
    Sym.AddTerm(R, e, Sym.ScaleTerm(R, Sym.ScaleTerm(R, Sym.NewTerm(R, i), R.neg(bound)), v))
  }

  /** e - bound * W[i] */
  function Minus<F>(R: Field<F>, e: Sym.Expression<F>, i: nat, bound: F): Sym.Expression<F> {
    Sym.AddTerm(R, e, Sym.ScaleTerm(R, Sym.NewTerm(R, i), R.neg(bound)))
  }

  ghost function BoundElement<F>(R: Field<F>, quad: seq<QuadElement<F>>): F {
    if |quad| > 0 then quad[0].coefficient else R.zero
  }

  ghost function NextState<F>(R: Field<F>, layout: Wit.WitnessLayout, j: nat, st: LayerState<F>, rs: RoundState<F>,
                              vl: F, vr: F): LayerState<F>
    requires j < layout.NumLayers()
  {
    var bound := BoundElement(R, rs.quad);
    var e := LastClaim(R, layout, j, rs.claim, bound, vl, vr);
    LayerState(rs.history + [FS.Write(FS.Elements([vl, vr]))], st.lhs + e.terms,
      st.rhs + [R.sub(R.mul(R.mul(bound, vl), vr), e.known)],
               rs.left, rs.right, vl, vr)
  }

  ghost predicate LayerFits<F>(S: Setting<F>, j: nat, lp: ProofLayer<F>) {
    j < S.circuit.NumLayers() && j < S.layout.NumLayers() && |lp.polynomials| == S.layout.logw[j]
  }

  ghost function LastRound<F>(R: Field<F>, S: Setting<F>, j: nat, lp: ProofLayer<F>, st: LayerState<F>): RoundState<F>
    requires LayerFits(S, j, lp) && |st.left| == |st.right|
  {
    Rounds(R, S, j, lp.polynomials, FirstRound(R, S, j, st), S.layout.logw[j])
  }

  ghost function LayerStep<F>(R: Field<F>, S: Setting<F>, j: nat, lp: ProofLayer<F>, st: LayerState<F>): LayerState<F>
    requires LayerFits(S, j, lp) && |st.left| == |st.right|
  {
    NextState(R, S.layout, j, st, LastRound(R, S, j, lp, st), lp.vl, lp.vr)
  }

  lemma {:induction false} RoundsBindBoth<F>(R: Field<F>, S: Setting<F>, j: nat, ps: seq<RoundPolynomials<F>>,
                                             st: RoundState<F>, k: nat)
    requires j < S.layout.NumLayers() && k <= S.layout.logw[j] && k <= |ps| && |st.left| == |st.right| == 0
    ensures |Rounds(R, S, j, ps, st, k).left| == |Rounds(R, S, j, ps, st, k).right| == k
  {
    var s := st;
    for i := 0 to k
      invariant s == Rounds(R, S, j, ps, st, i) && |s.left| == |s.right| == i
    {
      s := RoundStep(R, S, j, i, ps[i], s);
    }
  }

  ghost predicate ProofFits<F>(S: Setting<F>, layers: seq<ProofLayer<F>>) {
    |layers| <= S.circuit.NumLayers() && |layers| <= S.layout.NumLayers() && forall j ::
      0 <= j < |layers| ==> LayerFits(S, j, layers[j])
  }

  /** The state after the first k layers. */
  ghost function Layers<F>(R: Field<F>, S: Setting<F>, layers: seq<ProofLayer<F>>, h: FS.History<F>,
                           k: nat): (st: LayerState<F>)
    requires S.circuit.LevelBits(0) <= MAX_BINDINGS && ProofFits(S, layers) && k <= |layers|
    ensures |st.left| == |st.right| && (k > 0 ==> |st.left| == S.layout.logw[k - 1])
  {
    if k == 0 then FirstState(R, S, h)
    else
      var st := Layers(R, S, layers, h, k - 1);
      assert LayerFits(S, k - 1, layers[k - 1]);
      RoundsBindBoth(R, S, k - 1, layers[k - 1].polynomials, FirstRound(R, S, k - 1, st), S.layout.logw[k - 1]);
      LayerStep(R, S, k - 1, layers[k - 1], st)
  }

  // ----- Shape of a layer -----

  lemma {:induction false} WidthAtMost(n: nat, k: nat, m: nat)
    ensures Width(n, k) <= m <==> n <= m * Exp2(k)
    decreases k
  {
    if k > 0 {
      WidthAtMost(n, k - 1, 2 * m);
      assert m * Exp2(k) == 2 * m * Exp2(k - 1);
    }
  }

  lemma {:induction false} WidthPositive(n: nat, k: nat)
    requires n > 0
    ensures Width(n, k) > 0
  {
    if k > 0 {
      WidthPositive(n, k - 1);
    }
  }

  /** Binding the wires of a layer logw times leaves one wire, and before that more than one. */
  lemma LayerWidths<F>(R: Field<F>, c: Circuit<F>, j: nat, k: nat)
    requires j < c.NumLayers() && WellFormedLayer(R, c, j) && k <= c.layers[j].logw
    ensures k == c.layers[j].logw ==> Width(c.layers[j].numWires, k) == 1
    ensures k < c.layers[j].logw ==> Width(c.layers[j].numWires, k) > 1
  {
    var n, logw := c.layers[j].numWires, c.layers[j].logw;
    WidthAtMost(n, k, 1);
    WidthPositive(n, k);
    if k < logw {
      Exp2Grows(k, logw - 1);
    }
  }

  lemma FirstQuadBindable<F>(R: Field<F>, c: Circuit<F>, j: nat, table: seq<F>, beta: F)
    requires j < c.NumLayers() && WellFormedLayer(R, c, j)
    ensures var n := c.layers[j].numWires;
      Bindable(GateBound(R, CombinedQuad(R, c, c.layers[j].quads, beta), table), Left, n, n)
  {
    var quads, n := c.layers[j].quads, c.layers[j].numWires;
    var e := GateEntries(R, CombinedQuad(R, c, quads, beta), table);
    forall i, k | 0 <= i < k < |e| && k == i + 1 ensures Key(Left, e[i]) <= Key(Left, e[k]) {
      assert QuadKey(quads[i]) <= QuadKey(quads[k]);
    }
    forall i | 0 <= i < |e| ensures e[i].gate == 0 && e[i].HandWire(Left) < n && e[i].HandWire(Right) < n {
      assert QuadInRange(c, j, quads[i]);
    }
    CompactIncreasing(R, Left, e);
    CompactKeeps(R, e, Left, |e|, n);
    CompactKeeps(R, e, Right, |e|, n);
  }

  lemma WirePosition(layout: Wit.WitnessLayout, j: nat)
    requires j < layout.NumLayers()
    ensures layout.WireIndex(j) + 2 < layout.Length()
  {
    Wit.SlotInLayer(layout, Wit.Wire(j, 2));
  }

  lemma FirstClaimTags<F>(R: Field<F>, layout: Wit.WitnessLayout, j: nat, vl: F, vr: F, alpha: F)
    requires j <= layout.NumLayers()
    ensures var e :=
      FirstClaim(R, layout, j, vl, vr, alpha); e.constraint == j && Sym.Tagged(e.terms, j, layout.Length())
  {
    if j > 0 {
      WirePosition(layout, j - 1);
    }
  }

  lemma FirstRoundShape<F>(R: Field<F>, S: Setting<F>, j: nat, st: LayerState<F>)
    requires j < S.circuit.NumLayers() && WellFormedLayer(R, S.circuit, j) && LayoutOf(S.layout, S.circuit)
      && |st.left| == |st.right|
    ensures GoodShape(S, j, FirstRound(R, S, j, st), Left)
  {
    var alpha := Challenge(R, S.oracle, st.history);
    FirstQuadBindable(R, S.circuit, j, EqBoth(R, st.left, st.right, alpha),
      Challenge(R, S.oracle, st.history + [FS.Draw(1)]));
    FirstClaimTags(R, S.layout, j, st.vl, st.vr, alpha);
  }

  /** After all rounds the quad is a single entry with all indices zero, as the source asserts. */
  lemma LastQuadSingle<F>(R: Field<F>, S: Setting<F>, j: nat, lp: ProofLayer<F>, st: LayerState<F>)
    requires LayerFits(S, j, lp) && WellFormedLayer(R, S.circuit, j) && LayoutOf(S.layout, S.circuit)
      && |st.left| == |st.right|
    ensures var rs := LastRound(R, S, j, lp, st);
      && GoodShape(S, j, rs, Left) && |rs.left| == |rs.right| == S.layout.logw[j]
      && |rs.quad| == 1 && rs.quad[0].gate == rs.quad[0].left == rs.quad[0].right == 0
  {
    var rs, first := LastRound(R, S, j, lp, st), FirstRound(R, S, j, st);
    FirstRoundShape(R, S, j, st);
    RoundsShape(R, S, j, lp.polynomials, first, S.layout.logw[j]);
    LayerWidths(R, S.circuit, j, S.layout.logw[j]);
    SingleEntry(rs.quad);
  }

  lemma SingleEntry<F>(q: seq<QuadElement<F>>)
    requires Bindable(q, Left, 1, 1)
    ensures |q| == 1 && q[0].gate == q[0].left == q[0].right == 0
  {
    var last := |q| - 1;
    assert q[0].HandWire(Left) < 1 && q[0].HandWire(Right) < 1;
    if last > 0 {
      SecondEntry(q);
    }
  }

  /** A second entry would have different wires. */
  lemma SecondEntry<F>(q: seq<QuadElement<F>>)
    requires |q| > 1 && Increasing(Left, q)
    ensures !SameWires(q[0], q[1])
  {
    assert Key(Left, q[0]) < Key(Left, q[1]);
  }

  // ----- Claims -----

  /** With its pad, a claim of the previous layer is the binding of the wires of this level. */
  ghost predicate Claims<F>(R: Field<F>, layout: Wit.WitnessLayout, w: seq<F>, st: LayerState<F>, j: nat,
                            outputs: seq<F>)
    requires j <= layout.NumLayers()
  {
    && R.add(st.vl, Sym.PadOf(R, w, PadIndex(layout, j, 0))) == Dot(R, Eq(R, st.left), outputs, Exp2(|st.left|))
    && R.add(st.vr, Sym.PadOf(R, w, PadIndex(layout, j, 1))) == Dot(R, Eq(R, st.right), outputs, Exp2(|st.right|))
  }

  lemma FirstClaimValue<F(!new)>(R: Field<F>, layout: Wit.WitnessLayout, j: nat, vl: F, vr: F, alpha: F, w: seq<F>)
    requires IsRing(R) && j <= layout.NumLayers()
    ensures Sym.ExpressionValue(R, FirstClaim(R, layout, j, vl, vr, alpha), w)
      == R.add(R.add(vl, Sym.PadOf(R, w, PadIndex(layout, j, 0))),
        R.mul(alpha, R.add(vr, Sym.PadOf(R, w, PadIndex(layout, j, 1)))))
  {
    var pl, pr := Sym.PadOf(R, w, PadIndex(layout, j, 0)), Sym.PadOf(R, w, PadIndex(layout, j, 1));
    var t0 := Sym.FromKnown(R, vl).(witnessIndex := PadIndex(layout, j, 0));
    var t1 := Sym.ScaleTerm(R, Sym.FromKnown(R, vr), alpha).(witnessIndex := PadIndex(layout, j, 1));
    var e := Sym.NewExpression(R, j);
    Sym.AddTermValue(R, e, t0, w);
    Sym.AddTermValue(R, Sym.AddTerm(R, e, t0), t1, w);
    FirstClaimRing(R, vl, pl, vr, pr, alpha);
  }

  lemma FirstClaimRing<F(!new)>(R: Field<F>, vl: F, pl: F, vr: F, pr: F, alpha: F)
    requires IsRing(R)
    ensures R.add(R.add(R.add(R.zero, R.zero), R.add(vl, R.mul(R.one, pl))),
      R.add(R.mul(vr, alpha), R.mul(R.mul(R.one, alpha), pr))) == R.add(R.add(vl, pl), R.mul(alpha, R.add(vr, pr)))
  {
    Ring(R, A(A(A(Z, Z), A(V(0), M(O, V(1)))), A(M(V(2), V(3)), M(M(O, V(3)), V(4)))),
      A(A(V(0), V(1)), M(V(3), A(V(2), V(4)))), [vl, pl, vr, alpha, pr]);
  }

  /** The two claims combine to the sum over the bound quad of this layer. */
  lemma FirstRoundClaim<F(!new)>(R: Field<F>, S: Setting<F>, j: nat, wires: seq<F>, w: seq<F>, st: LayerState<F>)
    requires IsRing(R) && j < S.circuit.NumLayers() && WellFormedLayer(R, S.circuit, j) && LayoutOf(S.layout, S.circuit)
    requires |st.left| == |st.right| && S.circuit.LevelWires(j) <= Exp2(|st.left|)
    requires Claims(R, S.layout, w, st, j, LayerOutputs(R, S.circuit, j, wires))
    requires AssertionsHold(R, S.circuit, S.circuit.layers[j].quads, LayerOutputs(R, S.circuit, j, wires))
    ensures ClaimHolds(R, wires, w, FirstRound(R, S, j, st), Left)
  {
    var alpha := Challenge(R, S.oracle, st.history);
    var outputs, n := LayerOutputs(R, S.circuit, j, wires), Exp2(|st.left|);
    FirstClaimValue(R, S.layout, j, st.vl, st.vr, alpha, w);
    DotAddScaled(R, Eq(R, st.left), alpha, Eq(R, st.right), outputs, n);
    CombinedQuadClaim(R, S.circuit, j, wires, EqBoth(R, st.left, st.right, alpha),
      Challenge(R, S.oracle, st.history + [FS.Draw(1)]));
  }

  /** The proof of one layer comes from the honest prover. */
  ghost predicate HonestLayer<F(!new)>(R: Field<F>, S: Setting<F>, j: nat, wires: seq<F>, w: seq<F>, st: LayerState<F>,
                                       lp: ProofLayer<F>)
    requires LayerFits(S, j, lp) && |st.left| == |st.right|
  {
    var rs := LastRound(R, S, j, lp, st);
    && HonestRounds(R, S, j, wires, w, FirstRound(R, S, j, st), lp.polynomials, S.layout.logw[j])
    && lp.vl == R.sub(At(R, BindAll(R, wires, rs.left), 0), At(R, w, S.layout.WireIndex(j)))
    && lp.vr == R.sub(At(R, BindAll(R, wires, rs.right), 0), At(R, w, S.layout.WireIndex(j) + 1))
  }

  lemma ClaimFrom<F(!new)>(R: Field<F>, xs: seq<F>, wires: seq<F>, pad: F, v: F)
    requires IsRing(R) && v == R.sub(At(R, BindAll(R, wires, xs), 0), pad)
    ensures R.add(v, pad) == Dot(R, Eq(R, xs), wires, Exp2(|xs|))
  {
    EqBinds(R, xs, wires);
    Unpadded(R, At(R, BindAll(R, wires, xs), 0), pad, v);
  }

  lemma NextClaims<F(!new)>(R: Field<F>, S: Setting<F>, j: nat, wires: seq<F>, w: seq<F>, st: LayerState<F>)
    requires IsRing(R) && j < S.layout.NumLayers()
    requires st.vl == R.sub(At(R, BindAll(R, wires, st.left), 0), At(R, w, S.layout.WireIndex(j)))
    requires st.vr == R.sub(At(R, BindAll(R, wires, st.right), 0), At(R, w, S.layout.WireIndex(j) + 1))
    ensures Claims(R, S.layout, w, st, j + 1, wires)
  {
    ClaimFrom(R, st.left, wires, At(R, w, S.layout.WireIndex(j)), st.vl);
    ClaimFrom(R, st.right, wires, At(R, w, S.layout.WireIndex(j) + 1), st.vr);
  }

  // ----- The constraint of a layer -----

  lemma LastClaimValue<F(!new)>(R: Field<F>, layout: Wit.WitnessLayout, j: nat, claim: Sym.Expression<F>, bound: F,
                                vl: F, vr: F, w: seq<F>)
    requires IsRing(R) && j < layout.NumLayers()
    ensures var i := layout.WireIndex(j);
      Sym.ExpressionValue(R, LastClaim(R, layout, j, claim, bound, vl, vr), w)
      == R.sub(R.sub(R.sub(Sym.ExpressionValue(R, claim, w), R.mul(R.mul(bound, vr), At(R, w, i))),
        R.mul(R.mul(bound, vl), At(R, w, i + 1))), R.mul(bound, At(R, w, i + 2)))
  {
    var i := layout.WireIndex(j);
    MinusScaledValue(R, claim, i, bound, vr, w);
    MinusScaledValue(R, MinusScaled(R, claim, i, bound, vr), i + 1, bound, vl, w);
    MinusValue(R, MinusScaled(R, MinusScaled(R, claim, i, bound, vr), i + 1, bound, vl), i + 2, bound, w);
  }

  lemma MinusScaledValue<F(!new)>(R: Field<F>, e: Sym.Expression<F>, i: nat, bound: F, v: F, w: seq<F>)
    requires IsRing(R)
    ensures Sym.ExpressionValue(R, MinusScaled(R, e, i, bound, v), w)
      == R.sub(Sym.ExpressionValue(R, e, w), R.mul(R.mul(bound, v), At(R, w, i)))
  {
    Sym.AddTermValue(R, e, Sym.ScaleTerm(R, Sym.ScaleTerm(R, Sym.NewTerm(R, i), R.neg(bound)), v), w);
    ScaledTwice(R, Sym.ExpressionValue(R, e, w), bound, v, At(R, w, i));
  }

  lemma MinusValue<F(!new)>(R: Field<F>, e: Sym.Expression<F>, i: nat, bound: F, w: seq<F>)
    requires IsRing(R)
    ensures Sym.ExpressionValue(R, Minus(R, e, i, bound), w)
      == R.sub(Sym.ExpressionValue(R, e, w), R.mul(bound, At(R, w, i)))
  {
    Sym.AddTermValue(R, e, Sym.ScaleTerm(R, Sym.NewTerm(R, i), R.neg(bound)), w);
    ScaledOnce(R, Sym.ExpressionValue(R, e, w), bound, At(R, w, i));
  }

  lemma ScaledTwice<F(!new)>(R: Field<F>, s: F, b: F, v: F, p: F)
    requires IsRing(R)
    ensures R.add(s, R.add(R.mul(R.mul(R.zero, R.neg(b)), v), R.mul(R.mul(R.mul(R.one, R.neg(b)), v), p)))
      == R.sub(s, R.mul(R.mul(b, v), p))
  {
    Ring(R, A(V(0), A(M(M(Z, N(V(1))), V(2)), M(M(M(O, N(V(1))), V(2)), V(3)))), S(V(0), M(M(V(1), V(2)), V(3))),
      [s, b, v, p]);
  }

  lemma ScaledOnce<F(!new)>(R: Field<F>, s: F, b: F, p: F)
    requires IsRing(R)
    ensures R.add(s, R.add(R.mul(R.zero, R.neg(b)), R.mul(R.mul(R.one, R.neg(b)), p))) == R.sub(s, R.mul(b, p))
  {
    Ring(R, A(V(0), A(M(Z, N(V(1))), M(M(O, N(V(1))), V(2)))), S(V(0), M(V(1), V(2))), [s, b, p]);
  }

  lemma ConstraintRing<F(!new)>(R: Field<F>, b: F, vl: F, vr: F, pl: F, pr: F)
    requires IsRing(R)
    ensures R.sub(R.sub(R.sub(R.mul(R.mul(b, R.add(vr, pr)), R.add(vl, pl)), R.mul(R.mul(b, vr), pl)),
      R.mul(R.mul(b, vl), pr)), R.mul(b, R.mul(pl, pr))) == R.mul(R.mul(b, vl), vr)
  {
    Ring(R,
      S(S(S(M(M(V(0), A(V(1), V(2))), A(V(3), V(4))), M(M(V(0), V(1)), V(4))), M(M(V(0), V(3)), V(2))),
      M(V(0), M(V(4), V(2)))), M(M(V(0), V(3)), V(1)), [b, vr, pr, vl, pl]);
  }

  lemma KnownMoves<F(!new)>(R: Field<F>, known: F, s: F, v: F)
    requires IsRing(R) && R.add(known, s) == v
    ensures s == R.sub(v, known)
  {
    Ring(R, V(0), S(A(V(1), V(0)), V(1)), [s, known]);
  }

  /** The three pads of a layer: the third is the product of the other two. */
  ghost predicate WirePadsHold<F>(R: Field<F>, layout: Wit.WitnessLayout, w: seq<F>, j: nat)
    requires j < layout.NumLayers()
  {
    var i := layout.WireIndex(j);
    R.mul(At(R, w, i), At(R, w, i + 1)) == At(R, w, i + 2)
  }

  /** The witness satisfies the constraint that layer j emits. */
  lemma LayerConstraint<F(!new)>(R: Field<F>, layout: Wit.WitnessLayout, j: nat, w: seq<F>, rs: RoundState<F>,
                                 own: seq<F>, other: seq<F>, vl: F, vr: F)
    requires IsRing(R) && j < layout.NumLayers() && WirePadsHold(R, layout, w, j)
    requires Sym.ExpressionValue(R, rs.claim, w) == Total(R, rs.quad, |rs.quad|, Left, own, other)
    requires |rs.quad| == 1 && rs.quad[0].left == rs.quad[0].right == 0
    requires vl == R.sub(At(R, own, 0), At(R, w, layout.WireIndex(j)))
      && vr == R.sub(At(R, other, 0), At(R, w, layout.WireIndex(j) + 1))
    ensures var e := LastClaim(R, layout, j, rs.claim, rs.quad[0].coefficient, vl, vr);
      LhsSum(R, e.terms, w, e.constraint) == R.sub(R.mul(R.mul(rs.quad[0].coefficient, vl), vr), e.known)
  {
    var bound, i := rs.quad[0].coefficient, layout.WireIndex(j);
    var pl, pr := At(R, w, i), At(R, w, i + 1);
    Unpadded(R, At(R, own, 0), pl, vl);
    Unpadded(R, At(R, other, 0), pr, vr);
    SingleTotal(R, rs.quad, own, other);
    LastClaimValue(R, layout, j, rs.claim, bound, vl, vr, w);
    ConstraintRing(R, bound, vl, vr, pl, pr);
    var e := LastClaim(R, layout, j, rs.claim, bound, vl, vr);
    KnownMoves(R, e.known, LhsSum(R, e.terms, w, e.constraint), R.mul(R.mul(bound, vl), vr));
  }

  lemma SingleTotal<F(!new)>(R: Field<F>, q: seq<QuadElement<F>>, own: seq<F>, other: seq<F>)
    requires IsRing(R) && |q| == 1 && q[0].left == q[0].right == 0
    ensures Total(R, q, |q|, Left, own, other) == R.mul(R.mul(q[0].coefficient, At(R, other, 0)), At(R, own, 0))
  {
    var t := Term(R, q[0], Left, own, other);
    assert Total(R, q, 1, Left, own, other) == R.add(Total(R, q, 0, Left, own, other), t);
    assert Laws2(R, R.zero, t) && Laws1(R, t);
  }

  // ----- All layers -----

  ghost predicate TermsBelow<F>(lhs: seq<LhsTerm<F>>, constraints: nat, witnesses: nat) {
    forall i :: 0 <= i < |lhs| ==> lhs[i].constraint < constraints && lhs[i].witnessIndex < witnesses
  }

  /** The constraints emitted so far hold. */
  ghost predicate Holds<F>(R: Field<F>, lhs: seq<LhsTerm<F>>, rhs: seq<F>, w: seq<F>, witnesses: nat) {
    TermsBelow(lhs, |rhs|, witnesses) && LinearHold(R, LinearConstraints(lhs, rhs), w)
  }

  lemma HoldsNext<F(!new)>(R: Field<F>, lhs: seq<LhsTerm<F>>, rhs: seq<F>, terms: seq<LhsTerm<F>>, v: F, w: seq<F>,
                           witnesses: nat)
    requires IsRing(R) && Holds(R, lhs, rhs, w, witnesses) && Sym.Tagged(terms, |rhs|, witnesses)
      && LhsSum(R, terms, w, |rhs|) == v
    ensures Holds(R, lhs + terms, rhs + [v], w, witnesses)
  {
    var all := LinearConstraints(lhs + terms, rhs + [v]);
    forall c | 0 <= c < |rhs| + 1 ensures RowHolds(R, all, w, c) {
      Sym.LhsSumConcat(R, lhs, terms, w, c);
      if c < |rhs| {
        Sym.LhsSumOther(R, terms, w, c);
        assert RowHolds(R, LinearConstraints(lhs, rhs), w, c);
        assert Laws1(R, LhsSum(R, lhs, w, c));
      } else {
        Sym.LhsSumOther(R, lhs, w, c);
        assert Laws1(R, v) && Laws2(R, R.zero, v);
      }
    }
  }

  lemma LastClaimTags<F>(R: Field<F>, layout: Wit.WitnessLayout, j: nat, claim: Sym.Expression<F>, bound: F, vl: F,
                         vr: F)
    requires j < layout.NumLayers() && claim.constraint == j && Sym.Tagged(claim.terms, j, layout.Length())
    ensures var e :=
      LastClaim(R, layout, j, claim, bound, vl, vr); e.constraint == j && Sym.Tagged(e.terms, j, layout.Length())
  {
    WirePosition(layout, j);
  }

  /** What every layer of an honest run keeps. */
  ghost predicate LayerInvariant<F>(R: Field<F>, S: Setting<F>, w: seq<F>, st: LayerState<F>, j: nat, outputs: seq<F>)
    requires j <= S.layout.NumLayers()
  {
    && |st.left| == |st.right| && |st.rhs| == j
    && Claims(R, S.layout, w, st, j, outputs)
    && Holds(R, st.lhs, st.rhs, w, S.layout.Length())
  }

  lemma LayerStepKeeps<F(!new)>(R: Field<F>, S: Setting<F>, j: nat, wires: seq<F>, w: seq<F>, st: LayerState<F>,
                                lp: ProofLayer<F>)
    requires IsRing(R) && GoodConstants(R, S.K) && LayerFits(S, j, lp) && WellFormedLayer(R, S.circuit, j)
      && LayoutOf(S.layout, S.circuit)
    requires LayerInvariant(R, S, w, st, j, LayerOutputs(R, S.circuit, j, wires))
      && S.circuit.LevelWires(j) <= Exp2(|st.left|)
    requires AssertionsHold(R, S.circuit, S.circuit.layers[j].quads, LayerOutputs(R, S.circuit, j, wires))
    requires HonestLayer(R, S, j, wires, w, st, lp) && WirePadsHold(R, S.layout, w, j)
      && |wires| == S.circuit.layers[j].numWires
    ensures LayerInvariant(R, S, w, LayerStep(R, S, j, lp, st), j + 1, wires)
  {
    var first, rs := FirstRound(R, S, j, st), LastRound(R, S, j, lp, st);
    FirstRoundShape(R, S, j, st);
    FirstRoundClaim(R, S, j, wires, w, st);
    RoundsClaim(R, S, j, wires, w, first, lp.polynomials, S.layout.logw[j]);
    LastQuadSingle(R, S, j, lp, st);
    LayerEnd(R, S, j, wires, w, st, lp.vl, lp.vr, rs);
  }

  lemma LayerEnd<F(!new)>(R: Field<F>, S: Setting<F>, j: nat, wires: seq<F>, w: seq<F>, st: LayerState<F>, vl: F, vr: F,
                          rs: RoundState<F>)
    requires IsRing(R) && j < S.layout.NumLayers() && WirePadsHold(R, S.layout, w, j)
      && ClaimHolds(R, wires, w, rs, Left)
    requires |rs.quad| == 1 && rs.quad[0].left == rs.quad[0].right == 0 && |rs.left| == |rs.right|
    requires rs.claim.constraint == j && Sym.Tagged(rs.claim.terms, j, S.layout.Length())
    requires |st.rhs| == j && Holds(R, st.lhs, st.rhs, w, S.layout.Length())
    requires vl == R.sub(At(R, BindAll(R, wires, rs.left), 0), At(R, w, S.layout.WireIndex(j)))
    requires vr == R.sub(At(R, BindAll(R, wires, rs.right), 0), At(R, w, S.layout.WireIndex(j) + 1))
    ensures LayerInvariant(R, S, w, NextState(R, S.layout, j, st, rs, vl, vr), j + 1, wires)
  {
    LayerConstraintHolds(R, S, j, wires, w, st, vl, vr, rs);
    NextClaims(R, S, j, wires, w, NextState(R, S.layout, j, st, rs, vl, vr));
  }

  lemma LayerConstraintHolds<F(!new)>(R: Field<F>, S: Setting<F>, j: nat, wires: seq<F>, w: seq<F>, st: LayerState<F>,
                                      vl: F, vr: F, rs: RoundState<F>)
    requires IsRing(R) && j < S.layout.NumLayers() && WirePadsHold(R, S.layout, w, j)
      && ClaimHolds(R, wires, w, rs, Left)
    requires |rs.quad| == 1 && rs.quad[0].left == rs.quad[0].right == 0 && |rs.left| == |rs.right|
    requires rs.claim.constraint == j && Sym.Tagged(rs.claim.terms, j, S.layout.Length())
    requires |st.rhs| == j && Holds(R, st.lhs, st.rhs, w, S.layout.Length())
    requires vl == R.sub(At(R, BindAll(R, wires, rs.left), 0), At(R, w, S.layout.WireIndex(j)))
    requires vr == R.sub(At(R, BindAll(R, wires, rs.right), 0), At(R, w, S.layout.WireIndex(j) + 1))
    ensures var next := NextState(R, S.layout, j, st, rs, vl, vr);
      |next.rhs| == j + 1 && Holds(R, next.lhs, next.rhs, w, S.layout.Length())
  {
    var bound := rs.quad[0].coefficient;
    var e := LastClaim(R, S.layout, j, rs.claim, bound, vl, vr);
    LastClaimTags(R, S.layout, j, rs.claim, bound, vl, vr);
    LayerConstraint(R, S.layout, j, w, rs, BindAll(R, wires, rs.left), BindAll(R, wires, rs.right), vl, vr);
    HoldsNext(R, st.lhs, st.rhs, e.terms, R.sub(R.mul(R.mul(bound, vl), vr), e.known), w, S.layout.Length());
  }

  // ----- The constraint on the inputs -----

  /** The terms of the first k private inputs. */
  function PrivateClaim<F>(R: Field<F>, constraint: nat, publicInputs: nat, table: seq<F>, k: nat): Sym.Expression<F> {
    if k == 0 then Sym.NewExpression(R, constraint)
    else Sym.AddTerm(R, PrivateClaim(R, constraint, publicInputs, table, k - 1),
                     Sym.ScaleTerm(R, Sym.NewTerm(R, k - 1), At(R, table, k - 1 + publicInputs)))
  }

  function InputClaim<F>(R: Field<F>, layout: Wit.WitnessLayout, publicInputs: nat, table: seq<F>,
                         gamma: F): Sym.Expression<F>
    requires layout.NumLayers() > 0
  {
    var n := layout.NumLayers();
    var i := layout.WireIndex(n - 1);
    Minus(R, Minus(R, PrivateClaim(R, n, publicInputs, table, layout.numPrivateInputs), i, R.one), i + 1, gamma)
  }

  ghost function InputRhs<F>(R: Field<F>, publicInputs: seq<F>, table: seq<F>, gamma: F, vl: F, vr: F): F {
    R.sub(R.add(vl, R.mul(gamma, vr)), Dot(R, publicInputs, table, |publicInputs|))
  }

  /** The linear constraints of a run: one for each layer and one for the inputs. */
  ghost function ConstraintsOf<F>(R: Field<F>, S: Setting<F>, publicInputs: seq<F>,
                                  st: LayerState<F>): LinearConstraints<F>
    requires S.layout.NumLayers() > 0 && |st.left| == |st.right|
  {
    var gamma := Challenge(R, S.oracle, st.history);
    var table := EqBoth(R, st.left, st.right, gamma);
    LinearConstraints(st.lhs + InputClaim(R, S.layout, |publicInputs|, table, gamma).terms,
                      st.rhs + [InputRhs(R, publicInputs, table, gamma, st.vl, st.vr)])
  }

  ghost predicate CompleteProof<F>(S: Setting<F>, layers: seq<ProofLayer<F>>) {
    S.circuit.LevelBits(0) <= MAX_BINDINGS && 0 < S.layout.NumLayers() == S.circuit.NumLayers() == |layers|
      && ProofFits(S, layers)
  }

  ghost function RunConstraints<F>(R: Field<F>, S: Setting<F>, publicInputs: seq<F>, layers: seq<ProofLayer<F>>,
                                   h: FS.History<F>): LinearConstraints<F>
    requires CompleteProof(S, layers)
  {
    ConstraintsOf(R, S, publicInputs, Layers(R, S, layers, h, |layers|))
  }

  ghost function RunHistory<F>(R: Field<F>, S: Setting<F>, layers: seq<ProofLayer<F>>, h: FS.History<F>): FS.History<F>
    requires CompleteProof(S, layers)
  {
    Layers(R, S, layers, h, |layers|).history + [FS.Draw(1)]
  }

  ghost predicate HoldsInput<F>(R: Field<F>, w: seq<F>, inputs: seq<F>, publicInputs: nat, i: nat) {
    At(R, w, i) == At(R, inputs, publicInputs + i)
  }

  /** The witness starts with the private inputs. */
  ghost predicate HoldsInputs<F>(R: Field<F>, w: seq<F>, inputs: seq<F>, publicInputs: nat, n: nat) {
    forall i :: 0 <= i < n ==> HoldsInput(R, w, inputs, publicInputs, i)
  }

  ghost function PrivateValue<F>(R: Field<F>, constraint: nat, publicInputs: nat, table: seq<F>, w: seq<F>, k: nat): F {
    Sym.ExpressionValue(R, PrivateClaim(R, constraint, publicInputs, table, k), w)
  }

  lemma PrivateClaimNext<F(!new)>(R: Field<F>, constraint: nat, publicInputs: nat, table: seq<F>, inputs: seq<F>,
                                  w: seq<F>, k: nat, d: F, n: nat)
    requires IsRing(R) && HoldsInput(R, w, inputs, publicInputs, k) && n == publicInputs + k
    requires R.add(d, PrivateValue(R, constraint, publicInputs, table, w, k)) == Dot(R, inputs, table, n)
    ensures R.add(d, PrivateValue(R, constraint, publicInputs, table, w, k + 1)) == Dot(R, inputs, table, n + 1)
  {
    var e, t := PrivateClaim(R, constraint, publicInputs, table, k), At(R, table, k + publicInputs);
    Sym.AddTermValue(R, e, Sym.ScaleTerm(R, Sym.NewTerm(R, k), t), w);
    PrivateRing(R, d, Sym.ExpressionValue(R, e, w), t, At(R, w, k));
  }

  lemma PrivateRing<F(!new)>(R: Field<F>, d: F, v: F, t: F, x: F)
    requires IsRing(R)
    ensures R.add(d, R.add(v, R.add(R.mul(R.zero, t), R.mul(R.mul(R.one, t), x)))) == R.add(R.add(d, v), R.mul(x, t))
  {
    Ring(R, A(V(0), A(V(1), A(M(Z, V(2)), M(M(O, V(2)), V(3))))), A(A(V(0), V(1)), M(V(3), V(2))), [d, v, t, x]);
  }

  lemma PrivateClaimFirst<F(!new)>(R: Field<F>, constraint: nat, publicInputs: nat, table: seq<F>, w: seq<F>, d: F)
    requires IsRing(R)
    ensures R.add(d, PrivateValue(R, constraint, publicInputs, table, w, 0)) == d
  {
    assert Laws1(R, d) && Laws1(R, R.zero);
  }

  /** The private terms complete the sum over the public inputs to one over all inputs. */
  lemma {:induction false} PrivateClaimValue<F(!new)>(R: Field<F>, constraint: nat, publicInputs: nat, table: seq<F>,
                                                      inputs: seq<F>, w: seq<F>, k: nat, n: nat)
    requires IsRing(R) && HoldsInputs(R, w, inputs, publicInputs, k) && n == publicInputs + k
    ensures R.add(Dot(R, inputs, table, publicInputs), PrivateValue(R, constraint, publicInputs, table, w, k))
      == Dot(R, inputs, table, n)
    decreases k
  {
    var d := Dot(R, inputs, table, publicInputs);
    if k == 0 {
      PrivateClaimFirst(R, constraint, publicInputs, table, w, d);
    } else {
      var m, l := k - 1, n - 1;
      assert HoldsInput(R, w, inputs, publicInputs, m);
      PrivateClaimValue(R, constraint, publicInputs, table, inputs, w, m, l);
      PrivateClaimNext(R, constraint, publicInputs, table, inputs, w, m, d, l);
      assert k == m + 1 && n == l + 1;
    }
  }

  lemma PrivateClaimShape<F(!new)>(R: Field<F>, constraint: nat, publicInputs: nat, table: seq<F>, k: nat, n: nat)
    requires IsRing(R) && k <= n
    ensures var e := PrivateClaim(R, constraint, publicInputs, table, k);
      e.constraint == constraint && e.known == R.zero && Sym.Tagged(e.terms, constraint, n)
  {
    for i := 0 to k
      invariant var e := PrivateClaim(R, constraint, publicInputs, table, i);
        e.constraint == constraint && e.known == R.zero && Sym.Tagged(e.terms, constraint, n)
    {
      MulZero(R, At(R, table, i + publicInputs));
      assert Laws1(R, R.zero);
    }
  }

  lemma MinusShape<F(!new)>(R: Field<F>, e: Sym.Expression<F>, i: nat, b: F, constraint: nat, n: nat)
    requires IsRing(R) && i < n && e.constraint == constraint && e.known == R.zero && Sym.Tagged(e.terms, constraint, n)
    ensures var f :=
      Minus(R, e, i, b); f.constraint == constraint && f.known == R.zero && Sym.Tagged(f.terms, constraint, n)
  {
    MulZero(R, R.neg(b));
    assert Laws1(R, R.zero);
  }

  lemma InputClaimShape<F(!new)>(R: Field<F>, layout: Wit.WitnessLayout, publicInputs: nat, table: seq<F>, gamma: F)
    requires IsRing(R) && layout.NumLayers() > 0
    ensures var e := InputClaim(R, layout, publicInputs, table, gamma);
      e.constraint == layout.NumLayers() && e.known == R.zero
        && Sym.Tagged(e.terms, layout.NumLayers(), layout.Length())
  {
    var n := layout.NumLayers();
    var i, p := layout.WireIndex(n - 1), PrivateClaim(R, n, publicInputs, table, layout.numPrivateInputs);
    WirePosition(layout, n - 1);
    PrivateClaimShape(R, n, publicInputs, table, layout.numPrivateInputs, layout.Length());
    MinusShape(R, p, i, R.one, n, layout.Length());
    MinusShape(R, Minus(R, p, i, R.one), i + 1, gamma, n, layout.Length());
  }

  lemma InputRing<F(!new)>(R: Field<F>, d: F, v: F, vl: F, pl: F, gamma: F, vr: F, pr: F)
    requires IsRing(R) && R.add(d, v) == R.add(R.add(vl, pl), R.mul(gamma, R.add(vr, pr)))
    ensures R.sub(R.sub(v, R.mul(R.one, pl)), R.mul(gamma, pr)) == R.sub(R.add(vl, R.mul(gamma, vr)), d)
  {
    Ring(R, S(S(V(0), M(O, V(1))), M(V(2), V(3))), S(S(S(A(V(4), V(0)), V(4)), V(1)), M(V(2), V(3))),
      [v, pl, gamma, pr, d]);
    InputCancel(R, d, vl, pl, gamma, vr, pr);
  }

  lemma InputCancel<F(!new)>(R: Field<F>, d: F, vl: F, pl: F, gamma: F, vr: F, pr: F)
    requires IsRing(R)
    ensures R.sub(R.sub(R.sub(R.add(R.add(vl, pl), R.mul(gamma, R.add(vr, pr))), d), pl), R.mul(gamma, pr))
      == R.sub(R.add(vl, R.mul(gamma, vr)), d)
  {
    Ring(R, S(S(S(A(A(V(0), V(1)), M(V(2), A(V(3), V(4)))), V(5)), V(1)), M(V(2), V(4))),
      S(A(V(0), M(V(2), V(3))), V(5)), [vl, pl, gamma, vr, pr, d]);
  }

  /** What the witness holds: the private inputs, and products at the vl * vr positions. */
  ghost predicate WitnessOf<F>(R: Field<F>, S: Setting<F>, inputs: seq<F>, w: seq<F>) {
    && |w| == S.layout.Length() && |inputs| == S.circuit.numInputs
    && HoldsInputs(R, w, inputs, S.circuit.numPublicInputs, S.layout.numPrivateInputs)
    && (forall j :: 0 <= j < S.layout.NumLayers() ==> WirePadsHold(R, S.layout, w, j))
  }

  /** The table of the final challenge, applied to the inputs, is the combination of the two last claims. */
  lemma InputTable<F(!new)>(R: Field<F>, layout: Wit.WitnessLayout, w: seq<F>, st: LayerState<F>, inputs: seq<F>,
                            gamma: F)
    requires IsRing(R) && layout.NumLayers() > 0 && |st.left| == |st.right| && |inputs| <= Exp2(|st.left|)
    requires Claims(R, layout, w, st, layout.NumLayers(), inputs)
    ensures var i := layout.WireIndex(layout.NumLayers() - 1);
      Dot(R, inputs, EqBoth(R, st.left, st.right, gamma), |inputs|)
        == R.add(R.add(st.vl, At(R, w, i)), R.mul(gamma, R.add(st.vr, At(R, w, i + 1))))
  {
    var table, n := EqBoth(R, st.left, st.right, gamma), Exp2(|st.left|);
    DotComm(R, inputs, table, |inputs|);
    DotPastEnd(R, table, inputs, |inputs|, n);
    DotAddScaled(R, Eq(R, st.left), gamma, Eq(R, st.right), inputs, n);
  }

  /** The witness satisfies the constraint on the inputs. */
  lemma InputConstraint<F(!new)>(R: Field<F>, layout: Wit.WitnessLayout, w: seq<F>, st: LayerState<F>, inputs: seq<F>,
                                 publicInputs: seq<F>, gamma: F)
    requires IsRing(R) && layout.NumLayers() > 0 && |st.left| == |st.right| && |inputs| <= Exp2(|st.left|)
    requires Claims(R, layout, w, st, layout.NumLayers(), inputs)
    requires |inputs| == |publicInputs| + layout.numPrivateInputs && publicInputs == inputs[..|publicInputs|]
    requires HoldsInputs(R, w, inputs, |publicInputs|, layout.numPrivateInputs)
    ensures var table := EqBoth(R, st.left, st.right, gamma);
      LhsSum(R, InputClaim(R, layout, |publicInputs|, table, gamma).terms, w, layout.NumLayers())
      == InputRhs(R, publicInputs, table, gamma, st.vl, st.vr)
  {
    var table, n := EqBoth(R, st.left, st.right, gamma), layout.NumLayers();
    var i := layout.WireIndex(n - 1);
    InputSum(R, layout, w, st, inputs, publicInputs, gamma);
    InputRing(R, Dot(R, publicInputs, table, |publicInputs|),
      PrivateValue(R, n, |publicInputs|, table, w, layout.numPrivateInputs), st.vl, At(R, w, i), gamma, st.vr,
      At(R, w, i + 1));
    InputClaimSum(R, layout, |publicInputs|, table, gamma, w);
  }

  lemma InputSum<F(!new)>(R: Field<F>, layout: Wit.WitnessLayout, w: seq<F>, st: LayerState<F>, inputs: seq<F>,
                          publicInputs: seq<F>, gamma: F)
    requires IsRing(R) && layout.NumLayers() > 0 && |st.left| == |st.right| && |inputs| <= Exp2(|st.left|)
    requires Claims(R, layout, w, st, layout.NumLayers(), inputs)
    requires |inputs| == |publicInputs| + layout.numPrivateInputs && publicInputs == inputs[..|publicInputs|]
    requires HoldsInputs(R, w, inputs, |publicInputs|, layout.numPrivateInputs)
    ensures var table, n := EqBoth(R, st.left, st.right, gamma), layout.NumLayers();
      var i := layout.WireIndex(n - 1);
      R.add(Dot(R, publicInputs, table, |publicInputs|),
        PrivateValue(R, n, |publicInputs|, table, w, layout.numPrivateInputs))
        == R.add(R.add(st.vl, At(R, w, i)), R.mul(gamma, R.add(st.vr, At(R, w, i + 1))))
  {
    var table, n := EqBoth(R, st.left, st.right, gamma), layout.NumLayers();
    InputTable(R, layout, w, st, inputs, gamma);
    PrivateClaimValue(R, n, |publicInputs|, table, inputs, w, layout.numPrivateInputs, |inputs|);
    DotCong(R, publicInputs, table, inputs, table, |publicInputs|);
  }

  lemma InputClaimSum<F(!new)>(R: Field<F>, layout: Wit.WitnessLayout, publicInputs: nat, table: seq<F>, gamma: F,
                               w: seq<F>)
    requires IsRing(R) && layout.NumLayers() > 0
    ensures var n := layout.NumLayers();
      var i := layout.WireIndex(n - 1);
      LhsSum(R, InputClaim(R, layout, publicInputs, table, gamma).terms, w, n)
      == R.sub(R.sub(PrivateValue(R, n, publicInputs, table, w, layout.numPrivateInputs), R.mul(R.one, At(R, w, i))),
        R.mul(gamma, At(R, w, i + 1)))
  {
    var n := layout.NumLayers();
    var i, p := layout.WireIndex(n - 1), PrivateClaim(R, n, publicInputs, table, layout.numPrivateInputs);
    InputClaimShape(R, layout, publicInputs, table, gamma);
    MinusValue(R, p, i, R.one, w);
    MinusValue(R, Minus(R, p, i, R.one), i + 1, gamma, w);
    var s := LhsSum(R, InputClaim(R, layout, publicInputs, table, gamma).terms, w, n);
    assert Laws1(R, s) && Laws2(R, R.zero, s);
  }

  // ----- Completeness -----

  /** The first k layers of the proof come from the honest prover. */
  ghost predicate HonestProof<F(!new)>(R: Field<F>, S: Setting<F>, inputs: seq<F>, w: seq<F>, h: FS.History<F>,
                                       layers: seq<ProofLayer<F>>, k: nat)
    requires S.circuit.LevelBits(0) <= MAX_BINDINGS && ProofFits(S, layers) && k <= |layers|
      && |inputs| == S.circuit.LevelWires(S.circuit.NumLayers())
  {
    k > 0 ==> HonestProof(R, S, inputs, w, h, layers, k - 1) && HonestAt(R, S, inputs, w, h, layers, k - 1)
  }

  lemma {:induction false} HonestProofAt<F(!new)>(R: Field<F>, S: Setting<F>, inputs: seq<F>, w: seq<F>,
                                                  h: FS.History<F>, layers: seq<ProofLayer<F>>, k: nat, j: nat)
    requires S.circuit.LevelBits(0) <= MAX_BINDINGS && ProofFits(S, layers) && j < k <= |layers|
      && |inputs| == S.circuit.LevelWires(S.circuit.NumLayers())
    requires HonestProof(R, S, inputs, w, h, layers, k)
    ensures HonestAt(R, S, inputs, w, h, layers, j)
    decreases k
  {
    HonestProofLast(R, S, inputs, w, h, layers, k - 1);
    if j < k - 1 {
      HonestProofAt(R, S, inputs, w, h, layers, k - 1, j);
    }
  }

  lemma HonestProofLast<F(!new)>(R: Field<F>, S: Setting<F>, inputs: seq<F>, w: seq<F>, h: FS.History<F>,
                                 layers: seq<ProofLayer<F>>, m: nat)
    requires S.circuit.LevelBits(0) <= MAX_BINDINGS && ProofFits(S, layers) && m < |layers|
      && |inputs| == S.circuit.LevelWires(S.circuit.NumLayers())
    requires HonestProof(R, S, inputs, w, h, layers, m + 1)
    ensures HonestProof(R, S, inputs, w, h, layers, m) && HonestAt(R, S, inputs, w, h, layers, m)
  {
  }

  ghost predicate HonestAt<F(!new)>(R: Field<F>, S: Setting<F>, inputs: seq<F>, w: seq<F>, h: FS.History<F>,
                                    layers: seq<ProofLayer<F>>, j: nat)
    requires S.circuit.LevelBits(0) <= MAX_BINDINGS && ProofFits(S, layers) && j < |layers|
      && |inputs| == S.circuit.LevelWires(S.circuit.NumLayers())
  {
    LayerFits(S, j, layers[j])
      && HonestLayer(R, S, j, Level(R, S.circuit, inputs, j + 1), w, Layers(R, S, layers, h, j), layers[j])
  }

  /** The claims of the first layer are zero because all outputs are. */
  lemma FirstInvariant<F(!new)>(R: Field<F>, S: Setting<F>, w: seq<F>, h: FS.History<F>, outputs: seq<F>)
    requires IsRing(R) && S.circuit.LevelBits(0) <= MAX_BINDINGS
    requires forall g :: 0 <= g < |outputs| ==> outputs[g] == R.zero
    ensures LayerInvariant(R, S, w, FirstState(R, S, h), 0, outputs)
  {
    var st := FirstState(R, S, h);
    assert outputs == Zeros(R, |outputs|);
    DotZeros(R, |outputs|, Eq(R, st.left), Exp2(|st.left|));
    DotComm(R, outputs, Eq(R, st.left), Exp2(|st.left|));
    assert Laws1(R, R.zero);
  }

  /** The bindings are long enough for the wires of their level. */
  lemma BindingsCover<F(!new)>(R: Field<F>, S: Setting<F>, layers: seq<ProofLayer<F>>, h: FS.History<F>, k: nat)
    requires GoodSetting(R, S) && FS.ValidOracle(S.oracle) && ProofFits(S, layers) && k <= |layers|
    ensures S.circuit.LevelWires(k) <= Exp2(|Layers(R, S, layers, h, k).left|)
  {
    if k == 0 {
      assert FS.ChallengeShape(S.oracle, h + [FS.Draw(MAX_BINDINGS)], S.circuit.LevelBits(0));
    } else {
      assert WellFormedLayer(R, S.circuit, k - 1);
    }
  }

  /** The invariant of the layers holds after each of the first k. */
  ghost predicate Kept<F>(R: Field<F>, S: Setting<F>, inputs: seq<F>, w: seq<F>, h: FS.History<F>,
                          layers: seq<ProofLayer<F>>, k: nat)
    requires S.circuit.LevelBits(0) <= MAX_BINDINGS && ProofFits(S, layers) && k <= |layers|
      && |inputs| == S.circuit.LevelWires(S.circuit.NumLayers())
  {
    && (k > 0 ==> Kept(R, S, inputs, w, h, layers, k - 1))
    && LayerInvariant(R, S, w, Layers(R, S, layers, h, k), k, Level(R, S.circuit, inputs, k))
  }

  lemma LayersStart<F(!new)>(R: Field<F>, S: Setting<F>, inputs: seq<F>, w: seq<F>, h: FS.History<F>,
                             layers: seq<ProofLayer<F>>)
    requires IsRing(R) && GoodSetting(R, S) && ProofFits(S, layers)
      && |inputs| == S.circuit.LevelWires(S.circuit.NumLayers())
    requires forall g :: 0 <= g < S.circuit.numOutputs ==> Level(R, S.circuit, inputs, 0)[g] == R.zero
    ensures Kept(R, S, inputs, w, h, layers, 0)
  {
    FirstInvariant(R, S, w, h, Level(R, S.circuit, inputs, 0));
  }

  lemma LayersKeep<F(!new)>(R: Field<F>, S: Setting<F>, inputs: seq<F>, w: seq<F>, h: FS.History<F>,
                            layers: seq<ProofLayer<F>>, k: nat)
    requires IsRing(R) && GoodSetting(R, S) && FS.ValidOracle(S.oracle) && ProofFits(S, layers) && k <= |layers|
    requires WitnessOf(R, S, inputs, w) && Accepted(R, S.circuit, inputs)
    requires HonestProof(R, S, inputs, w, h, layers, k) && Kept(R, S, inputs, w, h, layers, 0)
    ensures Kept(R, S, inputs, w, h, layers, k)
  {
    for j := 0 to k
      invariant Kept(R, S, inputs, w, h, layers, j)
    {
      HonestProofAt(R, S, inputs, w, h, layers, k, j);
      LayersKeepNext(R, S, inputs, w, h, layers, j);
    }
  }

  lemma LayersKeepNext<F(!new)>(R: Field<F>, S: Setting<F>, inputs: seq<F>, w: seq<F>, h: FS.History<F>,
                                layers: seq<ProofLayer<F>>, j: nat)
    requires IsRing(R) && GoodSetting(R, S) && FS.ValidOracle(S.oracle) && ProofFits(S, layers) && j < |layers|
    requires WitnessOf(R, S, inputs, w) && Accepted(R, S.circuit, inputs)
    requires HonestAt(R, S, inputs, w, h, layers, j)
    requires Kept(R, S, inputs, w, h, layers, j)
    ensures Kept(R, S, inputs, w, h, layers, j + 1)
  {
    assert WellFormedLayer(R, S.circuit, j) && LayerAccepts(R, S.circuit, inputs, j) && WirePadsHold(R, S.layout, w, j);
    assert LayerFits(S, j, layers[j]);
    BindingsCover(R, S, layers, h, j);
    LayerStepKeeps(R, S, j, Level(R, S.circuit, inputs, j + 1), w, Layers(R, S, layers, h, j), layers[j]);
  }

  /**
   Completeness: for every well-formed circuit, every accepted input with zero outputs, every pad and every challenge,
   the witness satisfies every linear constraint of the honest run.
   */
  lemma SumcheckCompleteness<F(!new)>(R: Field<F>, S: Setting<F>, inputs: seq<F>, w: seq<F>, h: FS.History<F>,
                                      layers: seq<ProofLayer<F>>)
    requires IsRing(R) && GoodSetting(R, S) && FS.ValidOracle(S.oracle) && CompleteProof(S, layers)
    requires WitnessOf(R, S, inputs, w) && Accepted(R, S.circuit, inputs)
    requires forall g :: 0 <= g < S.circuit.numOutputs ==> Level(R, S.circuit, inputs, 0)[g] == R.zero
    requires HonestProof(R, S, inputs, w, h, layers, |layers|)
    ensures var linear := RunConstraints(R, S, inputs[..S.circuit.numPublicInputs], layers, h);
      LinearInRange(linear, |w|) && LinearHold(R, linear, w)
  {
    var st, n := Layers(R, S, layers, h, |layers|), |layers|;
    LayersStart(R, S, inputs, w, h, layers);
    LayersKeep(R, S, inputs, w, h, layers, n);
    BindingsCover(R, S, layers, h, n);
    InputsHold(R, S, inputs, w, st);
  }

  lemma InputsHold<F(!new)>(R: Field<F>, S: Setting<F>, inputs: seq<F>, w: seq<F>, st: LayerState<F>)
    requires IsRing(R) && GoodSetting(R, S) && WitnessOf(R, S, inputs, w)
    requires LayerInvariant(R, S, w, st, S.layout.NumLayers(), inputs) && |inputs| <= Exp2(|st.left|)
    ensures var linear := ConstraintsOf(R, S, inputs[..S.circuit.numPublicInputs], st);
      LinearInRange(linear, |w|) && LinearHold(R, linear, w)
  {
    var publicInputs, gamma := inputs[..S.circuit.numPublicInputs], Challenge(R, S.oracle, st.history);
    var table := EqBoth(R, st.left, st.right, gamma);
    InputConstraint(R, S.layout, w, st, inputs, publicInputs, gamma);
    InputClaimShape(R, S.layout, |publicInputs|, table, gamma);
    HoldsNext(R, st.lhs, st.rhs, InputClaim(R, S.layout, |publicInputs|, table, gamma).terms,
              InputRhs(R, publicInputs, table, gamma, st.vl, st.vr), w, |w|);
  }

  // ----- The constraints of any run, honest or not, are in range -----

  /** Every layer adds one constraint, with its own number. */
  ghost predicate Numbered<F>(layout: Wit.WitnessLayout, st: LayerState<F>, k: nat) {
    |st.rhs| == k && TermsBelow(st.lhs, k, layout.Length())
  }

  lemma NumberedNext<F>(R: Field<F>, S: Setting<F>, j: nat, lp: ProofLayer<F>, st: LayerState<F>)
    requires LayerFits(S, j, lp) && WellFormedLayer(R, S.circuit, j) && LayoutOf(S.layout, S.circuit)
      && |st.left| == |st.right|
    requires Numbered(S.layout, st, j)
    ensures Numbered(S.layout, LayerStep(R, S, j, lp, st), j + 1)
  {
    var rs := LastRound(R, S, j, lp, st);
    LastQuadSingle(R, S, j, lp, st);
    LastClaimTags(R, S.layout, j, rs.claim, BoundElement(R, rs.quad), lp.vl, lp.vr);
    TermsBelowConcat(st.lhs, LastClaim(R, S.layout, j, rs.claim, BoundElement(R, rs.quad), lp.vl, lp.vr).terms, j,
      S.layout.Length());
  }

  lemma TermsBelowConcat<F>(lhs: seq<LhsTerm<F>>, terms: seq<LhsTerm<F>>, k: nat, n: nat)
    requires TermsBelow(lhs, k, n) && Sym.Tagged(terms, k, n)
    ensures TermsBelow(lhs + terms, k + 1, n)
  {
  }

  lemma LayersNext<F>(R: Field<F>, S: Setting<F>, layers: seq<ProofLayer<F>>, h: FS.History<F>, k: nat)
    requires S.circuit.LevelBits(0) <= MAX_BINDINGS && ProofFits(S, layers) && k < |layers|
    ensures LayerFits(S, k, layers[k])
    ensures Layers(R, S, layers, h, k + 1) == LayerStep(R, S, k, layers[k], Layers(R, S, layers, h, k))
  {
    assert LayerFits(S, k, layers[k]);
  }

  ghost predicate AllNumbered<F>(R: Field<F>, S: Setting<F>, layers: seq<ProofLayer<F>>, h: FS.History<F>, k: nat)
    requires S.circuit.LevelBits(0) <= MAX_BINDINGS && ProofFits(S, layers) && k <= |layers|
  {
    (k > 0 ==> AllNumbered(R, S, layers, h, k - 1)) && Numbered(S.layout, Layers(R, S, layers, h, k), k)
  }

  lemma AllNumberedNext<F>(R: Field<F>, S: Setting<F>, layers: seq<ProofLayer<F>>, h: FS.History<F>, j: nat)
    requires GoodSetting(R, S) && ProofFits(S, layers) && j < |layers| && AllNumbered(R, S, layers, h, j)
    ensures AllNumbered(R, S, layers, h, j + 1)
  {
    assert WellFormedLayer(R, S.circuit, j);
    LayersNext(R, S, layers, h, j);
    NumberedNext(R, S, j, layers[j], Layers(R, S, layers, h, j));
  }

  lemma LayersNumbered<F>(R: Field<F>, S: Setting<F>, layers: seq<ProofLayer<F>>, h: FS.History<F>)
    requires GoodSetting(R, S) && ProofFits(S, layers)
    ensures AllNumbered(R, S, layers, h, |layers|)
  {
    for j := 0 to |layers|
      invariant AllNumbered(R, S, layers, h, j)
    {
      AllNumberedNext(R, S, layers, h, j);
    }
  }

  lemma InputInRange<F(!new)>(R: Field<F>, S: Setting<F>, publicInputs: seq<F>, st: LayerState<F>)
    requires IsRing(R) && S.layout.NumLayers() > 0 && |st.left| == |st.right|
      && Numbered(S.layout, st, S.layout.NumLayers())
    ensures LinearInRange(ConstraintsOf(R, S, publicInputs, st), S.layout.Length())
  {
    var gamma := Challenge(R, S.oracle, st.history);
    var table := EqBoth(R, st.left, st.right, gamma);
    InputClaimShape(R, S.layout, |publicInputs|, table, gamma);
    TermsBelowConcat(st.lhs, InputClaim(R, S.layout, |publicInputs|, table, gamma).terms, S.layout.NumLayers(),
      S.layout.Length());
  }

  lemma ConstraintsInRange<F(!new)>(R: Field<F>, S: Setting<F>, publicInputs: seq<F>, layers: seq<ProofLayer<F>>,
                                    h: FS.History<F>)
    requires IsRing(R) && GoodSetting(R, S) && CompleteProof(S, layers)
    ensures LinearInRange(RunConstraints(R, S, publicInputs, layers, h), S.layout.Length())
  {
    LayersNumbered(R, S, layers, h);
    InputInRange(R, S, publicInputs, Layers(R, S, layers, h, |layers|));
  }
}
