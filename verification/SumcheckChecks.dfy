/**
 What the linear constraints of sumcheck (src/sumcheck/mod.rs, `run_protocol`) mean, for any proof, honest or not: with
 the pads filled in, each says that a plain sumcheck verifier accepts one layer, and the last that it accepts the
 inputs.
 */
module SumcheckChecks {
  import opened Fields
  import opened Sums
  import opened Dots
  import opened Bind
  import opened Sparse
  import opened Circuits
  import opened Constraints
  import opened SumcheckRounds
  import opened Sumcheck
  import opened SumcheckScript
  import Sym = Symbolic
  import Wit = Witness
  import FS = FiatShamir

  // ----- The plain verifier -----

  /**
   The value at x of the quadratic polynomial with the values p0 and p2 at 0 and K.p2, whose values at 0 and 1 add up to
   v.
   */
  ghost function Interpolated<F>(R: Field<F>, K: SumcheckConstants<F>, v: F, p0: F, p2: F, x: F): F {
    R.add(R.add(R.mul(Lagrange0(R, K, x), p0), R.mul(Lagrange1(R, K, x), R.sub(v, p0))), R.mul(Lagrange2(R, K, x), p2))
  }

  /** The claim about the gates of layer j: with their pads, the two claims of the layer before. */
  ghost function GateClaim<F>(R: Field<F>, layout: Wit.WitnessLayout, layers: seq<ProofLayer<F>>, j: nat, alpha: F,
                              w: seq<F>): F
    requires j <= |layers| && j <= layout.NumLayers()
  {
    if j == 0 then R.zero
    else
      var i := layout.WireIndex(j - 1);
      R.add(R.add(layers[j - 1].vl, At(R, w, i)), R.mul(alpha, R.add(layers[j - 1].vr, At(R, w, i + 1))))
  }

  /**
   The claim after k rounds, each polynomial with its pads; xs and ys are the challenges of the left and right hand.
   */
  ghost function RoundClaims<F>(R: Field<F>, K: SumcheckConstants<F>, layout: Wit.WitnessLayout, j: nat,
                                ps: seq<RoundPolynomials<F>>, xs: seq<F>, ys: seq<F>,
                                v: F, w: seq<F>, k: nat): F
    requires j < layout.NumLayers() && k <= layout.logw[j] && k <= |ps| && k <= |xs| && k <= |ys|
  {
    if k == 0 then v
    else
      var r := k - 1;
      var a, b := layout.PolynomialIndex(j, r, 0), layout.PolynomialIndex(j, r, 1);
      var before := RoundClaims(R, K, layout, j, ps, xs, ys, v, w, r);
      var middle :=
        Interpolated(R, K, before, R.add(ps[r].left.p0, At(R, w, a)), R.add(ps[r].left.p2, At(R, w, a + 1)), xs[r]);
      Interpolated(R, K, middle, R.add(ps[r].right.p0, At(R, w, b)), R.add(ps[r].right.p2, At(R, w, b + 1)), ys[r])
  }

  /** The sum over the first n quads of Q + beta * Z at the points of gate, left and right wires. */
  ghost function QuadSum<F>(R: Field<F>, constants: seq<F>, quads: seq<Quad>, beta: F, gates: seq<F>, alpha: F,
                            others: seq<F>, left: seq<F>, right: seq<F>,
                            n: nat): F
    requires n <= |quads|
  {
    if n == 0 then R.zero
    else
      var quad := quads[n - 1];
      var constant := At(R, constants, quad.constant);
      var coefficient := if constant == R.zero then beta else constant;
      var gate := R.add(At(R, gates, quad.gate), R.mul(alpha, At(R, others, quad.gate)));
      R.add(QuadSum(R, constants, quads, beta, gates, alpha, others, left, right, n - 1),
        R.mul(R.mul(R.mul(coefficient, gate), At(R, right, quad.right)), At(R, left, quad.left)))
  }

  /** The value of the quad of layer j at the challenges of a run. */
  ghost function QuadValue<F>(R: Field<F>, S: Setting<F>, layers: seq<ProofLayer<F>>, h: FS.History<F>, j: nat): F
    requires S.circuit.LevelBits(0) <= MAX_BINDINGS && j < |layers| && j < S.circuit.NumLayers()
  {
    var n, quads := S.circuit.LevelBits(0), S.circuit.layers[j].quads;
    var start := h + RunSteps(n, layers, j);
    var alpha, beta := At(R, S.oracle.challenge(start, 1), 0), At(R, S.oracle.challenge(start + [FS.Draw(1)], 1), 0);
    QuadSum(R, S.circuit.constantTable, quads, beta, Eq(R, LeftGate(R, S, layers, h, j)), alpha,
      Eq(R, RightGate(R, S, layers, h, j)),
            Eq(R, LeftGate(R, S, layers, h, j + 1)), Eq(R, RightGate(R, S, layers, h, j + 1)), |quads|)
  }

  /** The claim about the wires of layer j. */
  ghost function WireClaim<F>(R: Field<F>, S: Setting<F>, layers: seq<ProofLayer<F>>, h: FS.History<F>, w: seq<F>,
                              j: nat): F
    requires S.circuit.LevelBits(0) <= MAX_BINDINGS && j < |layers| && LayerFits(S, j, layers[j])
  {
    var alpha := At(R, S.oracle.challenge(h + RunSteps(S.circuit.LevelBits(0), layers, j), 1), 0);
    RoundClaims(R, S.K, S.layout, j, layers[j].polynomials, LeftGate(R, S, layers, h, j + 1),
      RightGate(R, S, layers, h, j + 1),
                GateClaim(R, S.layout, layers, j, alpha, w), w, S.layout.logw[j])
  }

  /** The check of layer j: the claim is the value of the quad times the two claimed wires. */
  ghost predicate LayerCheck<F>(R: Field<F>, S: Setting<F>, layers: seq<ProofLayer<F>>, h: FS.History<F>, w: seq<F>,
                                j: nat)
    requires S.circuit.LevelBits(0) <= MAX_BINDINGS && j < |layers| && LayerFits(S, j, layers[j])
  {
    var i := S.layout.WireIndex(j);
    WireClaim(R, S, layers, h, w, j)
      == R.mul(QuadValue(R, S, layers, h, j),
      R.mul(R.add(layers[j].vl, At(R, w, i)), R.add(layers[j].vr, At(R, w, i + 1))))
  }

  /** The public inputs, then the first n witnesses. */
  ghost function AllInputs<F>(R: Field<F>, publicInputs: seq<F>, w: seq<F>, n: nat): (s: seq<F>)
    ensures |s| == |publicInputs| + n
    ensures forall k :: 0 <= k < n ==> s[|publicInputs| + k] == At(R, w, k)
  {
    publicInputs + seq(n, (k: nat) => At(R, w, k))
  }

  /** The two claims of the last layer, combined, are the inputs at the points xs and ys. */
  ghost predicate InputEquation<F>(R: Field<F>, layout: Wit.WitnessLayout, publicInputs: seq<F>, xs: seq<F>, ys: seq<F>,
                                   vl: F, vr: F, gamma: F, w: seq<F>)
    requires layout.NumLayers() > 0
  {
    var i, inputs := layout.WireIndex(layout.NumLayers() - 1), AllInputs(R, publicInputs, w, layout.numPrivateInputs);
    R.add(R.add(vl, At(R, w, i)), R.mul(gamma, R.add(vr, At(R, w, i + 1)))) == AtPoints(R, inputs, xs, ys, gamma)
  }

  ghost function AtPoints<F>(R: Field<F>, inputs: seq<F>, xs: seq<F>, ys: seq<F>, gamma: F): F {
    R.add(Dot(R, Eq(R, xs), inputs, |inputs|), R.mul(gamma, Dot(R, Eq(R, ys), inputs, |inputs|)))
  }

  /** The check of the inputs, at the challenges of a run. */
  ghost predicate InputCheck<F>(R: Field<F>, S: Setting<F>, publicInputs: seq<F>, layers: seq<ProofLayer<F>>,
                                h: FS.History<F>, w: seq<F>)
    requires CompleteProof(S, layers)
  {
    var n := |layers|;
    var gamma := At(R, S.oracle.challenge(h + RunSteps(S.circuit.LevelBits(0), layers, n), 1), 0);
    InputEquation(R, S.layout, publicInputs, LeftGate(R, S, layers, h, n), RightGate(R, S, layers, h, n),
      layers[n - 1].vl, layers[n - 1].vr, gamma, w)
  }

  // ----- The polynomial of a round -----

  /** The interpolation finds the value of every quadratic polynomial a + b * x + c * x^2. */
  lemma InterpolatedIsValue<F(!new)>(R: Field<F>, K: SumcheckConstants<F>, a: F, b: F, c: F, x: F)
    requires IsRing(R) && GoodConstants(R, K)
    ensures Interpolated(R, K, R.add(a, R.add(R.add(a, b), c)), a,
      R.add(R.add(a, R.mul(K.p2, b)), R.mul(R.mul(K.p2, K.p2), c)), x)
      == R.add(R.add(a, R.mul(x, b)), R.mul(R.mul(x, x), c))
  {
    BasisOnMonomials(R, K, x);
    var l0, l1, l2 := Lagrange0(R, K, x), Lagrange1(R, K, x), Lagrange2(R, K, x);
    SumWithout(R, a, R.add(R.add(a, b), c));
    BasisCollect(R, l0, l1, l2, K.p2, a, b, c);
    assert Laws2(R, R.one, a) && Laws1(R, a);
  }

  lemma SumWithout<F(!new)>(R: Field<F>, a: F, b: F)
    requires IsRing(R)
    ensures R.sub(R.add(a, b), a) == b
  {
    Ring(R, S(A(V(0), V(1)), V(0)), V(1), [a, b]);
  }

  lemma InterpolatedClaim<F(!new)>(R: Field<F>, v: F, l: F, m: F, n: F, p0: F, p2: F)
    requires IsRing(R)
    ensures R.add(R.add(R.mul(v, m), R.mul(p0, R.sub(l, m))), R.mul(p2, n))
      == R.add(R.add(R.mul(l, p0), R.mul(m, R.sub(v, p0))), R.mul(n, p2))
  {
    Ring(R, A(A(M(V(0), V(1)), M(V(2), S(V(3), V(1)))), M(V(4), V(5))),
      A(A(M(V(3), V(2)), M(V(1), S(V(0), V(2)))), M(V(5), V(4))), [v, m, p0, l, p2, n]);
  }

  /** Updating the symbolic claim is interpolation, once the pads are filled in. */
  lemma UpdateInterpolates<F(!new)>(R: Field<F>, K: SumcheckConstants<F>, claim: Sym.Expression<F>, x: F,
                                    p: Polynomial<F>, i: nat, w: seq<F>)
    requires IsRing(R)
    ensures Sym.ExpressionValue(R, UpdatedClaim(R, K, claim, x, p, i), w)
      == Interpolated(R, K, Sym.ExpressionValue(R, claim, w), R.add(p.p0, At(R, w, i)), R.add(p.p2, At(R, w, i + 1)), x)
  {
    UpdatedClaimValue(R, K, claim, x, p, i, w);
    InterpolatedClaim(R, Sym.ExpressionValue(R, claim, w), Lagrange0(R, K, x), Lagrange1(R, K, x), Lagrange2(R, K, x),
                      R.add(p.p0, At(R, w, i)), R.add(p.p2, At(R, w, i + 1)));
  }

  /** The challenges of a round are those that the script draws. */
  lemma RoundDraws<F>(R: Field<F>, S: Setting<F>, j: nat, b: FS.History<F>, ps: seq<RoundPolynomials<F>>, k: nat,
                      rs: RoundState<F>)
    requires j < S.layout.NumLayers() && k < S.layout.logw[j] && k < |ps| && Follows(R, S.oracle, b, ps, k, rs)
    ensures Challenge(R, S.oracle, AfterPolynomial(rs.history, ps[k].left)) == LeftPoints(R, S.oracle, b, ps, k + 1)[k]
    ensures Challenge(R, S.oracle, AfterPolynomial(HandStep(R, S, j, k, Left, ps[k].left, rs).history, ps[k].right))
      == RightPoints(R, S.oracle, b, ps, k + 1)[k]
  {
    RoundFollows(R, S, j, b, ps, k, rs);
    var next := RoundStep(R, S, j, k, ps[k], rs);
    assert next.left[|rs.left|] == LeftPoints(R, S.oracle, b, ps, k + 1)[k];
    assert next.right[|rs.right|] == RightPoints(R, S.oracle, b, ps, k + 1)[k];
  }

  lemma HandValue<F(!new)>(R: Field<F>, S: Setting<F>, j: nat, k: nat, hand: Hand, p: Polynomial<F>, rs: RoundState<F>,
                           w: seq<F>, v: F, x: F)
    requires IsRing(R) && j < S.layout.NumLayers() && k < S.layout.logw[j]
    requires Sym.ExpressionValue(R, rs.claim, w) == v && x == Challenge(R, S.oracle, AfterPolynomial(rs.history, p))
    ensures var i := S.layout.PolynomialIndex(j, k, HandIndex(hand));
      Sym.ExpressionValue(R, HandStep(R, S, j, k, hand, p, rs).claim, w)
      == Interpolated(R, S.K, v, R.add(p.p0, At(R, w, i)), R.add(p.p2, At(R, w, i + 1)), x)
  {
    UpdateInterpolates(R, S.K, rs.claim, x, p, S.layout.PolynomialIndex(j, k, HandIndex(hand)), w);
  }

  /** One round takes the claim v to the next claim. */
  ghost predicate Advances<F>(R: Field<F>, S: Setting<F>, j: nat, ps: seq<RoundPolynomials<F>>, xs: seq<F>, ys: seq<F>,
                              v: F, w: seq<F>, k: nat,
                              rs: RoundState<F>)
    requires j < S.layout.NumLayers() && k <= S.layout.logw[j] && k <= |ps| && k <= |xs| && k <= |ys|
  {
    Sym.ExpressionValue(R, rs.claim, w) == RoundClaims(R, S.K, S.layout, j, ps, xs, ys, v, w, k)
  }

  lemma RoundClaimsNext<F(!new)>(R: Field<F>, S: Setting<F>, j: nat, b: FS.History<F>, ps: seq<RoundPolynomials<F>>,
                                 xs: seq<F>, ys: seq<F>, v: F, w: seq<F>,
                                 k: nat, rs: RoundState<F>)
    requires IsRing(R) && j < S.layout.NumLayers() && k < S.layout.logw[j] && k < |ps| && k < |xs| && k < |ys|
    requires Follows(R, S.oracle, b, ps, k, rs) && Advances(R, S, j, ps, xs, ys, v, w, k, rs)
    requires xs[k] == LeftPoints(R, S.oracle, b, ps, k + 1)[k] && ys[k] == RightPoints(R, S.oracle, b, ps, k + 1)[k]
    ensures Advances(R, S, j, ps, xs, ys, v, w, k + 1, RoundStep(R, S, j, k, ps[k], rs))
  {
    var mid := HandStep(R, S, j, k, Left, ps[k].left, rs);
    RoundDraws(R, S, j, b, ps, k, rs);
    HandValue(R, S, j, k, Left, ps[k].left, rs, w, Sym.ExpressionValue(R, rs.claim, w), xs[k]);
    HandValue(R, S, j, k, Right, ps[k].right, mid, w, Sym.ExpressionValue(R, mid.claim, w), ys[k]);
  }

  /** Each of the first k rounds takes the claim where the plain verifier does. */
  ghost predicate AllAdvance<F>(R: Field<F>, S: Setting<F>, j: nat, ps: seq<RoundPolynomials<F>>, st: RoundState<F>,
                                xs: seq<F>, ys: seq<F>, v: F, w: seq<F>, k: nat)
    requires j < S.layout.NumLayers() && k <= S.layout.logw[j] && k <= |ps| && k <= |xs| && k <= |ys|
  {
    (k > 0 ==> AllAdvance(R, S, j, ps, st, xs, ys, v, w, k - 1))
      && Advances(R, S, j, ps, xs, ys, v, w, k, Rounds(R, S, j, ps, st, k))
  }

  lemma AllAdvanceNext<F(!new)>(R: Field<F>, S: Setting<F>, j: nat, b: FS.History<F>, ps: seq<RoundPolynomials<F>>,
                                st: RoundState<F>, v: F, w: seq<F>,
                                xs: seq<F>, ys: seq<F>, i: nat, k: nat)
    requires IsRing(R) && j < S.layout.NumLayers() && S.layout.logw[j] == |ps| && st.history == b
      && st.left == st.right == []
    requires xs == LeftPoints(R, S.oracle, b, ps, |ps|) && ys == RightPoints(R, S.oracle, b, ps, |ps|)
    requires k == i + 1 <= |ps| && AllAdvance(R, S, j, ps, st, xs, ys, v, w, i)
    ensures AllAdvance(R, S, j, ps, st, xs, ys, v, w, k)
  {
    RoundsFollow(R, S, j, b, ps, st, i);
    PointAt(R, S.oracle, b, ps, i);
    RoundClaimsNext(R, S, j, b, ps, xs, ys, v, w, i, Rounds(R, S, j, ps, st, i));
  }

  /** The rounds compute the claims of the plain verifier. */
  lemma {:induction false} RoundsCompute<F(!new)>(R: Field<F>, S: Setting<F>, j: nat, b: FS.History<F>,
                                                  ps: seq<RoundPolynomials<F>>, st: RoundState<F>,
                                                  v: F, w: seq<F>, xs: seq<F>, ys: seq<F>, k: nat)
    requires IsRing(R) && j < S.layout.NumLayers() && S.layout.logw[j] == |ps| && st.history == b
      && st.left == st.right == []
    requires Sym.ExpressionValue(R, st.claim, w) == v && k <= |ps|
    requires xs == LeftPoints(R, S.oracle, b, ps, |ps|) && ys == RightPoints(R, S.oracle, b, ps, |ps|)
    ensures AllAdvance(R, S, j, ps, st, xs, ys, v, w, k)
  {
    if k > 0 {
      RoundsCompute(R, S, j, b, ps, st, v, w, xs, ys, k - 1);
      AllAdvanceNext(R, S, j, b, ps, st, v, w, xs, ys, k - 1, k);
    }
  }

  lemma PointAt<F>(R: Field<F>, o: FS.Oracle<F>, b: FS.History<F>, ps: seq<RoundPolynomials<F>>, k: nat)
    requires k < |ps|
    ensures LeftPoints(R, o, b, ps, |ps|)[k] == LeftPoints(R, o, b, ps, k + 1)[k]
    ensures RightPoints(R, o, b, ps, |ps|)[k] == RightPoints(R, o, b, ps, k + 1)[k]
  {
    PointsPrefix(R, o, b, ps, k + 1, |ps|);
    assert LeftPoints(R, o, b, ps, |ps|)[..k + 1][k] == LeftPoints(R, o, b, ps, k + 1)[k];
    assert RightPoints(R, o, b, ps, |ps|)[..k + 1][k] == RightPoints(R, o, b, ps, k + 1)[k];
  }

  lemma {:induction false} PointsPrefix<F>(R: Field<F>, o: FS.Oracle<F>, b: FS.History<F>, ps: seq<RoundPolynomials<F>>,
                                           k: nat, n: nat)
    requires k <= n <= |ps|
    ensures LeftPoints(R, o, b, ps, n)[..k] == LeftPoints(R, o, b, ps, k)
      && RightPoints(R, o, b, ps, n)[..k] == RightPoints(R, o, b, ps, k)
    decreases n
  {
    if k < n {
      PointsPrefix(R, o, b, ps, k, n - 1);
    }
  }

  // ----- The bound quad -----

  lemma WeightedEntry<F(!new)>(R: Field<F>, u: seq<F>, x: F, k: nat, c: F, o: F)
    requires IsRing(R)
    ensures R.mul(R.mul(R.mul(Weight(R, x, k), c), o), At(R, u, k / 2))
      == R.mul(R.mul(c, o), At(R, Doubled(R, u, x), k))
  {
    var v := At(R, u, k / 2);
    assert At(R, Doubled(R, u, x), k) == DoubledAt(R, u, x, k) by {
      if k >= 2 * |u| {
        OutsideDoubled(R, x);
      }
    }
    if k % 2 == 0 {
      EvenWeight(R, x, c, o, v);
    } else {
      OddWeight(R, x, c, o, v);
    }
  }

  lemma OutsideDoubled<F(!new)>(R: Field<F>, x: F)
    requires IsRing(R)
    ensures R.sub(R.zero, R.mul(x, R.zero)) == R.zero && R.mul(x, R.zero) == R.zero
  {
    Ring(R, S(Z, M(V(0), Z)), Z, [x]);
    MulZero(R, x);
  }

  lemma EvenWeight<F(!new)>(R: Field<F>, x: F, c: F, o: F, v: F)
    requires IsRing(R)
    ensures R.mul(R.mul(R.mul(R.sub(R.one, x), c), o), v) == R.mul(R.mul(c, o), R.sub(v, R.mul(x, v)))
  {
    Ring(R, M(M(M(S(O, V(0)), V(1)), V(2)), V(3)), M(M(V(1), V(2)), S(V(3), M(V(0), V(3)))), [x, c, o, v]);
  }

  lemma OddWeight<F(!new)>(R: Field<F>, x: F, c: F, o: F, v: F)
    requires IsRing(R)
    ensures R.mul(R.mul(R.mul(x, c), o), v) == R.mul(R.mul(c, o), R.mul(x, v))
  {
    Ring(R, M(M(M(V(0), V(1)), V(2)), V(3)), M(M(V(1), V(2)), M(V(0), V(3))), [x, c, o, v]);
  }

  /** Summing the bound quad over u is summing the quad over u doubled by the point. */
  lemma HandDual<F(!new)>(R: Field<F>, q: seq<QuadElement<F>>, hand: Hand, x: F, u: seq<F>, other: seq<F>)
    requires IsRing(R)
    ensures var p := HandBound(R, q, hand, x);
      Total(R, p, |p|, hand, u, other) == Total(R, q, |q|, hand, Doubled(R, u, x), other)
  {
    var e := HandEntries(R, q, hand, x);
    CompactTotal(R, e, hand, u, other);
    for n := 0 to |q|
      invariant Total(R, e, n, hand, u, other) == Total(R, q, n, hand, Doubled(R, u, x), other)
    {
      WeightedEntry(R, u, x, q[n].HandWire(hand), q[n].coefficient, At(R, other, q[n].HandWire(Opposite(hand))));
    }
  }

  /** One round, for both hands. */
  lemma RoundDual<F(!new)>(R: Field<F>, q: seq<QuadElement<F>>, x: F, y: F, u: seq<F>, v: seq<F>)
    requires IsRing(R)
    ensures var p := HandBound(R, HandBound(R, q, Left, x), Right, y);
      Total(R, p, |p|, Left, u, v) == Total(R, q, |q|, Left, Doubled(R, u, x), Doubled(R, v, y))
  {
    var m := HandBound(R, q, Left, x);
    var p := HandBound(R, m, Right, y);
    TotalSwap(R, p, |p|, Left, u, v);
    HandDual(R, m, Right, y, v, u);
    TotalSwap(R, m, |m|, Right, Doubled(R, v, y), u);
    HandDual(R, q, Left, x, u, Doubled(R, v, y));
  }

  /** The sum over the quad after k rounds and the tables of the challenges that are still to come. */
  ghost function RestTotal<F>(R: Field<F>, q: seq<QuadElement<F>>, xs: seq<F>, ys: seq<F>, k: nat): F
    requires k <= |xs| && k <= |ys|
  {
    Total(R, q, |q|, Left, Eq(R, xs[k..]), Eq(R, ys[k..]))
  }

  lemma RestTotalNext<F(!new)>(R: Field<F>, q: seq<QuadElement<F>>, xs: seq<F>, ys: seq<F>, k: nat)
    requires IsRing(R) && k < |xs| && k < |ys|
    ensures RestTotal(R, HandBound(R, HandBound(R, q, Left, xs[k]), Right, ys[k]), xs, ys, k + 1)
      == RestTotal(R, q, xs, ys, k)
  {
    assert xs[k..][0] == xs[k] && xs[k..][1..] == xs[k + 1..];
    assert ys[k..][0] == ys[k] && ys[k..][1..] == ys[k + 1..];
    RoundDual(R, q, xs[k], ys[k], Eq(R, xs[k + 1..]), Eq(R, ys[k + 1..]));
  }

  /** The sum is the same after each of the first k rounds. */
  ghost predicate TotalKept<F>(R: Field<F>, S: Setting<F>, j: nat, ps: seq<RoundPolynomials<F>>, st: RoundState<F>,
                               xs: seq<F>, ys: seq<F>, total: F, k: nat)
    requires j < S.layout.NumLayers() && k <= S.layout.logw[j] && k <= |ps| && k <= |xs| && k <= |ys|
  {
    (k > 0 ==> TotalKept(R, S, j, ps, st, xs, ys, total, k - 1))
      && RestTotal(R, Rounds(R, S, j, ps, st, k).quad, xs, ys, k) == total
  }

  /** The rounds bind the quad to all challenges. */
  lemma RoundsBindQuad<F(!new)>(R: Field<F>, S: Setting<F>, j: nat, b: FS.History<F>, ps: seq<RoundPolynomials<F>>,
                                st: RoundState<F>, xs: seq<F>, ys: seq<F>,
                                total: F)
    requires IsRing(R) && j < S.layout.NumLayers() && S.layout.logw[j] == |ps| && st.history == b
      && st.left == st.right == []
    requires xs == LeftPoints(R, S.oracle, b, ps, |ps|) && ys == RightPoints(R, S.oracle, b, ps, |ps|)
    requires RestTotal(R, st.quad, xs, ys, 0) == total
    ensures TotalKept(R, S, j, ps, st, xs, ys, total, |ps|)
  {
    for k := 0 to |ps|
      invariant TotalKept(R, S, j, ps, st, xs, ys, total, k)
    {
      TotalKeptNext(R, S, j, b, ps, st, xs, ys, total, k);
    }
  }

  lemma TotalKeptNext<F(!new)>(R: Field<F>, S: Setting<F>, j: nat, b: FS.History<F>, ps: seq<RoundPolynomials<F>>,
                               st: RoundState<F>, xs: seq<F>, ys: seq<F>,
                               total: F, k: nat)
    requires IsRing(R) && j < S.layout.NumLayers() && S.layout.logw[j] == |ps| && st.history == b
      && st.left == st.right == [] && k < |ps|
    requires xs == LeftPoints(R, S.oracle, b, ps, |ps|) && ys == RightPoints(R, S.oracle, b, ps, |ps|)
    requires TotalKept(R, S, j, ps, st, xs, ys, total, k)
    ensures TotalKept(R, S, j, ps, st, xs, ys, total, k + 1)
  {
    RoundsFollow(R, S, j, b, ps, st, k);
    RoundBindsQuad(R, S, j, b, ps, k, Rounds(R, S, j, ps, st, k), Rounds(R, S, j, ps, st, k + 1), xs, ys);
  }

  lemma RoundBindsQuad<F(!new)>(R: Field<F>, S: Setting<F>, j: nat, b: FS.History<F>, ps: seq<RoundPolynomials<F>>,
                                k: nat, rs: RoundState<F>,
                                next: RoundState<F>, xs: seq<F>, ys: seq<F>)
    requires IsRing(R) && j < S.layout.NumLayers() && k < S.layout.logw[j] && k < |ps|
      && Follows(R, S.oracle, b, ps, k, rs)
    requires xs == LeftPoints(R, S.oracle, b, ps, |ps|) && ys == RightPoints(R, S.oracle, b, ps, |ps|)
      && next == RoundStep(R, S, j, k, ps[k], rs)
    ensures RestTotal(R, next.quad, xs, ys, k + 1) == RestTotal(R, rs.quad, xs, ys, k)
  {
    PointAt(R, S.oracle, b, ps, k);
    RoundDraws(R, S, j, b, ps, k, rs);
    RestTotalNext(R, rs.quad, xs, ys, k);
  }

  lemma SingleRest<F(!new)>(R: Field<F>, q: seq<QuadElement<F>>, xs: seq<F>, ys: seq<F>)
    requires IsRing(R) && |xs| == |ys| && |q| == 1 && q[0].left == q[0].right == 0
    ensures RestTotal(R, q, xs, ys, |xs|) == q[0].coefficient
  {
    assert xs[|xs|..] == [] && ys[|xs|..] == [];
    SingleTotal(R, q, [R.one], [R.one]);
    assert Laws1(R, q[0].coefficient);
  }

  lemma TableEntry<F(!new)>(R: Field<F>, xs: seq<F>, ys: seq<F>, alpha: F, g: nat)
    requires IsRing(R) && |xs| == |ys|
    ensures At(R, EqBoth(R, xs, ys, alpha), g) == R.add(At(R, Eq(R, xs), g), R.mul(alpha, At(R, Eq(R, ys), g)))
  {
    MulZero(R, alpha);
    assert Laws1(R, R.zero);
  }

  /** Before the rounds, the sum over the quad is the sum over the quads of the circuit. */
  lemma FirstQuadSum<F(!new)>(R: Field<F>, c: Circuit<F>, quads: seq<Quad>, beta: F, gates: seq<F>, alpha: F,
                              others: seq<F>, left: seq<F>, right: seq<F>)
    requires IsRing(R) && |gates| == |others|
    ensures var q := GateBound(R, CombinedQuad(R, c, quads, beta), EqBoth(R, gates, others, alpha));
      Total(R, q, |q|, Left, left, right)
      == QuadSum(R, c.constantTable, quads, beta, Eq(R, gates), alpha, Eq(R, others), left, right, |quads|)
  {
    var e := GateEntries(R, CombinedQuad(R, c, quads, beta), EqBoth(R, gates, others, alpha));
    CompactTotal(R, e, Left, left, right);
    for n := 0 to |quads|
      invariant Total(R, e, n, Left, left, right)
        == QuadSum(R, c.constantTable, quads, beta, Eq(R, gates), alpha, Eq(R, others), left, right, n)
    {
      TableEntry(R, gates, others, alpha, quads[n].gate);
    }
  }

  // ----- The constraint of a layer -----

  lemma NoClaim<F(!new)>(R: Field<F>, alpha: F)
    requires IsRing(R)
    ensures R.add(R.add(R.zero, R.zero), R.mul(alpha, R.add(R.zero, R.zero))) == R.zero
  {
    Ring(R, A(A(Z, Z), M(V(0), A(Z, Z))), Z, [alpha]);
  }

  lemma FirstClaimIsGateClaim<F(!new)>(R: Field<F>, S: Setting<F>, layers: seq<ProofLayer<F>>, h: FS.History<F>, j: nat,
                                       st: LayerState<F>, alpha: F, w: seq<F>)
    requires IsRing(R) && S.circuit.LevelBits(0) <= MAX_BINDINGS && j <= |layers| && j <= S.layout.NumLayers()
      && StartsLayer(R, S, layers, h, j, st)
    ensures Sym.ExpressionValue(R, FirstClaim(R, S.layout, j, st.vl, st.vr, alpha), w)
      == GateClaim(R, S.layout, layers, j, alpha, w)
  {
    FirstClaimValue(R, S.layout, j, st.vl, st.vr, alpha, w);
    NoClaim(R, alpha);
  }

  /** After the rounds of a layer: its claim, and the one entry of its quad. */
  lemma LastRoundMeans<F(!new)>(R: Field<F>, S: Setting<F>, layers: seq<ProofLayer<F>>, h: FS.History<F>, j: nat,
                                st: LayerState<F>, w: seq<F>)
    requires IsRing(R) && S.circuit.LevelBits(0) <= MAX_BINDINGS && j < |layers| && LayerFits(S, j, layers[j])
      && |st.left| == |st.right|
    requires StartsLayer(R, S, layers, h, j, st) && WellFormedLayer(R, S.circuit, j) && LayoutOf(S.layout, S.circuit)
    ensures var rs := LastRound(R, S, j, layers[j], st);
      Sym.ExpressionValue(R, rs.claim, w) == WireClaim(R, S, layers, h, w, j)
        && BoundElement(R, rs.quad) == QuadValue(R, S, layers, h, j)
  {
    var n, lp := S.circuit.LevelBits(0), layers[j];
    var b, first, quads := RoundsStart(h, n, layers, j), FirstRound(R, S, j, st), S.circuit.layers[j].quads;
    var xs, ys := LeftGate(R, S, layers, h, j + 1), RightGate(R, S, layers, h, j + 1);
    var alpha, beta := Challenge(R, S.oracle, st.history), Challenge(R, S.oracle, st.history + [FS.Draw(1)]);
    assert first.history == b;
    FirstClaimIsGateClaim(R, S, layers, h, j, st, alpha, w);
    RoundsCompute(R, S, j, b, lp.polynomials, first, GateClaim(R, S.layout, layers, j, alpha, w), w, xs, ys,
      |lp.polynomials|);
    LastQuadSingle(R, S, j, lp, st);
    QuadMeans(R, S, j, b, lp.polynomials, first, xs, ys);
    FirstQuadSum(R, S.circuit, quads, beta, st.left, alpha, st.right, Eq(R, xs), Eq(R, ys));
  }

  lemma QuadMeans<F(!new)>(R: Field<F>, S: Setting<F>, j: nat, b: FS.History<F>, ps: seq<RoundPolynomials<F>>,
                           st: RoundState<F>, xs: seq<F>, ys: seq<F>)
    requires IsRing(R) && j < S.layout.NumLayers() && S.layout.logw[j] == |ps| && st.history == b
      && st.left == st.right == []
    requires xs == LeftPoints(R, S.oracle, b, ps, |ps|) && ys == RightPoints(R, S.oracle, b, ps, |ps|)
    requires var q := Rounds(R, S, j, ps, st, |ps|).quad; |q| == 1 && q[0].left == q[0].right == 0
    ensures BoundElement(R, Rounds(R, S, j, ps, st, |ps|).quad)
      == Total(R, st.quad, |st.quad|, Left, Eq(R, xs), Eq(R, ys))
  {
    RoundsBindQuad(R, S, j, b, ps, st, xs, ys, RestTotal(R, st.quad, xs, ys, 0));
    SingleRest(R, Rounds(R, S, j, ps, st, |ps|).quad, xs, ys);
    assert xs[0..] == xs && ys[0..] == ys;
  }

  lemma MovedEqually<F(!new)>(R: Field<F>, known: F, s: F, v: F)
    requires IsRing(R)
    ensures s == R.sub(v, known) <==> R.add(known, s) == v
  {
    Ring(R, A(V(0), S(V(1), V(0))), V(1), [known, v]);
    Ring(R, S(A(V(0), V(1)), V(0)), V(1), [known, s]);
  }

  lemma SameDifference<F(!new)>(R: Field<F>, a: F, b: F, c: F)
    requires IsRing(R)
    ensures R.sub(a, c) == R.sub(b, c) <==> a == b
  {
    Ring(R, A(S(V(0), V(1)), V(1)), V(0), [a, c]);
    Ring(R, A(S(V(0), V(1)), V(1)), V(0), [b, c]);
  }

  lemma CheckRing<F(!new)>(R: Field<F>, v: F, q: F, vl: F, vr: F, pl: F, pr: F)
    requires IsRing(R)
    ensures R.sub(R.sub(R.sub(v, R.mul(R.mul(q, vr), pl)), R.mul(R.mul(q, vl), pr)), R.mul(q, R.mul(pl, pr)))
      == R.mul(R.mul(q, vl), vr)
      <==> v == R.mul(q, R.mul(R.add(vl, pl), R.add(vr, pr)))
  {
    var pads := R.add(R.add(R.mul(R.mul(q, vr), pl), R.mul(R.mul(q, vl), pr)), R.mul(q, R.mul(pl, pr)));
    Ring(R, S(S(S(V(0), M(M(V(1), V(2)), V(3))), M(M(V(1), V(4)), V(5))), M(V(1), M(V(3), V(5)))),
      S(V(0), A(A(M(M(V(1), V(2)), V(3)), M(M(V(1), V(4)), V(5))), M(V(1), M(V(3), V(5))))), [v, q, vr, pl, vl, pr]);
    PadsOut(R, q, vl, vr, pl, pr);
    SameDifference(R, v, R.mul(q, R.mul(R.add(vl, pl), R.add(vr, pr))), pads);
  }

  lemma PadsOut<F(!new)>(R: Field<F>, q: F, vl: F, vr: F, pl: F, pr: F)
    requires IsRing(R)
    ensures R.sub(R.mul(q, R.mul(R.add(vl, pl), R.add(vr, pr))),
      R.add(R.add(R.mul(R.mul(q, vr), pl), R.mul(R.mul(q, vl), pr)), R.mul(q, R.mul(pl, pr))))
      == R.mul(R.mul(q, vl), vr)
  {
    Ring(R,
      S(M(V(0), M(A(V(1), V(2)), A(V(3), V(4)))),
      A(A(M(M(V(0), V(3)), V(2)), M(M(V(0), V(1)), V(4))), M(V(0), M(V(2), V(4))))), M(M(V(0), V(1)), V(3)),
      [q, vl, pl, vr, pr]);
  }

  /**
   The terms and the right hand side of a layer say that its check holds, wherever the third pad is the product of the
   others.
   */
  lemma TermsMean<F(!new)>(R: Field<F>, layout: Wit.WitnessLayout, j: nat, claim: Sym.Expression<F>, bound: F, vl: F,
                           vr: F, w: seq<F>)
    requires IsRing(R) && j < layout.NumLayers() && WirePadsHold(R, layout, w, j)
    ensures var e, i := LastClaim(R, layout, j, claim, bound, vl, vr), layout.WireIndex(j);
      LhsSum(R, e.terms, w, e.constraint) == R.sub(R.mul(R.mul(bound, vl), vr), e.known)
      <==> Sym.ExpressionValue(R, claim, w) == R.mul(bound, R.mul(R.add(vl, At(R, w, i)), R.add(vr, At(R, w, i + 1))))
  {
    var e, i := LastClaim(R, layout, j, claim, bound, vl, vr), layout.WireIndex(j);
    LastClaimValue(R, layout, j, claim, bound, vl, vr, w);
    MovedEqually(R, e.known, LhsSum(R, e.terms, w, e.constraint), R.mul(R.mul(bound, vl), vr));
    CheckRing(R, Sym.ExpressionValue(R, claim, w), bound, vl, vr, At(R, w, i), At(R, w, i + 1));
  }

  /** Row j of the constraints in a state. */
  ghost predicate StateRow<F>(R: Field<F>, st: LayerState<F>, w: seq<F>, j: nat) {
    RowHolds(R, LinearConstraints(st.lhs, st.rhs), w, j)
  }

  lemma AppendedRow<F(!new)>(R: Field<F>, lhs: seq<LhsTerm<F>>, rhs: seq<F>, terms: seq<LhsTerm<F>>, v: F, w: seq<F>,
                             n: nat)
    requires IsRing(R) && TermsBelow(lhs, |rhs|, n) && Sym.Tagged(terms, |rhs|, n)
    ensures RowHolds(R, LinearConstraints(lhs + terms, rhs + [v]), w, |rhs|) <==> LhsSum(R, terms, w, |rhs|) == v
    ensures forall c :: 0 <= c < |rhs| ==>
      (RowHolds(R, LinearConstraints(lhs + terms, rhs + [v]), w, c) <==> RowHolds(R, LinearConstraints(lhs, rhs), w, c))
  {
    forall c | 0 <= c <= |rhs|
      ensures LhsSum(R, lhs + terms, w, c) == if c < |rhs| then LhsSum(R, lhs, w, c) else LhsSum(R, terms, w, c)
    {
      Sym.LhsSumConcat(R, lhs, terms, w, c);
      if c < |rhs| {
        Sym.LhsSumOther(R, terms, w, c);
        assert Laws1(R, LhsSum(R, lhs, w, c));
      } else {
        Sym.LhsSumOther(R, lhs, w, c);
        assert Laws1(R, LhsSum(R, terms, w, c)) && Laws2(R, R.zero, LhsSum(R, terms, w, c));
      }
    }
  }

  /** The row that the end of a layer adds, and the rows before it. */
  lemma NextStateRow<F(!new)>(R: Field<F>, layout: Wit.WitnessLayout, j: nat, st: LayerState<F>, rs: RoundState<F>,
                              vl: F, vr: F, w: seq<F>,
                               v: F, q: F)
    requires IsRing(R) && j < layout.NumLayers() && Numbered(layout, st, j)
    requires rs.claim.constraint == j && Sym.Tagged(rs.claim.terms, j, layout.Length())
    requires Sym.ExpressionValue(R, rs.claim, w) == v && BoundElement(R, rs.quad) == q
    ensures var next, i := NextState(R, layout, j, st, rs, vl, vr), layout.WireIndex(j);
      WirePadsHold(R, layout, w, j) ==>
        (StateRow(R, next, w, j) <==> v == R.mul(q, R.mul(R.add(vl, At(R, w, i)), R.add(vr, At(R, w, i + 1)))))
    ensures forall c ::
      0 <= c < j ==> (StateRow(R, NextState(R, layout, j, st, rs, vl, vr), w, c) <==> StateRow(R, st, w, c))
  {
    var bound := BoundElement(R, rs.quad);
    var e := LastClaim(R, layout, j, rs.claim, bound, vl, vr);
    LastClaimTags(R, layout, j, rs.claim, bound, vl, vr);
    AppendedRow(R, st.lhs, st.rhs, e.terms, R.sub(R.mul(R.mul(bound, vl), vr), e.known), w, layout.Length());
    if WirePadsHold(R, layout, w, j) {
      TermsMean(R, layout, j, rs.claim, bound, vl, vr, w);
    }
  }

  /** The row that a layer adds holds exactly when its check does, and the rows before it do not change. */
  lemma LayerRow<F(!new)>(R: Field<F>, S: Setting<F>, layers: seq<ProofLayer<F>>, h: FS.History<F>, j: nat,
                          st: LayerState<F>, rs: RoundState<F>,
                          next: LayerState<F>, w: seq<F>)
    requires IsRing(R) && S.circuit.LevelBits(0) <= MAX_BINDINGS && j < |layers| && LayerFits(S, j, layers[j])
    requires Numbered(S.layout, st, j) && next == NextState(R, S.layout, j, st, rs, layers[j].vl, layers[j].vr)
    requires rs.claim.constraint == j && Sym.Tagged(rs.claim.terms, j, S.layout.Length())
    requires Sym.ExpressionValue(R, rs.claim, w) == WireClaim(R, S, layers, h, w, j)
      && BoundElement(R, rs.quad) == QuadValue(R, S, layers, h, j)
    ensures WirePadsHold(R, S.layout, w, j) ==> (StateRow(R, next, w, j) <==> LayerCheck(R, S, layers, h, w, j))
    ensures forall c :: 0 <= c < j ==> (StateRow(R, next, w, c) <==> StateRow(R, st, w, c))
  {
    CheckIs(R, S, layers, h, w, j, Sym.ExpressionValue(R, rs.claim, w), BoundElement(R, rs.quad));
    NextStateRow(R, S.layout, j, st, rs, layers[j].vl, layers[j].vr, w, Sym.ExpressionValue(R, rs.claim, w),
      BoundElement(R, rs.quad));
  }

  lemma CheckIs<F(!new)>(R: Field<F>, S: Setting<F>, layers: seq<ProofLayer<F>>, h: FS.History<F>, w: seq<F>, j: nat,
                         v: F, q: F)
    requires S.circuit.LevelBits(0) <= MAX_BINDINGS && j < |layers| && LayerFits(S, j, layers[j])
    requires v == WireClaim(R, S, layers, h, w, j) && q == QuadValue(R, S, layers, h, j)
    ensures var i := S.layout.WireIndex(j);
      (LayerCheck(R, S, layers, h, w, j) <==>
        v == R.mul(q, R.mul(R.add(layers[j].vl, At(R, w, i)), R.add(layers[j].vr, At(R, w, i + 1)))))
  {
  }

  lemma RoundsEnd<F(!new)>(R: Field<F>, S: Setting<F>, layers: seq<ProofLayer<F>>, h: FS.History<F>, j: nat,
                           st: LayerState<F>, w: seq<F>)
    requires IsRing(R) && GoodSetting(R, S) && j < |layers| && LayerFits(S, j, layers[j]) && |st.left| == |st.right|
      && StartsLayer(R, S, layers, h, j, st)
    ensures var rs := LastRound(R, S, j, layers[j], st);
      && rs.claim.constraint == j && Sym.Tagged(rs.claim.terms, j, S.layout.Length())
      && Sym.ExpressionValue(R, rs.claim, w) == WireClaim(R, S, layers, h, w, j)
        && BoundElement(R, rs.quad) == QuadValue(R, S, layers, h, j)
  {
    assert WellFormedLayer(R, S.circuit, j);
    LastRoundMeans(R, S, layers, h, j, st, w);
    LastQuadSingle(R, S, j, layers[j], st);
  }

  /** The first k rows hold exactly when the checks of the first k layers do. */
  ghost predicate RowsMean<F>(R: Field<F>, S: Setting<F>, layers: seq<ProofLayer<F>>, h: FS.History<F>,
                              st: LayerState<F>, w: seq<F>, k: nat)
    requires S.circuit.LevelBits(0) <= MAX_BINDINGS && ProofFits(S, layers) && k <= |layers|
  {
    forall j :: 0 <= j < k ==> RowMeans(R, S, layers, h, st, w, j)
  }

  ghost predicate RowMeans<F>(R: Field<F>, S: Setting<F>, layers: seq<ProofLayer<F>>, h: FS.History<F>,
                              st: LayerState<F>, w: seq<F>, j: nat)
    requires S.circuit.LevelBits(0) <= MAX_BINDINGS && ProofFits(S, layers) && j < |layers|
  {
    LayerFits(S, j, layers[j])
      && (WirePadsHold(R, S.layout, w, j) ==> (StateRow(R, st, w, j) <==> LayerCheck(R, S, layers, h, w, j)))
  }

  lemma RowsMeanStep<F(!new)>(R: Field<F>, S: Setting<F>, layers: seq<ProofLayer<F>>, h: FS.History<F>,
                              st: LayerState<F>, next: LayerState<F>, w: seq<F>, k: nat)
    requires S.circuit.LevelBits(0) <= MAX_BINDINGS && ProofFits(S, layers) && k < |layers|
      && RowsMean(R, S, layers, h, st, w, k)
    requires forall c :: 0 <= c < k ==> (StateRow(R, next, w, c) <==> StateRow(R, st, w, c))
    requires RowMeans(R, S, layers, h, next, w, k)
    ensures RowsMean(R, S, layers, h, next, w, k + 1)
  {
    forall j | 0 <= j < k ensures RowMeans(R, S, layers, h, next, w, j) {
      assert RowMeans(R, S, layers, h, st, w, j);
      assert StateRow(R, next, w, j) <==> StateRow(R, st, w, j);
    }
  }

  lemma RowsMeanNext<F(!new)>(R: Field<F>, S: Setting<F>, layers: seq<ProofLayer<F>>, h: FS.History<F>, w: seq<F>,
                              k: nat)
    requires IsRing(R) && GoodSetting(R, S) && ProofFits(S, layers) && k < |layers|
      && Numbered(S.layout, Layers(R, S, layers, h, k), k)
    requires RowsMean(R, S, layers, h, Layers(R, S, layers, h, k), w, k)
    ensures RowsMean(R, S, layers, h, Layers(R, S, layers, h, k + 1), w, k + 1)
  {
    var st, next := Layers(R, S, layers, h, k), Layers(R, S, layers, h, k + 1);
    LayersNext(R, S, layers, h, k);
    LayersFollow(R, S, layers, h, k);
    RoundsEnd(R, S, layers, h, k, st, w);
    LayerRow(R, S, layers, h, k, st, LastRound(R, S, k, layers[k], st), next, w);
    RowsMeanStep(R, S, layers, h, st, next, w, k);
  }

  // ----- The constraint on the inputs -----

  lemma InputsEqually<F(!new)>(R: Field<F>, d: F, v: F, vl: F, pl: F, gamma: F, vr: F, pr: F)
    requires IsRing(R)
    ensures R.sub(R.sub(v, R.mul(R.one, pl)), R.mul(gamma, pr)) == R.sub(R.add(vl, R.mul(gamma, vr)), d)
      <==> R.add(R.add(vl, pl), R.mul(gamma, R.add(vr, pr))) == R.add(d, v)
  {
    var pads := R.add(d, R.add(pl, R.mul(gamma, pr)));
    InputsLeft(R, d, v, pl, gamma, pr);
    Ring(R, S(A(V(0), M(V(1), V(2))), V(3)),
      S(A(A(V(0), V(4)), M(V(1), A(V(2), V(5)))), A(V(3), A(V(4), M(V(1), V(5))))), [vl, gamma, vr, d, pl, pr]);
    SameDifference(R, R.add(d, v), R.add(R.add(vl, pl), R.mul(gamma, R.add(vr, pr))), pads);
  }

  lemma RowSumEqually<F(!new)>(R: Field<F>, l: F, r: F, d: F, v: F, vl: F, pl: F, gamma: F, vr: F, pr: F)
    requires IsRing(R) && l == R.sub(R.sub(v, R.mul(R.one, pl)), R.mul(gamma, pr))
      && r == R.sub(R.add(vl, R.mul(gamma, vr)), d)
    ensures l == r <==> R.add(R.add(vl, pl), R.mul(gamma, R.add(vr, pr))) == R.add(d, v)
  {
    InputsEqually(R, d, v, vl, pl, gamma, vr, pr);
  }

  lemma InputsLeft<F(!new)>(R: Field<F>, d: F, v: F, pl: F, gamma: F, pr: F)
    requires IsRing(R)
    ensures R.sub(R.sub(v, R.mul(R.one, pl)), R.mul(gamma, pr))
      == R.sub(R.add(d, v), R.add(d, R.add(pl, R.mul(gamma, pr))))
  {
    Ring(R, S(S(V(0), M(O, V(1))), M(V(2), V(3))), S(A(V(4), V(0)), A(V(4), A(V(1), M(V(2), V(3))))),
      [v, pl, gamma, pr, d]);
  }

  /** The public part of the right hand side and the private terms together are the inputs at the two points. */
  lemma InputsAtPoints<F(!new)>(R: Field<F>, publicInputs: seq<F>, w: seq<F>, n: nat, k: nat, xs: seq<F>, ys: seq<F>,
                                gamma: F)
    requires IsRing(R) && |xs| == |ys| && |publicInputs| + n <= Exp2(|xs|)
    ensures var table, inputs := EqBoth(R, xs, ys, gamma), AllInputs(R, publicInputs, w, n);
      R.add(Dot(R, publicInputs, table, |publicInputs|), PrivateValue(R, k, |publicInputs|, table, w, n))
      == AtPoints(R, inputs, xs, ys, gamma)
  {
    var table, inputs := EqBoth(R, xs, ys, gamma), AllInputs(R, publicInputs, w, n);
    forall i | 0 <= i < n ensures HoldsInput(R, w, inputs, |publicInputs|, i) {
      assert inputs[|publicInputs| + i] == At(R, w, i);
    }
    PrivateClaimValue(R, k, |publicInputs|, table, inputs, w, n, |inputs|);
    DotCong(R, publicInputs, table, inputs, table, |publicInputs|);
    DotComm(R, inputs, table, |inputs|);
    DotAddScaled(R, Eq(R, xs), gamma, Eq(R, ys), inputs, |inputs|);
  }

  lemma InputRow<F(!new)>(R: Field<F>, layout: Wit.WitnessLayout, publicInputs: seq<F>, st: LayerState<F>, gamma: F,
                          w: seq<F>)
    requires IsRing(R) && layout.NumLayers() > 0 && |st.left| == |st.right| && Numbered(layout, st, layout.NumLayers())
    requires |publicInputs| + layout.numPrivateInputs <= Exp2(|st.left|)
    ensures InputRowHolds(R, layout, publicInputs, EqBoth(R, st.left, st.right, gamma), gamma, st.vl, st.vr, w)
      <==> InputEquation(R, layout, publicInputs, st.left, st.right, st.vl, st.vr, gamma, w)
  {
    InputsAtPoints(R, publicInputs, w, layout.numPrivateInputs, layout.NumLayers(), st.left, st.right, gamma);
    InputRowSum(R, layout, publicInputs, EqBoth(R, st.left, st.right, gamma), gamma, st.vl, st.vr, w,
                AtPoints(R, AllInputs(R, publicInputs, w, layout.numPrivateInputs), st.left, st.right, gamma));
  }

  ghost predicate InputRowHolds<F>(R: Field<F>, layout: Wit.WitnessLayout, publicInputs: seq<F>, table: seq<F>,
                                   gamma: F, vl: F, vr: F, w: seq<F>)
    requires layout.NumLayers() > 0
  {
    LhsSum(R, InputClaim(R, layout, |publicInputs|, table, gamma).terms, w, layout.NumLayers())
      == InputRhs(R, publicInputs, table, gamma, vl, vr)
  }

  lemma InputRowSum<F(!new)>(R: Field<F>, layout: Wit.WitnessLayout, publicInputs: seq<F>, table: seq<F>, gamma: F,
                             vl: F, vr: F, w: seq<F>, sum: F)
    requires IsRing(R) && layout.NumLayers() > 0
    requires sum
      == R.add(Dot(R, publicInputs, table, |publicInputs|),
      PrivateValue(R, layout.NumLayers(), |publicInputs|, table, w, layout.numPrivateInputs))
    ensures var i := layout.WireIndex(layout.NumLayers() - 1);
      (InputRowHolds(R, layout, publicInputs, table, gamma, vl, vr, w) <==>
        R.add(R.add(vl, At(R, w, i)), R.mul(gamma, R.add(vr, At(R, w, i + 1)))) == sum)
  {
    var n := layout.NumLayers();
    InputClaimSum(R, layout, |publicInputs|, table, gamma, w);
    RowSumEqually(R, LhsSum(R, InputClaim(R, layout, |publicInputs|, table, gamma).terms, w, n),
      InputRhs(R, publicInputs, table, gamma, vl, vr),
                  Dot(R, publicInputs, table, |publicInputs|),
                    PrivateValue(R, n, |publicInputs|, table, w, layout.numPrivateInputs),
                  vl, At(R, w, layout.WireIndex(n - 1)), gamma, vr, At(R, w, layout.WireIndex(n - 1) + 1));
  }

  // ----- All constraints -----

  /**
   What the constraints of a run say of the vector w: row j says that the check of layer j holds, wherever the third
   wire pad of the layer is the product of the other two, and the last row says that the check of the inputs holds.
   */
  ghost predicate ConstraintsAreChecks<F>(R: Field<F>, S: Setting<F>, publicInputs: seq<F>, layers: seq<ProofLayer<F>>,
                                          h: FS.History<F>,
                                          linear: LinearConstraints<F>, w: seq<F>)
    requires CompleteProof(S, layers)
  {
    && |linear.rhs| == |layers| + 1
    && (forall j :: 0 <= j < |layers| ==> RowIsCheck(R, S, layers, h, linear, w, j))
    && (RowHolds(R, linear, w, |layers|) <==> InputCheck(R, S, publicInputs, layers, h, w))
  }

  ghost predicate RowIsCheck<F>(R: Field<F>, S: Setting<F>, layers: seq<ProofLayer<F>>, h: FS.History<F>,
                                linear: LinearConstraints<F>, w: seq<F>, j: nat)
    requires S.circuit.LevelBits(0) <= MAX_BINDINGS && j < |layers| && ProofFits(S, layers)
  {
    LayerFits(S, j, layers[j])
      && (WirePadsHold(R, S.layout, w, j) ==> (RowHolds(R, linear, w, j) <==> LayerCheck(R, S, layers, h, w, j)))
  }

  lemma RowsOfLayers<F(!new)>(R: Field<F>, S: Setting<F>, layers: seq<ProofLayer<F>>, h: FS.History<F>, w: seq<F>)
    requires IsRing(R) && GoodSetting(R, S) && ProofFits(S, layers)
    ensures Numbered(S.layout, Layers(R, S, layers, h, |layers|), |layers|)
    ensures RowsMean(R, S, layers, h, Layers(R, S, layers, h, |layers|), w, |layers|)
  {
    for k := 0 to |layers|
      invariant AllNumbered(R, S, layers, h, k) && RowsMean(R, S, layers, h, Layers(R, S, layers, h, k), w, k)
    {
      AllNumberedNext(R, S, layers, h, k);
      RowsMeanNext(R, S, layers, h, w, k);
    }
  }

  lemma LastRow<F(!new)>(R: Field<F>, layout: Wit.WitnessLayout, publicInputs: seq<F>, st: LayerState<F>, gamma: F,
                         w: seq<F>, linear: LinearConstraints<F>)
    requires IsRing(R) && layout.NumLayers() > 0 && |st.left| == |st.right| && Numbered(layout, st, layout.NumLayers())
    requires |publicInputs| + layout.numPrivateInputs <= Exp2(|st.left|)
    requires var table := EqBoth(R, st.left, st.right, gamma);
      && linear.lhs == st.lhs + InputClaim(R, layout, |publicInputs|, table, gamma).terms
      && linear.rhs == st.rhs + [InputRhs(R, publicInputs, table, gamma, st.vl, st.vr)]
    ensures RowHolds(R, linear, w, layout.NumLayers())
      <==> InputEquation(R, layout, publicInputs, st.left, st.right, st.vl, st.vr, gamma, w)
    ensures forall j :: 0 <= j < layout.NumLayers() ==> (RowHolds(R, linear, w, j) <==> StateRow(R, st, w, j))
  {
    var table := EqBoth(R, st.left, st.right, gamma);
    InputClaimShape(R, layout, |publicInputs|, table, gamma);
    AppendedRow(R, st.lhs, st.rhs, InputClaim(R, layout, |publicInputs|, table, gamma).terms,
      InputRhs(R, publicInputs, table, gamma, st.vl, st.vr),
                w, layout.Length());
    InputRow(R, layout, publicInputs, st, gamma, w);
  }

  /** The linear constraints of any proof are exactly the checks of the plain verifier. */
  lemma ConstraintsMean<F(!new)>(R: Field<F>, S: Setting<F>, publicInputs: seq<F>, layers: seq<ProofLayer<F>>,
                                 h: FS.History<F>, w: seq<F>)
    requires IsRing(R) && GoodSetting(R, S) && FS.ValidOracle(S.oracle) && CompleteProof(S, layers)
      && |publicInputs| == S.circuit.numPublicInputs
    ensures ConstraintsAreChecks(R, S, publicInputs, layers, h, RunConstraints(R, S, publicInputs, layers, h), w)
  {
    var n, linear := |layers|, RunConstraints(R, S, publicInputs, layers, h);
    var st := Layers(R, S, layers, h, n);
    RowsOfLayers(R, S, layers, h, w);
    BindingsCover(R, S, layers, h, n);
    LayersFollow(R, S, layers, h, n);
    LastRow(R, S.layout, publicInputs, st, Challenge(R, S.oracle, st.history), w, linear);
    forall j | 0 <= j < n ensures RowIsCheck(R, S, layers, h, linear, w, j) {
      assert RowMeans(R, S, layers, h, st, w, j);
    }
  }

  /** The plain verifier accepts the padded proof with the pads and the private inputs of w. */
  ghost predicate PlainAccepts<F>(R: Field<F>, S: Setting<F>, publicInputs: seq<F>, layers: seq<ProofLayer<F>>,
                                  h: FS.History<F>, w: seq<F>)
    requires CompleteProof(S, layers)
  {
    (forall j :: 0 <= j < |layers| ==> LayerPasses(R, S, layers, h, w, j))
      && InputCheck(R, S, publicInputs, layers, h, w)
  }

  ghost predicate LayerPasses<F>(R: Field<F>, S: Setting<F>, layers: seq<ProofLayer<F>>, h: FS.History<F>, w: seq<F>,
                                 j: nat)
    requires S.circuit.LevelBits(0) <= MAX_BINDINGS && j < |layers|
  {
    LayerFits(S, j, layers[j]) && LayerCheck(R, S, layers, h, w, j)
  }

  lemma PadsHold<F(!new)>(R: Field<F>, layout: Wit.WitnessLayout, w: seq<F>, j: nat)
    requires QuadraticHold(R, Wit.QuadraticConstraints(layout), w) && j < layout.NumLayers()
    ensures WirePadsHold(R, layout, w, j)
  {
    assert Wit.QuadraticConstraints(layout)[j].x == layout.WireIndex(j);
  }

  /**
   A vector that meets the quadratic constraints meets the linear constraints exactly when the plain verifier accepts.
   */
  lemma LinearIsPlain<F(!new)>(R: Field<F>, S: Setting<F>, publicInputs: seq<F>, layers: seq<ProofLayer<F>>,
                               h: FS.History<F>, linear: LinearConstraints<F>,
                               w: seq<F>)
    requires CompleteProof(S, layers) && ConstraintsAreChecks(R, S, publicInputs, layers, h, linear, w)
    requires QuadraticHold(R, Wit.QuadraticConstraints(S.layout), w)
    ensures LinearHold(R, linear, w) <==> PlainAccepts(R, S, publicInputs, layers, h, w)
  {
    forall j | 0 <= j < |layers|
      ensures RowHolds(R, linear, w, j) <==> LayerPasses(R, S, layers, h, w, j)
    {
      assert RowIsCheck(R, S, layers, h, linear, w, j);
      PadsHold(R, S.layout, w, j);
    }
    RowsArePlain(R, S, publicInputs, layers, h, linear, w);
  }

  lemma RowsArePlain<F(!new)>(R: Field<F>, S: Setting<F>, publicInputs: seq<F>, layers: seq<ProofLayer<F>>,
                              h: FS.History<F>, linear: LinearConstraints<F>,
                              w: seq<F>)
    requires CompleteProof(S, layers) && |linear.rhs| == |layers| + 1
    requires forall j :: 0 <= j < |layers| ==> (RowHolds(R, linear, w, j) <==> LayerPasses(R, S, layers, h, w, j))
    requires RowHolds(R, linear, w, |layers|) <==> InputCheck(R, S, publicInputs, layers, h, w)
    ensures LinearHold(R, linear, w) <==> PlainAccepts(R, S, publicInputs, layers, h, w)
  {
    if LinearHold(R, linear, w) {
      assert RowHolds(R, linear, w, |layers|);
      forall j | 0 <= j < |layers| ensures LayerPasses(R, S, layers, h, w, j) {
        assert RowHolds(R, linear, w, j);
      }
    }
    if PlainAccepts(R, S, publicInputs, layers, h, w) {
      forall c | 0 <= c < |linear.rhs| ensures RowHolds(R, linear, w, c) {
        if c < |layers| {
          assert LayerPasses(R, S, layers, h, w, c);
        }
      }
    }
  }
}
