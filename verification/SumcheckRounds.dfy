/**
 The rounds of one layer of sumcheck (src/sumcheck/mod.rs, the two inner loops of `run_protocol`) as a function of the
 proof, and the claim that every round of an honest prover keeps.
 */
module SumcheckRounds {
  import opened Fields
  import opened Sums
  import opened Dots
  import opened Bind
  import opened Sparse
  import opened Options
  import opened Circuits
  import opened Constraints
  import Sym = Symbolic
  import Wit = Witness
  import FS = FiatShamir

  datatype Polynomial<F> = Polynomial(p0: F, p2: F)

  datatype RoundPolynomials<F> = RoundPolynomials(left: Polynomial<F>, right: Polynomial<F>)
  {
    function For(hand: Hand): Polynomial<F> {
      if hand.Left? then left else right
    }
  }

  datatype ProofLayer<F> = ProofLayer(polynomials: seq<RoundPolynomials<F>>, vl: F, vr: F)

  /** What prover and verifier share: constants of the field, random oracle, circuit and witness layout. */
  datatype Setting<!F> = Setting(K: SumcheckConstants<F>, oracle: FS.Oracle<F>, circuit: Circuit<F>,
                                 layout: Wit.WitnessLayout)

  /** The layout is the one of the circuit. */
  ghost predicate LayoutOf<F>(layout: Wit.WitnessLayout, c: Circuit<F>) {
    && c.numPublicInputs <= c.numInputs && layout.numPrivateInputs == c.NumPrivateInputs()
    && layout.NumLayers() == c.NumLayers()
    && forall j :: 0 <= j < c.NumLayers() ==> layout.logw[j] == c.layers[j].logw
  }

  function HandIndex(hand: Hand): (i: nat)
    ensures i < 2
  {
    if hand.Left? then 0 else 1
  }

  // ----- One round, as a function of the polynomials in the proof -----

  /** `left` and `right` are the challenges drawn so far in this layer. */
  datatype RoundState<F> = RoundState(history: FS.History<F>, quad: seq<QuadElement<F>>, claim: Sym.Expression<F>,
                                      left: seq<F>, right: seq<F>)

  ghost function AfterPolynomial<F>(h: FS.History<F>, p: Polynomial<F>): FS.History<F> {
    h + [FS.Write(FS.Element(p.p0))] + [FS.Write(FS.Element(p.p2))]
  }

  ghost function Challenge<F>(R: Field<F>, o: FS.Oracle<F>, h: FS.History<F>): F {
    At(R, o.challenge(h, 1), 0)
  }

  /** lag_1 * claim + p0 * (lag_0 - lag_1) + p2 * lag_2, where i is the position of the pad of p0. */
  function UpdatedClaim<F>(R: Field<F>, K: SumcheckConstants<F>, claim: Sym.Expression<F>, x: F, p: Polynomial<F>,
                           i: nat): Sym.Expression<F> {
    var scaled := Sym.ScaleExpression(R, claim, Lagrange1(R, K, x));
    var withP0 := Sym.AddTerm(R, scaled, Sym.PaddedTerm(R, i, p.p0, R.sub(Lagrange0(R, K, x), Lagrange1(R, K, x))));
    Sym.AddTerm(R, withP0, Sym.PaddedTerm(R, i + 1, p.p2, Lagrange2(R, K, x)))
  }

  ghost function HandStep<F>(R: Field<F>, S: Setting<F>, j: nat, round: nat, hand: Hand, p: Polynomial<F>,
                             st: RoundState<F>): RoundState<F>
    requires j < S.layout.NumLayers() && round < S.layout.logw[j]
  {
    var h := AfterPolynomial(st.history, p);
    var x := Challenge(R, S.oracle, h);
    RoundState(h + [FS.Draw(1)], HandBound(R, st.quad, hand, x),
               UpdatedClaim(R, S.K, st.claim, x, p, S.layout.PolynomialIndex(j, round, HandIndex(hand))),
               if hand.Left? then st.left + [x] else st.left, if hand.Left? then st.right else st.right + [x])
  }

  ghost function RoundStep<F>(R: Field<F>, S: Setting<F>, j: nat, round: nat, p: RoundPolynomials<F>,
                              st: RoundState<F>): RoundState<F>
    requires j < S.layout.NumLayers() && round < S.layout.logw[j]
  {
    HandStep(R, S, j, round, Right, p.right, HandStep(R, S, j, round, Left, p.left, st))
  }

  /** The state after the first k rounds. */
  ghost function Rounds<F>(R: Field<F>, S: Setting<F>, j: nat, ps: seq<RoundPolynomials<F>>, st: RoundState<F>,
                           k: nat): RoundState<F>
    requires j < S.layout.NumLayers() && k <= S.layout.logw[j] && k <= |ps|
  {
    if k == 0 then st else RoundStep(R, S, j, k - 1, ps[k - 1], Rounds(R, S, j, ps, st, k - 1))
  }

  lemma {:induction k} RoundsPrefix<F>(R: Field<F>, S: Setting<F>, j: nat, ps: seq<RoundPolynomials<F>>,
                                       p: RoundPolynomials<F>, st: RoundState<F>, k: nat)
    requires j < S.layout.NumLayers() && k <= S.layout.logw[j] && k <= |ps|
    ensures Rounds(R, S, j, ps + [p], st, k) == Rounds(R, S, j, ps, st, k)
  {
  }

  // ----- What every round keeps, whoever runs it -----

  ghost function Width(n: nat, k: nat): nat {
    if k == 0 then n else HalfLength(Width(n, k - 1))
  }

  /** The quad is sorted for the next hand and its wire indices fit the wires bound so far. */
  ghost predicate Bindable<F>(quad: seq<QuadElement<F>>, hand: Hand, own: nat, other: nat) {
    && |quad| > 0 && Increasing(hand, quad) && GateIsBound(quad)
    && WiresBelow(quad, hand, own) && WiresBelow(quad, Opposite(hand), other)
  }

  ghost predicate GoodShape<F>(S: Setting<F>, j: nat, st: RoundState<F>, hand: Hand)
    requires j < S.circuit.NumLayers()
  {
    var n := S.circuit.layers[j].numWires;
    && (if hand.Left? then Bindable(st.quad, Left, Width(n, |st.left|), Width(n, |st.right|))
        else Bindable(st.quad, Right, Width(n, |st.right|), Width(n, |st.left|)))
    && st.claim.constraint == j && Sym.Tagged(st.claim.terms, j, S.layout.Length())
  }

  lemma {:induction false} CompactKeeps<F>(R: Field<F>, q: seq<QuadElement<F>>, hand: Hand, n: nat, len: nat)
    requires n <= |q| && GateIsBound(q) && WiresBelow(q, hand, len)
    ensures GateIsBound(Compact(R, q, n)) && WiresBelow(Compact(R, q, n), hand, len)
  {
    for i := 0 to n
      invariant GateIsBound(Compact(R, q, i)) && WiresBelow(Compact(R, q, i), hand, len)
    {
      CompactNext(R, q, i);
    }
  }

  lemma HandBoundBindable<F>(R: Field<F>, q: seq<QuadElement<F>>, hand: Hand, x: F, own: nat, other: nat)
    requires Bindable(q, hand, own, other)
    ensures Bindable(HandBound(R, q, hand, x), Opposite(hand), other, HalfLength(own))
  {
    var e := HandEntries(R, q, hand, x);
    HandBoundIncreasing(R, q, hand, x);
    assert WiresBelow(e, hand, HalfLength(own)) by {
      forall i | 0 <= i < |e| ensures e[i].HandWire(hand) < HalfLength(own) {
        assert q[i].HandWire(hand) < own;
      }
    }
    assert WiresBelow(e, Opposite(hand), other) by {
      forall i | 0 <= i < |e| ensures e[i].HandWire(Opposite(hand)) < other {
        assert q[i].HandWire(Opposite(hand)) < other;
      }
    }
    CompactKeeps(R, e, hand, |q|, HalfLength(own));
    CompactKeeps(R, e, Opposite(hand), |q|, other);
  }

  lemma UpdatedTags<F>(R: Field<F>, K: SumcheckConstants<F>, claim: Sym.Expression<F>, x: F, p: Polynomial<F>, i: nat,
                       j: nat, n: nat)
    requires claim.constraint == j && Sym.Tagged(claim.terms, j, n) && i + 1 < n
    ensures var e := UpdatedClaim(R, K, claim, x, p, i); e.constraint == j && Sym.Tagged(e.terms, j, n)
  {
  }

  lemma PolynomialPosition<F>(S: Setting<F>, j: nat, round: nat, hand: Hand)
    requires j < S.layout.NumLayers() && round < S.layout.logw[j]
    ensures S.layout.PolynomialIndex(j, round, HandIndex(hand)) + 1 < S.layout.Length()
  {
    Wit.SlotInLayer(S.layout, Wit.Polynomial(j, round, HandIndex(hand), 1));
  }

  lemma HandStepShape<F>(R: Field<F>, S: Setting<F>, j: nat, round: nat, hand: Hand, p: Polynomial<F>,
                         st: RoundState<F>)
    requires j < S.layout.NumLayers() && round < S.layout.logw[j] && j < S.circuit.NumLayers()
      && GoodShape(S, j, st, hand)
    ensures GoodShape(S, j, HandStep(R, S, j, round, hand, p, st), Opposite(hand))
  {
    var n := S.circuit.layers[j].numWires;
    var x := Challenge(R, S.oracle, AfterPolynomial(st.history, p));
    var own, other := if hand.Left? then |st.left| else |st.right|, if hand.Left? then |st.right| else |st.left|;
    HandBoundBindable(R, st.quad, hand, x, Width(n, own), Width(n, other));
    PolynomialPosition(S, j, round, hand);
    UpdatedTags(R, S.K, st.claim, x, p, S.layout.PolynomialIndex(j, round, HandIndex(hand)), j, S.layout.Length());
  }

  lemma RoundStepShape<F>(R: Field<F>, S: Setting<F>, j: nat, round: nat, p: RoundPolynomials<F>, st: RoundState<F>)
    requires j < S.layout.NumLayers() && round < S.layout.logw[j] && j < S.circuit.NumLayers()
      && GoodShape(S, j, st, Left)
    ensures GoodShape(S, j, RoundStep(R, S, j, round, p, st), Left)
    ensures GoodShape(S, j, HandStep(R, S, j, round, Left, p.left, st), Right)
  {
    HandStepShape(R, S, j, round, Left, p.left, st);
    HandStepShape(R, S, j, round, Right, p.right, HandStep(R, S, j, round, Left, p.left, st));
  }

  lemma RoundsShape<F>(R: Field<F>, S: Setting<F>, j: nat, ps: seq<RoundPolynomials<F>>, st: RoundState<F>, k: nat)
    requires j < S.layout.NumLayers() && k <= S.layout.logw[j] && k <= |ps| && j < S.circuit.NumLayers()
    requires GoodShape(S, j, st, Left) && |st.left| == |st.right| == 0
    ensures GoodShape(S, j, Rounds(R, S, j, ps, st, k), Left)
    ensures |Rounds(R, S, j, ps, st, k).left| == |Rounds(R, S, j, ps, st, k).right| == k
  {
    var s := st;
    for i := 0 to k
      invariant s == Rounds(R, S, j, ps, st, i) && GoodShape(S, j, s, Left) && |s.left| == |s.right| == i
    {
      RoundStepShape(R, S, j, i, ps[i], s);
      s := RoundStep(R, S, j, i, ps[i], s);
    }
  }

  // ----- Honest polynomials -----

  /** p holds of the numbers below k. */
  ghost predicate UpTo(p: nat -> bool, k: nat) {
    forall i: nat :: i < k ==> p(i)
  }

  /** p holds the values of the round polynomial at 0 and p2, minus the pads at positions i and i + 1. */
  ghost predicate HonestPolynomial<F>(R: Field<F>, K: SumcheckConstants<F>, quad: seq<QuadElement<F>>, hand: Hand,
                                      own: seq<F>, other: seq<F>,
                                      w: seq<F>, i: nat, p: Polynomial<F>)
  {
    && p.p0 == R.sub(RoundPolynomial(R, quad, hand, own, other, R.zero), At(R, w, i))
    && p.p2 == R.sub(RoundPolynomial(R, quad, hand, own, other, K.p2), At(R, w, i + 1))
  }

  /** The wires of a hand, bound to the challenges drawn so far. */
  ghost function Bound<F>(R: Field<F>, wires: seq<F>, st: RoundState<F>, hand: Hand): seq<F> {
    BindAll(R, wires, if hand.Left? then st.left else st.right)
  }

  ghost predicate HonestHand<F>(R: Field<F>, S: Setting<F>, j: nat, round: nat, hand: Hand, wires: seq<F>, w: seq<F>,
                                st: RoundState<F>, p: Polynomial<F>)
    requires j < S.layout.NumLayers() && round < S.layout.logw[j]
  {
    HonestPolynomial(R, S.K, st.quad, hand, Bound(R, wires, st, hand), Bound(R, wires, st, Opposite(hand)),
                     w, S.layout.PolynomialIndex(j, round, HandIndex(hand)), p)
  }

  ghost predicate HonestRound<F>(R: Field<F>, S: Setting<F>, j: nat, round: nat, wires: seq<F>, w: seq<F>,
                                 st: RoundState<F>, p: RoundPolynomials<F>)
    requires j < S.layout.NumLayers() && round < S.layout.logw[j]
  {
    HonestHand(R, S, j, round, Left, wires, w, st, p.left)
    && HonestHand(R, S, j, round, Right, wires, w, HandStep(R, S, j, round, Left, p.left, st), p.right)
  }

  ghost predicate HonestRounds<F(!new)>(R: Field<F>, S: Setting<F>, j: nat, wires: seq<F>, w: seq<F>, st: RoundState<F>,
                                        ps: seq<RoundPolynomials<F>>, k: nat)
    requires j < S.layout.NumLayers() && k <= S.layout.logw[j] && k <= |ps|
  {
    UpTo(HonestRoundsOf(R, S, j, wires, w, st, ps), k)
  }

  ghost function HonestRoundsOf<F(!new)>(R: Field<F>, S: Setting<F>, j: nat, wires: seq<F>, w: seq<F>,
                                         st: RoundState<F>, ps: seq<RoundPolynomials<F>>): nat -> bool
    requires j < S.layout.NumLayers()
  {
    (i: nat) => i < S.layout.logw[j] && i < |ps| && HonestRoundAt(R, S, j, wires, w, st, ps, i)
  }

  ghost predicate HonestRoundAt<F>(R: Field<F>, S: Setting<F>, j: nat, wires: seq<F>, w: seq<F>, st: RoundState<F>,
                                   ps: seq<RoundPolynomials<F>>, i: nat)
    requires j < S.layout.NumLayers() && i < S.layout.logw[j] && i < |ps|
  {
    HonestRound(R, S, j, i, wires, w, Rounds(R, S, j, ps, st, i), ps[i])
  }

  /** The claim of a round: with the pads filled in, it is the sum over the bound quad and the bound wires. */
  ghost predicate ClaimHolds<F>(R: Field<F>, wires: seq<F>, w: seq<F>, st: RoundState<F>, hand: Hand) {
    Sym.ExpressionValue(R, st.claim, w)
      == Total(R, st.quad, |st.quad|, hand, Bound(R, wires, st, hand), Bound(R, wires, st, Opposite(hand)))
  }

  lemma UpdatedClaimValue<F(!new)>(R: Field<F>, K: SumcheckConstants<F>, claim: Sym.Expression<F>, x: F,
                                   p: Polynomial<F>, i: nat, w: seq<F>)
    requires IsRing(R)
    ensures Sym.ExpressionValue(R, UpdatedClaim(R, K, claim, x, p, i), w)
      == R.add(R.add(R.mul(Sym.ExpressionValue(R, claim, w), Lagrange1(R, K, x)),
        R.mul(R.add(p.p0, At(R, w, i)), R.sub(Lagrange0(R, K, x), Lagrange1(R, K, x)))),
        R.mul(R.add(p.p2, At(R, w, i + 1)), Lagrange2(R, K, x)))
  {
    var scaled := Sym.ScaleExpression(R, claim, Lagrange1(R, K, x));
    var t0, t2 :=
      Sym.PaddedTerm(R, i, p.p0, R.sub(Lagrange0(R, K, x), Lagrange1(R, K, x))),
      Sym.PaddedTerm(R, i + 1, p.p2, Lagrange2(R, K, x));
    Sym.ScaleValue(R, claim, Lagrange1(R, K, x), w);
    Sym.AddTermValue(R, scaled, t0, w);
    Sym.AddTermValue(R, Sym.AddTerm(R, scaled, t0), t2, w);
    Sym.PaddedTermValue(R, i, p.p0, R.sub(Lagrange0(R, K, x), Lagrange1(R, K, x)), w);
    Sym.PaddedTermValue(R, i + 1, p.p2, Lagrange2(R, K, x), w);
  }

  lemma Unpadded<F(!new)>(R: Field<F>, v: F, pad: F, p: F)
    requires IsRing(R) && p == R.sub(v, pad)
    ensures R.add(p, pad) == v
  {
    Ring(R, A(S(V(0), V(1)), V(1)), V(0), [v, pad]);
  }

  lemma {:induction false} BindAllWidth<F>(R: Field<F>, wires: seq<F>, xs: seq<F>)
    ensures |BindAll(R, wires, xs)| == Width(|wires|, |xs|)
    decreases |xs|
  {
    if |xs| > 0 {
      var last := |xs| - 1;
      assert xs == xs[..last] + [xs[last]];
      BindAllNext(R, wires, xs[..last], xs[last]);
      BindAllWidth(R, wires, xs[..last]);
    }
  }

  /** One hand of one round: the honest polynomial carries the claim over to the next hand. */
  lemma HandStepClaim<F(!new)>(R: Field<F>, S: Setting<F>, j: nat, round: nat, hand: Hand, wires: seq<F>, w: seq<F>,
                               st: RoundState<F>, p: Polynomial<F>)
    requires IsRing(R) && GoodConstants(R, S.K) && j < S.layout.NumLayers() && round < S.layout.logw[j]
    requires HonestHand(R, S, j, round, hand, wires, w, st, p) && ClaimHolds(R, wires, w, st, hand)
    requires WiresBelow(st.quad, hand, |Bound(R, wires, st, hand)|)
    ensures ClaimHolds(R, wires, w, HandStep(R, S, j, round, hand, p, st), Opposite(hand))
  {
    var x := Challenge(R, S.oracle, AfterPolynomial(st.history, p));
    var own, other := Bound(R, wires, st, hand), Bound(R, wires, st, Opposite(hand));
    var quad := HandBound(R, st.quad, hand, x);
    PolynomialClaim(R, S.K, st.quad, hand, own, other, w, S.layout.PolynomialIndex(j, round, HandIndex(hand)), p, x,
      st.claim);
    BindAllNext(R, wires, if hand.Left? then st.left else st.right, x);
    TotalSwap(R, quad, |quad|, hand, BindSeq(R, own, x), other);
  }

  lemma PolynomialClaim<F(!new)>(R: Field<F>, K: SumcheckConstants<F>, quad: seq<QuadElement<F>>, hand: Hand,
                                 own: seq<F>, other: seq<F>,
                                 w: seq<F>, i: nat, p: Polynomial<F>, x: F, claim: Sym.Expression<F>)
    requires IsRing(R) && GoodConstants(R, K) && WiresBelow(quad, hand, |own|)
    requires HonestPolynomial(R, K, quad, hand, own, other, w, i, p)
    requires Sym.ExpressionValue(R, claim, w) == Total(R, quad, |quad|, hand, own, other)
    ensures var q := HandBound(R, quad, hand, x);
      Sym.ExpressionValue(R, UpdatedClaim(R, K, claim, x, p, i), w) == Total(R, q, |q|, hand, BindSeq(R, own, x), other)
  {
    UpdatedClaimValue(R, K, claim, x, p, i, w);
    Unpadded(R, RoundPolynomial(R, quad, hand, own, other, R.zero), At(R, w, i), p.p0);
    Unpadded(R, RoundPolynomial(R, quad, hand, own, other, K.p2), At(R, w, i + 1), p.p2);
    RoundClaim(R, K, quad, hand, own, other, x, Sym.ExpressionValue(R, claim, w));
  }

  lemma RoundStepClaim<F(!new)>(R: Field<F>, S: Setting<F>, j: nat, round: nat, wires: seq<F>, w: seq<F>,
                                st: RoundState<F>, p: RoundPolynomials<F>)
    requires IsRing(R) && GoodConstants(R, S.K) && j < S.layout.NumLayers() && round < S.layout.logw[j]
      && j < S.circuit.NumLayers()
    requires HonestRound(R, S, j, round, wires, w, st, p) && ClaimHolds(R, wires, w, st, Left)
    requires GoodShape(S, j, st, Left) && |wires| == S.circuit.layers[j].numWires
    ensures ClaimHolds(R, wires, w, RoundStep(R, S, j, round, p, st), Left)
  {
    var mid := HandStep(R, S, j, round, Left, p.left, st);
    RoundStepShape(R, S, j, round, p, st);
    BindAllWidth(R, wires, st.left);
    HandStepClaim(R, S, j, round, Left, wires, w, st, p.left);
    BindAllWidth(R, wires, mid.right);
    HandStepClaim(R, S, j, round, Right, wires, w, mid, p.right);
  }

  /** All rounds of a layer keep the claim. */
  lemma RoundsClaim<F(!new)>(R: Field<F>, S: Setting<F>, j: nat, wires: seq<F>, w: seq<F>, st: RoundState<F>,
                             ps: seq<RoundPolynomials<F>>, k: nat)
    requires IsRing(R) && GoodConstants(R, S.K) && j < S.layout.NumLayers() && k <= S.layout.logw[j] && k <= |ps|
      && j < S.circuit.NumLayers()
    requires HonestRounds(R, S, j, wires, w, st, ps, k) && ClaimHolds(R, wires, w, st, Left)
    requires GoodShape(S, j, st, Left) && |st.left| == |st.right| == 0 && |wires| == S.circuit.layers[j].numWires
    ensures ClaimHolds(R, wires, w, Rounds(R, S, j, ps, st, k), Left)
  {
    var s := st;
    for i := 0 to k
      invariant s == Rounds(R, S, j, ps, st, i) && ClaimHolds(R, wires, w, s, Left)
    {
      NextRoundClaim(R, S, j, wires, w, st, ps, i, k);
      s := RoundStep(R, S, j, i, ps[i], s);
    }
  }

  lemma NextRoundClaim<F(!new)>(R: Field<F>, S: Setting<F>, j: nat, wires: seq<F>, w: seq<F>, st: RoundState<F>,
                                ps: seq<RoundPolynomials<F>>,
                                i: nat, k: nat)
    requires IsRing(R) && GoodConstants(R, S.K) && j < S.layout.NumLayers() && k <= S.layout.logw[j] && k <= |ps|
      && j < S.circuit.NumLayers()
    requires i < k && HonestRounds(R, S, j, wires, w, st, ps, k)
      && ClaimHolds(R, wires, w, Rounds(R, S, j, ps, st, i), Left)
    requires GoodShape(S, j, st, Left) && |st.left| == |st.right| == 0 && |wires| == S.circuit.layers[j].numWires
    ensures ClaimHolds(R, wires, w, RoundStep(R, S, j, i, ps[i], Rounds(R, S, j, ps, st, i)), Left)
  {
    RoundsShape(R, S, j, ps, st, i);
    assert HonestRoundsOf(R, S, j, wires, w, st, ps)(i);
    RoundStepClaim(R, S, j, i, wires, w, Rounds(R, S, j, ps, st, i), ps[i]);
  }
}
