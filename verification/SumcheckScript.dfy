/**
 The transcript of sumcheck (src/sumcheck/mod.rs, `run_protocol`) written out: which messages and draws a proof leads
 to. The order of the steps is that of the source, told without the state of the protocol, and the messages determine
 the proof.
 */
module SumcheckScript {
  import opened Fields
  import opened Sums
  import opened Circuits
  import opened SumcheckRounds
  import opened Sumcheck
  import FS = FiatShamir

  ghost function PolynomialSteps<F>(p: Polynomial<F>): (s: FS.History<F>) {
    [FS.Write(FS.Element(p.p0)), FS.Write(FS.Element(p.p2))]
  }

  ghost function RoundSteps<F>(p: RoundPolynomials<F>): FS.History<F> {
    PolynomialSteps(p.left) + [FS.Draw(1)] + PolynomialSteps(p.right) + [FS.Draw(1)]
  }

  /** The steps of the first k rounds. */
  ghost function RoundsSteps<F>(ps: seq<RoundPolynomials<F>>, k: nat): FS.History<F>
    requires k <= |ps|
  {
    if k == 0 then [] else RoundsSteps(ps, k - 1) + RoundSteps(ps[k - 1])
  }

  ghost function LayerSteps<F>(lp: ProofLayer<F>): FS.History<F> {
    [FS.Draw(1), FS.Draw(1)] + RoundsSteps(lp.polynomials, |lp.polynomials|) + [FS.Write(FS.Elements([lp.vl, lp.vr]))]
  }

  /** The steps before the first layer and of the first k layers; n is the number of bits of an output wire. */
  ghost function RunSteps<F>(n: nat, layers: seq<ProofLayer<F>>, k: nat): FS.History<F>
    requires n <= MAX_BINDINGS && k <= |layers|
  {
    if k == 0 then [FS.Draw(MAX_BINDINGS), FS.Draw(n), FS.Draw(MAX_BINDINGS - n)]
    else RunSteps(n, layers, k - 1) + LayerSteps(layers[k - 1])
  }

  // ----- The protocol follows the script -----

  /** The history at the start of the rounds of layer j. */
  ghost function RoundsStart<F>(h: FS.History<F>, n: nat, layers: seq<ProofLayer<F>>, j: nat): FS.History<F>
    requires n <= MAX_BINDINGS && j <= |layers|
  {
    h + RunSteps(n, layers, j) + [FS.Draw(1), FS.Draw(1)]
  }

  /** The challenges of the left hand in the first k rounds, after the history b. */
  ghost function LeftPoints<F>(R: Field<F>, o: FS.Oracle<F>, b: FS.History<F>, ps: seq<RoundPolynomials<F>>,
                               k: nat): (xs: seq<F>)
    requires k <= |ps|
    ensures |xs| == k
  {
    if k == 0 then []
    else
      var left := b + RoundsSteps(ps, k - 1) + PolynomialSteps(ps[k - 1].left);
      LeftPoints(R, o, b, ps, k - 1) + [At(R, o.challenge(left, 1), 0)]
  }

  ghost function RightPoints<F>(R: Field<F>, o: FS.Oracle<F>, b: FS.History<F>, ps: seq<RoundPolynomials<F>>,
                                k: nat): (xs: seq<F>)
    requires k <= |ps|
    ensures |xs| == k
  {
    if k == 0 then []
    else
      var left := b + RoundsSteps(ps, k - 1) + PolynomialSteps(ps[k - 1].left);
      RightPoints(R, o, b, ps, k - 1)
        + [At(R, o.challenge(left + [FS.Draw(1)] + PolynomialSteps(ps[k - 1].right), 1), 0)]
  }

  ghost predicate Follows<F>(R: Field<F>, o: FS.Oracle<F>, b: FS.History<F>, ps: seq<RoundPolynomials<F>>, k: nat,
                             rs: RoundState<F>)
    requires k <= |ps|
  {
    rs.history == b + RoundsSteps(ps, k) && rs.left == LeftPoints(R, o, b, ps, k)
      && rs.right == RightPoints(R, o, b, ps, k)
  }

  lemma RoundFollows<F>(R: Field<F>, S: Setting<F>, j: nat, b: FS.History<F>, ps: seq<RoundPolynomials<F>>, k: nat,
                        rs: RoundState<F>)
    requires j < S.layout.NumLayers() && k < S.layout.logw[j] && k < |ps| && Follows(R, S.oracle, b, ps, k, rs)
    ensures Follows(R, S.oracle, b, ps, k + 1, RoundStep(R, S, j, k, ps[k], rs))
  {
    var p := ps[k];
    var before := b + RoundsSteps(ps, k);
    assert AfterPolynomial(before, p.left) == before + PolynomialSteps(p.left);
    var middle := before + PolynomialSteps(p.left) + [FS.Draw(1)];
    assert AfterPolynomial(middle, p.right) == middle + PolynomialSteps(p.right);
    assert middle + PolynomialSteps(p.right) + [FS.Draw(1)] == b + RoundsSteps(ps, k + 1);
  }

  lemma {:induction false} RoundsFollow<F>(R: Field<F>, S: Setting<F>, j: nat, b: FS.History<F>,
                                           ps: seq<RoundPolynomials<F>>, st: RoundState<F>, k: nat)
    requires j < S.layout.NumLayers() && k <= S.layout.logw[j] && k <= |ps|
    requires st.history == b && st.left == st.right == []
    ensures Follows(R, S.oracle, b, ps, k, Rounds(R, S, j, ps, st, k))
  {
    if k > 0 {
      var i := k - 1;
      RoundsFollow(R, S, j, b, ps, st, i);
      RoundFollows(R, S, j, b, ps, i, Rounds(R, S, j, ps, st, i));
      assert k == i + 1;
    }
  }

  /** The points at which the gate of layer j is bound: those of the layer before, or the output bindings. */
  ghost function LeftGate<F>(R: Field<F>, S: Setting<F>, layers: seq<ProofLayer<F>>, h: FS.History<F>, j: nat): seq<F>
    requires S.circuit.LevelBits(0) <= MAX_BINDINGS && j <= |layers|
  {
    var n := S.circuit.LevelBits(0);
    if j == 0 then S.oracle.challenge(h + [FS.Draw(MAX_BINDINGS)], n)
    else LeftPoints(R, S.oracle, RoundsStart(h, n, layers, j - 1), layers[j - 1].polynomials,
      |layers[j - 1].polynomials|)
  }

  ghost function RightGate<F>(R: Field<F>, S: Setting<F>, layers: seq<ProofLayer<F>>, h: FS.History<F>, j: nat): seq<F>
    requires S.circuit.LevelBits(0) <= MAX_BINDINGS && j <= |layers|
  {
    var n := S.circuit.LevelBits(0);
    if j == 0 then S.oracle.challenge(h + [FS.Draw(MAX_BINDINGS)], n)
    else RightPoints(R, S.oracle, RoundsStart(h, n, layers, j - 1), layers[j - 1].polynomials,
      |layers[j - 1].polynomials|)
  }

  /** What a layer starts from, in terms of the proof. */
  ghost predicate StartsLayer<F>(R: Field<F>, S: Setting<F>, layers: seq<ProofLayer<F>>, h: FS.History<F>, j: nat,
                                 st: LayerState<F>)
    requires S.circuit.LevelBits(0) <= MAX_BINDINGS && j <= |layers|
  {
    && st.history == h + RunSteps(S.circuit.LevelBits(0), layers, j)
    && st.left == LeftGate(R, S, layers, h, j) && st.right == RightGate(R, S, layers, h, j)
    && st.vl == (if j == 0 then R.zero else layers[j - 1].vl) && st.vr == (if j == 0 then R.zero else layers[j - 1].vr)
  }

  lemma LastRoundFollows<F>(R: Field<F>, S: Setting<F>, layers: seq<ProofLayer<F>>, h: FS.History<F>, j: nat,
                            st: LayerState<F>)
    requires S.circuit.LevelBits(0) <= MAX_BINDINGS && j < |layers| && LayerFits(S, j, layers[j])
      && |st.left| == |st.right|
    requires StartsLayer(R, S, layers, h, j, st)
    ensures Follows(R, S.oracle, RoundsStart(h, S.circuit.LevelBits(0), layers, j), layers[j].polynomials,
      S.layout.logw[j],
                    LastRound(R, S, j, layers[j], st))
  {
    var b := RoundsStart(h, S.circuit.LevelBits(0), layers, j);
    assert FirstRound(R, S, j, st).history == b;
    RoundsFollow(R, S, j, b, layers[j].polynomials, FirstRound(R, S, j, st), S.layout.logw[j]);
  }

  lemma LayerFollows<F>(R: Field<F>, S: Setting<F>, layers: seq<ProofLayer<F>>, h: FS.History<F>, j: nat,
                        st: LayerState<F>)
    requires S.circuit.LevelBits(0) <= MAX_BINDINGS && j < |layers| && LayerFits(S, j, layers[j])
      && |st.left| == |st.right|
    requires StartsLayer(R, S, layers, h, j, st)
    ensures StartsLayer(R, S, layers, h, j + 1, LayerStep(R, S, j, layers[j], st))
  {
    LastRoundFollows(R, S, layers, h, j, st);
    LayerScript(h, S.circuit.LevelBits(0), layers, j);
    NextStarts(R, S, layers, h, j, LastRound(R, S, j, layers[j], st), LayerStep(R, S, j, layers[j], st));
  }

  lemma LayerScript<F>(h: FS.History<F>, n: nat, layers: seq<ProofLayer<F>>, j: nat)
    requires n <= MAX_BINDINGS && j < |layers|
    ensures var lp := layers[j];
      RoundsStart(h, n, layers, j) + RoundsSteps(lp.polynomials, |lp.polynomials|)
        + [FS.Write(FS.Elements([lp.vl, lp.vr]))]
      == h + RunSteps(n, layers, j + 1)
  {
    var lp := layers[j];
    assert LayerSteps(lp)
      == [FS.Draw(1), FS.Draw(1)] + RoundsSteps(lp.polynomials, |lp.polynomials|)
      + [FS.Write(FS.Elements([lp.vl, lp.vr]))];
  }

  lemma NextStarts<F>(R: Field<F>, S: Setting<F>, layers: seq<ProofLayer<F>>, h: FS.History<F>, j: nat,
                      rs: RoundState<F>, next: LayerState<F>)
    requires S.circuit.LevelBits(0) <= MAX_BINDINGS && j < |layers|
    requires Follows(R, S.oracle, RoundsStart(h, S.circuit.LevelBits(0), layers, j), layers[j].polynomials,
      |layers[j].polynomials|, rs)
    requires next.history == h + RunSteps(S.circuit.LevelBits(0), layers, j + 1)
    requires next.left == rs.left && next.right == rs.right && next.vl == layers[j].vl && next.vr == layers[j].vr
    ensures StartsLayer(R, S, layers, h, j + 1, next)
  {
  }

  /** Every one of the first k layers starts as the script says. */
  ghost predicate AllStart<F>(R: Field<F>, S: Setting<F>, layers: seq<ProofLayer<F>>, h: FS.History<F>, k: nat)
    requires S.circuit.LevelBits(0) <= MAX_BINDINGS && ProofFits(S, layers) && k <= |layers|
  {
    (k > 0 ==> AllStart(R, S, layers, h, k - 1)) && StartsLayer(R, S, layers, h, k, Layers(R, S, layers, h, k))
  }

  lemma AllStartNext<F>(R: Field<F>, S: Setting<F>, layers: seq<ProofLayer<F>>, h: FS.History<F>, j: nat, k: nat)
    requires S.circuit.LevelBits(0) <= MAX_BINDINGS && ProofFits(S, layers) && k == j + 1 <= |layers|
      && AllStart(R, S, layers, h, j)
    ensures AllStart(R, S, layers, h, k)
  {
    LayersNext(R, S, layers, h, j);
    LayerFollows(R, S, layers, h, j, Layers(R, S, layers, h, j));
  }

  lemma {:induction false} LayersStart<F>(R: Field<F>, S: Setting<F>, layers: seq<ProofLayer<F>>, h: FS.History<F>,
                                          k: nat)
    requires S.circuit.LevelBits(0) <= MAX_BINDINGS && ProofFits(S, layers) && k <= |layers|
    ensures AllStart(R, S, layers, h, k)
  {
    if k == 0 {
      FirstFollows(R, S, layers, h);
    } else {
      LayersStart(R, S, layers, h, k - 1);
      AllStartNext(R, S, layers, h, k - 1, k);
    }
  }

  /** After any number of layers the transcript is the script, and bindings and claims are those of the proof. */
  lemma LayersFollow<F>(R: Field<F>, S: Setting<F>, layers: seq<ProofLayer<F>>, h: FS.History<F>, k: nat)
    requires S.circuit.LevelBits(0) <= MAX_BINDINGS && ProofFits(S, layers) && k <= |layers|
    ensures StartsLayer(R, S, layers, h, k, Layers(R, S, layers, h, k))
  {
    LayersStart(R, S, layers, h, k);
  }

  lemma FirstFollows<F>(R: Field<F>, S: Setting<F>, layers: seq<ProofLayer<F>>, h: FS.History<F>)
    requires S.circuit.LevelBits(0) <= MAX_BINDINGS
    requires ProofFits(S, layers)
    ensures AllStart(R, S, layers, h, 0)
  {
    var n := S.circuit.LevelBits(0);
    assert h + [FS.Draw(MAX_BINDINGS)] + [FS.Draw(n)] + [FS.Draw(MAX_BINDINGS - n)] == h + RunSteps(n, layers, 0);
  }

  /** The transcript at the end of a run. */
  lemma RunIsScript<F>(R: Field<F>, S: Setting<F>, layers: seq<ProofLayer<F>>, h: FS.History<F>)
    requires CompleteProof(S, layers)
    ensures RunHistory(R, S, layers, h) == h + RunSteps(S.circuit.LevelBits(0), layers, |layers|) + [FS.Draw(1)]
  {
    LayersFollow(R, S, layers, h, |layers|);
  }

  // ----- The script determines the proof -----

  /** Two parts of equal length at the end of equal sequences are equal, and so is what is before them. */
  lemma SplitEnd<E>(a: seq<E>, b: seq<E>, c: seq<E>, d: seq<E>)
    requires a + b == c + d && |b| == |d|
    ensures a == c && b == d
  {
    assert |a| == |c|;
    assert a == (a + b)[..|a|] && c == (c + d)[..|a|];
    assert b == (a + b)[|a|..] && d == (c + d)[|a|..];
  }

  lemma RoundStepsInjective<F>(p: RoundPolynomials<F>, q: RoundPolynomials<F>)
    requires RoundSteps(p) == RoundSteps(q)
    ensures p == q
  {
    assert RoundSteps(p)[0] == RoundSteps(q)[0] && RoundSteps(p)[1] == RoundSteps(q)[1];
    assert RoundSteps(p)[3] == RoundSteps(q)[3] && RoundSteps(p)[4] == RoundSteps(q)[4];
  }

  lemma {:induction false} RoundsStepsInjective<F>(ps: seq<RoundPolynomials<F>>, qs: seq<RoundPolynomials<F>>, k: nat)
    requires k <= |ps| && k <= |qs| && RoundsSteps(ps, k) == RoundsSteps(qs, k)
    ensures ps[..k] == qs[..k]
  {
    if k > 0 {
      var m := k - 1;
      SplitEnd(RoundsSteps(ps, m), RoundSteps(ps[m]), RoundsSteps(qs, m), RoundSteps(qs[m]));
      RoundsStepsInjective(ps, qs, m);
      RoundStepsInjective(ps[m], qs[m]);
      assert ps[..k] == ps[..m] + [ps[m]] && qs[..k] == qs[..m] + [qs[m]];
    }
  }

  lemma {:induction false} RoundsStepsLength<F>(ps: seq<RoundPolynomials<F>>, k: nat)
    requires k <= |ps|
    ensures |RoundsSteps(ps, k)| == 6 * k
  {
    if k > 0 {
      RoundsStepsLength(ps, k - 1);
    }
  }

  lemma LayerStepsInjective<F>(p: ProofLayer<F>, q: ProofLayer<F>)
    requires |p.polynomials| == |q.polynomials| && LayerSteps(p) == LayerSteps(q)
    ensures p == q
  {
    var n, draws := |p.polynomials|, [FS.Draw(1), FS.Draw(1)];
    var a, b := RoundsSteps(p.polynomials, n), RoundsSteps(q.polynomials, n);
    var claims, others := [p.vl, p.vr], [q.vl, q.vr];
    SplitEnd(draws + a, [FS.Write(FS.Elements(claims))], draws + b, [FS.Write(FS.Elements(others))]);
    assert [FS.Write(FS.Elements(claims))][0] == [FS.Write(FS.Elements(others))][0];
    assert claims[0] == others[0] && claims[1] == others[1];
    RoundsStepsLength(p.polynomials, n);
    RoundsStepsLength(q.polynomials, n);
    SplitEnd(draws, a, draws, b);
    RoundsStepsInjective(p.polynomials, q.polynomials, n);
    assert p.polynomials == p.polynomials[..n] && q.polynomials == q.polynomials[..n];
  }

  lemma LayerStepsLength<F>(p: ProofLayer<F>, q: ProofLayer<F>)
    requires |p.polynomials| == |q.polynomials|
    ensures |LayerSteps(p)| == |LayerSteps(q)|
  {
    RoundsStepsLength(p.polynomials, |p.polynomials|);
    RoundsStepsLength(q.polynomials, |q.polynomials|);
  }

  /** Equal steps of the first k layers come from equal layers, if the numbers of rounds are equal. */
  lemma {:induction false} RunStepsInjective<F>(n: nat, ps: seq<ProofLayer<F>>, qs: seq<ProofLayer<F>>, k: nat)
    requires n <= MAX_BINDINGS && k <= |ps| && k <= |qs| && RunSteps(n, ps, k) == RunSteps(n, qs, k)
    requires forall j :: 0 <= j < k ==> |ps[j].polynomials| == |qs[j].polynomials|
    ensures ps[..k] == qs[..k]
    decreases k
  {
    if k > 0 {
      var m := k - 1;
      LayerStepsLength(ps[m], qs[m]);
      SplitEnd(RunSteps(n, ps, m), LayerSteps(ps[m]), RunSteps(n, qs, m), LayerSteps(qs[m]));
      RunStepsInjective(n, ps, qs, m);
      LayerStepsInjective(ps[m], qs[m]);
      assert ps[..k] == ps[..m] + [ps[m]] && qs[..k] == qs[..m] + [qs[m]];
    }
  }

  lemma {:induction false} RunStepsLength<F>(n: nat, ps: seq<ProofLayer<F>>, qs: seq<ProofLayer<F>>, k: nat)
    requires n <= MAX_BINDINGS && k <= |ps| && k <= |qs|
    requires forall j :: 0 <= j < k ==> |ps[j].polynomials| == |qs[j].polynomials|
    ensures |RunSteps(n, ps, k)| == |RunSteps(n, qs, k)|
    decreases k
  {
    if k > 0 {
      RunStepsLength(n, ps, qs, k - 1);
      LayerStepsLength(ps[k - 1], qs[k - 1]);
    }
  }

  /** Runs that end with the same transcript started with the same transcript and have the same proof. */
  lemma RunHistoryDetermines<F>(R: Field<F>, S: Setting<F>, ps: seq<ProofLayer<F>>, qs: seq<ProofLayer<F>>,
                                h: FS.History<F>, g: FS.History<F>)
    requires CompleteProof(S, ps) && CompleteProof(S, qs) && RunHistory(R, S, ps, h) == RunHistory(R, S, qs, g)
    ensures h == g && ps == qs
  {
    var n, k := S.circuit.LevelBits(0), |ps|;
    RunIsScript(R, S, ps, h);
    RunIsScript(R, S, qs, g);
    forall j | 0 <= j < k ensures |ps[j].polynomials| == |qs[j].polynomials| {
      assert LayerFits(S, j, ps[j]) && LayerFits(S, j, qs[j]);
    }
    SplitEnd(h + RunSteps(n, ps, k), [FS.Draw(1)], g + RunSteps(n, qs, k), [FS.Draw(1)]);
    RunStepsLength(n, ps, qs, k);
    SplitEnd(h, RunSteps(n, ps, k), g, RunSteps(n, qs, k));
    RunStepsInjective(n, ps, qs, k);
    assert ps == ps[..k] && qs == qs[..k];
  }
}
