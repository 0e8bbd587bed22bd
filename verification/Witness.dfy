/**
 The witness vector (src/witness.rs): where each private input and each pad lies, that every position has exactly one
 use, and how the vector is filled.
 */
module Witness {
  import opened Fields
  import opened Sums
  import opened Constraints

  datatype WitnessLayout = WitnessLayout(numPrivateInputs: nat, logw: seq<nat>)
  {
    function NumLayers(): nat { |logw| }

    function LogwSum(k: nat): nat
      requires k <= |logw|
    {
      if k == 0 then 0 else LogwSum(k - 1) + logw[k - 1]
    }

    /** The first of the three positions for vl, vr and vl * vr. */
    function WireIndex(layer: nat): nat
      requires layer < |logw|
    {
      numPrivateInputs + layer * 3 + 4 * LogwSum(layer + 1)
    }

    /** The position for p0, which the one for p2 follows. */
    function PolynomialIndex(layer: nat, round: nat, hand: nat): nat
      requires layer < |logw| && round < logw[layer] && hand < 2
    {
      numPrivateInputs + layer * 3 + 4 * LogwSum(layer) + 4 * round + 2 * hand
    }

    function Length(): nat {
      numPrivateInputs + 3 * |logw| + 4 * LogwSum(|logw|)
    }

    /** Where the positions of a layer start. */
    ghost function LayerStart(k: nat): nat
      requires k <= |logw|
    {
      numPrivateInputs + 3 * k + 4 * LogwSum(k)
    }
  }

  // ----- Positions and their uses -----

  datatype Slot =
    | PrivateInput(i: nat)
    | Polynomial(layer: nat, round: nat, hand: nat, point: nat)
    | Wire(layer: nat, part: nat)

  ghost predicate IsSlot(L: WitnessLayout, s: Slot) {
    match s
    case PrivateInput(i) => i < L.numPrivateInputs
    case Polynomial(layer, round, hand, point) => layer < L.NumLayers() && round < L.logw[layer] && hand < 2
      && point < 2
    case Wire(layer, part) => layer < L.NumLayers() && part < 3
  }

  function IndexOf(L: WitnessLayout, s: Slot): nat
    requires IsSlot(L, s)
  {
    match s
    case PrivateInput(i) => i
    case Polynomial(layer, round, hand, point) => L.PolynomialIndex(layer, round, hand) + point
    case Wire(layer, part) => L.WireIndex(layer) + part
  }

  lemma LayerSize(L: WitnessLayout, k: nat)
    requires k < L.NumLayers()
    ensures L.LayerStart(k + 1) == L.LayerStart(k) + 4 * L.logw[k] + 3
    ensures L.LayerStart(L.NumLayers()) == L.Length()
  {
    assert L.LogwSum(k + 1) == L.LogwSum(k) + L.logw[k];
  }

  /** The use of position t in layer k or later. */
  ghost function SlotFrom(L: WitnessLayout, t: nat, k: nat): (s: Slot)
    requires k < L.NumLayers() && L.LayerStart(k) <= t < L.Length()
    ensures IsSlot(L, s) && IndexOf(L, s) == t
    decreases L.NumLayers() - k
  {
    var o, n := t - L.LayerStart(k), 4 * L.logw[k];
    LayerSize(L, k);
    var round := o / 4;
    var r := o - 4 * round;
    var hand := if r < 2 then 0 else 1;
    if o < n then Polynomial(k, round, hand, r - 2 * hand)
    else if o < n + 3 then Wire(k, o - n)
    else SlotFrom(L, t, k + 1)
  }

  ghost function SlotAt(L: WitnessLayout, t: nat): (s: Slot)
    requires t < L.Length()
    ensures IsSlot(L, s) && IndexOf(L, s) == t
  {
    if t < L.numPrivateInputs then PrivateInput(t) else SlotFrom(L, t, 0)
  }

  lemma {:induction false} LayersGrow(L: WitnessLayout, k: nat, m: nat)
    requires k <= m <= L.NumLayers()
    ensures L.LayerStart(k) <= L.LayerStart(m)
    decreases m - k
  {
    if k < m {
      LayersGrow(L, k, m - 1);
    }
  }

  ghost function SlotLayer(s: Slot): int {
    match s
    case PrivateInput(_) => -1
    case Polynomial(layer, _, _, _) => layer
    case Wire(layer, _) => layer
  }

  lemma SlotInLayer(L: WitnessLayout, s: Slot)
    requires IsSlot(L, s)
    ensures IndexOf(L, s) < L.Length()
    ensures s.PrivateInput? ==> IndexOf(L, s) < L.LayerStart(0)
    ensures !s.PrivateInput? ==> L.LayerStart(SlotLayer(s)) <= IndexOf(L, s) < L.LayerStart(SlotLayer(s) + 1)
  {
    if s.PrivateInput? {
      LayersGrow(L, 0, L.NumLayers());
    } else {
      LayersGrow(L, SlotLayer(s) + 1, L.NumLayers());
    }
  }

  /** Every position below the length has exactly one use: inputs, polynomial pads and wire pads never overlap. */
  lemma LayoutIsBijection(L: WitnessLayout, s: Slot, t: Slot)
    requires IsSlot(L, s) && IsSlot(L, t) && IndexOf(L, s) == IndexOf(L, t)
    ensures s == t && IndexOf(L, s) < L.Length() && SlotAt(L, IndexOf(L, s)) == s
  {
    SlotInLayer(L, s);
    SlotInLayer(L, t);
    SameUse(L, s, t);
    var u := SlotAt(L, IndexOf(L, s));
    SlotInLayer(L, u);
    SameUse(L, s, u);
  }

  lemma SameUse(L: WitnessLayout, s: Slot, t: Slot)
    requires IsSlot(L, s) && IsSlot(L, t) && IndexOf(L, s) == IndexOf(L, t)
    ensures s == t
  {
    SlotInLayer(L, s);
    SlotInLayer(L, t);
    if SlotLayer(s) < SlotLayer(t) {
      LayersGrow(L, SlotLayer(s) + 1, SlotLayer(t));
    } else if SlotLayer(t) < SlotLayer(s) {
      LayersGrow(L, SlotLayer(t) + 1, SlotLayer(s));
    } else {
      SameUseInLayer(L, s, t);
    }
  }

  lemma SameUseInLayer(L: WitnessLayout, s: Slot, t: Slot)
    requires IsSlot(L, s) && IsSlot(L, t) && IndexOf(L, s) == IndexOf(L, t) && SlotLayer(s) == SlotLayer(t)
    ensures s == t
  {
  }

  // ----- Filling -----

  /** n elements of the pad stream from position start on. */
  ghost function Pads<F>(pad: nat -> F, start: nat, n: nat): (s: seq<F>)
    ensures |s| == n && forall i :: 0 <= i < n ==> s[i] == pad(start + i)
  {
    seq(n, (i: nat) => pad(start + i))
  }

  /** How many pads are drawn for the first k layers. */
  ghost function PadStart(L: WitnessLayout, k: nat): nat
    requires k <= L.NumLayers()
  {
    2 * k + 4 * L.LogwSum(k)
  }

  /** Entry i of the pads of one layer. */
  ghost function LayerPad<F>(R: Field<F>, pad: nat -> F, start: nat, n: nat, i: nat): F {
    if i < n + 2 then pad(start + i) else R.mul(pad(start + n), pad(start + n + 1))
  }

  /** n polynomial pads, then vl, vr and vl * vr. */
  ghost function LayerPads<F>(R: Field<F>, pad: nat -> F, start: nat, n: nat): (s: seq<F>)
    ensures |s| == n + 3 && forall i :: 0 <= i < n + 3 ==> s[i] == LayerPad(R, pad, start, n, i)
  {
    seq(n + 3, (i: nat) => LayerPad(R, pad, start, n, i))
  }

  /** The witness up to layer k. */
  ghost function Filled<F>(R: Field<F>, L: WitnessLayout, privateInputs: seq<F>, pad: nat -> F, k: nat): (w: seq<F>)
    requires k <= L.NumLayers() && |privateInputs| == L.numPrivateInputs
    ensures |w| == L.LayerStart(k)
  {
    if k == 0 then privateInputs
    else
      Filled(R, L, privateInputs, pad, k - 1) + LayerPads(R, pad, PadStart(L, k - 1), 4 * L.logw[k - 1])
  }

  method FillLayer<F(!new)>(R: Field<F>, logw: nat, witnesses: seq<F>, pad: nat -> F, start: nat)
      returns (w: seq<F>, next: nat)
    ensures w == witnesses + LayerPads(R, pad, start, 4 * logw)
    ensures next == start + 4 * logw + 2
  {
    w, next := witnesses, start;
    for round := 0 to logw
      invariant next == start + 4 * round && w == witnesses + Pads(pad, start, 4 * round)
    {
      for hand := 0 to 2
        invariant next == start + 4 * round + 2 * hand && w == witnesses + Pads(pad, start, 4 * round + 2 * hand)
      {
        w := w + [pad(next)] + [pad(next + 1)];
        next := next + 2;
      }
    }
    var vl, vr := pad(next), pad(next + 1);
    w := w + [vl] + [vr] + [R.mul(vl, vr)];
    next := next + 2;
  }

  lemma FilledNext<F>(R: Field<F>, L: WitnessLayout, privateInputs: seq<F>, pad: nat -> F, k: nat)
    requires k < L.NumLayers() && |privateInputs| == L.numPrivateInputs
    ensures Filled(R, L, privateInputs, pad, k + 1)
      == Filled(R, L, privateInputs, pad, k) + LayerPads(R, pad, PadStart(L, k), 4 * L.logw[k])
    ensures PadStart(L, k + 1) == PadStart(L, k) + 4 * L.logw[k] + 2
  {
  }

  /** `fill_witness` */
  method FillWitness<F(!new)>(R: Field<F>, L: WitnessLayout, privateInputs: seq<F>, pad: nat -> F) returns (w: seq<F>)
    requires |privateInputs| == L.numPrivateInputs
    ensures w == Filled(R, L, privateInputs, pad, L.NumLayers()) && |w| == L.Length()
  {
    w := privateInputs;
    var next := 0;
    for k := 0 to L.NumLayers()
      invariant w == Filled(R, L, privateInputs, pad, k) && next == PadStart(L, k)
    {
      FilledNext(R, L, privateInputs, pad, k);
      w, next := FillLayer(R, L.logw[k], w, pad, next);
    }
  }

  /** What a filled witness holds at each position. */
  ghost function SlotValue<F>(R: Field<F>, L: WitnessLayout, privateInputs: seq<F>, pad: nat -> F, s: Slot): F
    requires IsSlot(L, s) && |privateInputs| == L.numPrivateInputs
  {
    match s
    case PrivateInput(i) => privateInputs[i]
    case Polynomial(layer, round, hand, point) => pad(PadStart(L, layer) + 4 * round + 2 * hand + point)
    case Wire(layer, part) =>
      var start := PadStart(L, layer) + 4 * L.logw[layer];
      if part < 2 then pad(start + part) else R.mul(pad(start), pad(start + 1))
  }

  lemma FilledSlot<F>(R: Field<F>, L: WitnessLayout, privateInputs: seq<F>, pad: nat -> F, s: Slot)
    requires |privateInputs| == L.numPrivateInputs && IsSlot(L, s)
    ensures IndexOf(L, s) < L.Length()
    ensures At(R, Filled(R, L, privateInputs, pad, L.NumLayers()), IndexOf(L, s))
      == SlotValue(R, L, privateInputs, pad, s)
  {
    SlotInLayer(L, s);
    var v := SlotValue(R, L, privateInputs, pad, s);
    var first := SlotLayer(s) + 1;
    if !s.PrivateInput? {
      FilledLast(R, L, privateInputs, pad, SlotLayer(s), s);
    }
    for k := first to L.NumLayers()
      invariant IndexOf(L, s) < L.LayerStart(k) && At(R, Filled(R, L, privateInputs, pad, k), IndexOf(L, s)) == v
    {
      FilledNext(R, L, privateInputs, pad, k);
      LayersGrow(L, k, k + 1);
      AtConcat(R, Filled(R, L, privateInputs, pad, k), LayerPads(R, pad, PadStart(L, k), 4 * L.logw[k]), IndexOf(L, s));
    }
  }

  lemma FilledLast<F>(R: Field<F>, L: WitnessLayout, privateInputs: seq<F>, pad: nat -> F, m: nat, s: Slot)
    requires m < L.NumLayers() && |privateInputs| == L.numPrivateInputs && IsSlot(L, s) && SlotLayer(s) == m
    ensures At(R, Filled(R, L, privateInputs, pad, m + 1), IndexOf(L, s)) == SlotValue(R, L, privateInputs, pad, s)
  {
    SlotInLayer(L, s);
    FilledNext(R, L, privateInputs, pad, m);
    assert L.LogwSum(m + 1) == L.LogwSum(m) + L.logw[m];
    AtConcat(R, Filled(R, L, privateInputs, pad, m), LayerPads(R, pad, PadStart(L, m), 4 * L.logw[m]), IndexOf(L, s));
  }

  lemma AtConcat<F>(R: Field<F>, a: seq<F>, b: seq<F>, i: nat)
    ensures i < |a| ==> At(R, a + b, i) == a[i]
    ensures |a| <= i < |a| + |b| ==> At(R, a + b, i) == b[i - |a|]
  {
  }

  // ----- Quadratic constraints -----

  /** `quadratic_constraints` of src/sumcheck/constraints/mod.rs */
  function QuadraticConstraints(L: WitnessLayout): (q: seq<QuadraticConstraint>)
    ensures |q| == L.NumLayers()
  {
    seq(L.NumLayers(), (k: nat) requires k < L.NumLayers() => var i :=
      L.WireIndex(k); QuadraticConstraint(i, i + 1, i + 2))
  }

  /** A filled witness has the product of the vl and vr pads at the vl * vr position of every layer. */
  lemma FilledQuadratic<F>(R: Field<F>, L: WitnessLayout, privateInputs: seq<F>, pad: nat -> F)
    requires |privateInputs| == L.numPrivateInputs
    ensures QuadraticInRange(QuadraticConstraints(L), L.Length())
    ensures QuadraticHold(R, QuadraticConstraints(L), Filled(R, L, privateInputs, pad, L.NumLayers()))
  {
    var q, w := QuadraticConstraints(L), Filled(R, L, privateInputs, pad, L.NumLayers());
    forall k | 0 <= k < |q|
      ensures q[k].x < L.Length() && q[k].y < L.Length() && q[k].z < L.Length()
      ensures R.mul(At(R, w, q[k].x), At(R, w, q[k].y)) == At(R, w, q[k].z)
    {
      FilledSlot(R, L, privateInputs, pad, Wire(k, 0));
      FilledSlot(R, L, privateInputs, pad, Wire(k, 1));
      FilledSlot(R, L, privateInputs, pad, Wire(k, 2));
    }
  }

  // ----- Every pad is fresh -----

  ghost predicate IsPad(s: Slot) {
    s.Polynomial? || (s.Wire? && s.part < 2)
  }

  /** The positions before the slot, without the inputs and without the products of the layers before. */
  ghost function PadIndex(L: WitnessLayout, s: Slot): int
    requires IsSlot(L, s) && IsPad(s)
  {
    IndexOf(L, s) - L.numPrivateInputs - SlotLayer(s)
  }

  lemma {:induction false} LayersGrowBy(L: WitnessLayout, k: nat, m: nat)
    requires k <= m <= L.NumLayers()
    ensures L.LayerStart(k) + 3 * (m - k) <= L.LayerStart(m)
    decreases m - k
  {
    if k < m {
      LayersGrowBy(L, k, m - 1);
    }
  }

  lemma PadIndexGrows(L: WitnessLayout, s: Slot, t: Slot)
    requires IsSlot(L, s) && IsSlot(L, t) && IsPad(s) && IsPad(t) && SlotLayer(s) < SlotLayer(t)
    ensures PadIndex(L, s) < PadIndex(L, t)
  {
    var k, m := SlotLayer(s), SlotLayer(t);
    LayersGrowBy(L, k + 1, m);
    LayerSize(L, k);
    SlotInLayer(L, t);
    assert IndexOf(L, s) <= L.LayerStart(k + 1) - 2;
  }

  /** Every pad of a filled witness is an element of the stream of its own: no two pads use the same one. */
  lemma PadsAreFresh<F>(R: Field<F>, L: WitnessLayout, privateInputs: seq<F>, pad: nat -> F, s: Slot, t: Slot)
    requires |privateInputs| == L.numPrivateInputs && IsSlot(L, s) && IsSlot(L, t) && IsPad(s) && IsPad(t)
    ensures PadIndex(L, s) >= 0
    ensures At(R, Filled(R, L, privateInputs, pad, L.NumLayers()), IndexOf(L, s)) == pad(PadIndex(L, s))
    ensures PadIndex(L, s) == PadIndex(L, t) ==> s == t
  {
    FilledSlot(R, L, privateInputs, pad, s);
    assert L.LogwSum(SlotLayer(s) + 1) == L.LogwSum(SlotLayer(s)) + L.logw[SlotLayer(s)];
    if SlotLayer(s) < SlotLayer(t) {
      PadIndexGrows(L, s, t);
    } else if SlotLayer(t) < SlotLayer(s) {
      PadIndexGrows(L, t, s);
    } else if PadIndex(L, s) == PadIndex(L, t) {
      LayoutIsBijection(L, s, t);
    }
  }
}
