/**
 Layered circuits (src/circuit.rs): evaluation, the combined quad of a layer, and the identity between the two on which
 sumcheck rests. Level 0 of the wires holds the outputs, the last level the inputs; layer j computes level j from level
 j + 1.
 */
module Circuits {
  import opened Fields
  import opened Sums
  import opened Dots
  import opened Bind
  import opened Sparse
  import opened Options
  import Bytes

  datatype Quad = Quad(gate: nat, left: nat, right: nat, constant: nat)

  datatype CircuitLayer = CircuitLayer(logw: nat, numWires: nat, quads: seq<Quad>)

  datatype Circuit<F> = Circuit(
    numOutputs: nat,
    numPublicInputs: nat,
    numInputs: nat,
    constantTable: seq<F>,
    layers: seq<CircuitLayer>,
    id: seq<Bytes.Byte>)
  {
    function NumLayers(): nat { |layers| }

    /** The number of wires on a level. */
    function LevelWires(level: nat): nat
      requires level <= NumLayers()
    {
      if level == 0 then numOutputs else layers[level - 1].numWires
    }

    /** The number of bits that name a wire on a level. */
    function LevelBits(level: nat): nat
      requires level <= NumLayers()
    {
      if level == 0 then CeilLog2(numOutputs) else layers[level - 1].logw
    }

    function NumPrivateInputs(): nat
      requires numPublicInputs <= numInputs
    {
      numInputs - numPublicInputs
    }

    function QuadsUpTo(k: nat): nat
      requires k <= NumLayers()
    {
      if k == 0 then 0 else QuadsUpTo(k - 1) + |layers[k - 1].quads|
    }

    function NumQuads(): nat {
      QuadsUpTo(NumLayers())
    }
  }

  function Value<F>(R: Field<F>, c: Circuit<F>, quad: Quad): F {
    At(R, c.constantTable, quad.constant)
  }

  // ----- Well-formed circuits -----

  ghost predicate QuadInRange<F>(c: Circuit<F>, j: nat, quad: Quad)
    requires j < c.NumLayers()
  {
    && quad.gate < c.LevelWires(j) && quad.left < c.LevelWires(j + 1) && quad.right < c.LevelWires(j + 1)
    && quad.constant < |c.constantTable|
  }

  ghost predicate QuadsInRange<F>(c: Circuit<F>, j: nat)
    requires j < c.NumLayers()
  {
    forall i :: 0 <= i < |c.layers[j].quads| ==> QuadInRange(c, j, c.layers[j].quads[i])
  }

  lemma LayerInRange<F>(R: Field<F>, c: Circuit<F>, j: nat)
    requires WellFormed(R, c) && j < c.NumLayers()
    ensures QuadsInRange(c, j)
  {
    assert WellFormedLayer(R, c, j);
  }

  /** Gates get contributions from either Q or Z but never both. */
  ghost predicate Disjoint<F>(R: Field<F>, c: Circuit<F>, quads: seq<Quad>) {
    forall i, k ::
      0 <= i < |quads| && 0 <= k < |quads| && Value(R, c, quads[i]) == R.zero && Value(R, c, quads[k]) != R.zero ==>
      quads[i].gate != quads[k].gate
  }

  ghost function QuadKey(quad: Quad): nat {
    Interleave(quad.right, quad.left)
  }

  /** The wires are named with logw bits and no fewer, and the quads are sorted for binding. */
  ghost predicate WellFormedLayer<F>(R: Field<F>, c: Circuit<F>, j: nat)
    requires j < c.NumLayers()
  {
    var layer := c.layers[j];
    && 0 < layer.numWires <= Exp2(layer.logw) && (layer.logw > 0 ==> Exp2(layer.logw - 1) < layer.numWires)
    && |layer.quads| > 0
    && QuadsInRange(c, j)
    && (forall i, k :: 0 <= i < k < |layer.quads| && k == i + 1 ==> QuadKey(layer.quads[i]) <= QuadKey(layer.quads[k]))
    && Disjoint(R, c, layer.quads)
  }

  ghost predicate WellFormed<F>(R: Field<F>, c: Circuit<F>) {
    && c.NumLayers() > 0 && c.numOutputs > 0 && CeilLog2(c.numOutputs) <= 40
    && 0 < c.numInputs == c.LevelWires(c.NumLayers()) && c.numPublicInputs <= c.numInputs
    && forall j :: 0 <= j < c.NumLayers() ==> WellFormedLayer(R, c, j)
  }

  // ----- Evaluation -----

  function QuadOutput<F(==)>(R: Field<F>, c: Circuit<F>, quad: Quad, wires: seq<F>): F {
    var k, l, r := Value(R, c, quad), At(R, wires, quad.left), At(R, wires, quad.right);
    if k == R.zero then R.mul(l, r) else R.mul(R.mul(k, l), r)
  }

  /** The outputs of a layer after its first n quads. */
  ghost function GateOutputs<F>(R: Field<F>, c: Circuit<F>, quads: seq<Quad>, n: nat, wires: seq<F>,
                                len: nat): (u: seq<F>)
    requires n <= |quads|
    ensures |u| == len
  {
    if n == 0 then Zeros(R, len)
    else AddAt(R, GateOutputs(R, c, quads, n - 1, wires, len), quads[n - 1].gate, QuadOutput(R, c, quads[n - 1], wires))
  }

  ghost function LayerOutputs<F>(R: Field<F>, c: Circuit<F>, j: nat, wires: seq<F>): (u: seq<F>)
    requires j < c.NumLayers()
    ensures |u| == c.LevelWires(j)
  {
    GateOutputs(R, c, c.layers[j].quads, |c.layers[j].quads|, wires, c.LevelWires(j))
  }

  /** The in-circuit assertions of a layer: gates with a Z quad output zero. */
  ghost predicate AssertionsHold<F>(R: Field<F>, c: Circuit<F>, quads: seq<Quad>, outputs: seq<F>) {
    forall i :: 0 <= i < |quads| && Value(R, c, quads[i]) == R.zero ==> At(R, outputs, quads[i].gate) == R.zero
  }

  /** The wires of a level. */
  ghost function Level<F>(R: Field<F>, c: Circuit<F>, inputs: seq<F>, level: nat): (w: seq<F>)
    requires level <= c.NumLayers() && |inputs| == c.LevelWires(c.NumLayers())
    ensures |w| == c.LevelWires(level)
    decreases c.NumLayers() - level
  {
    if level == c.NumLayers() then inputs else LayerOutputs(R, c, level, Level(R, c, inputs, level + 1))
  }

  ghost predicate LayerAccepts<F>(R: Field<F>, c: Circuit<F>, inputs: seq<F>, j: nat)
    requires j < c.NumLayers() && |inputs| == c.LevelWires(c.NumLayers())
  {
    AssertionsHold(R, c, c.layers[j].quads, Level(R, c, inputs, j))
  }

  /** The circuit accepts the inputs: the first is one, and the assertions of every layer hold. */
  ghost predicate Accepted<F>(R: Field<F>, c: Circuit<F>, inputs: seq<F>)
    requires |inputs| == c.LevelWires(c.NumLayers())
  {
    |inputs| > 0 && inputs[0] == R.one && AcceptedFrom(R, c, inputs, 0)
  }

  ghost predicate AcceptedFrom<F>(R: Field<F>, c: Circuit<F>, inputs: seq<F>, first: nat)
    requires |inputs| == c.LevelWires(c.NumLayers())
  {
    forall j :: first <= j < c.NumLayers() ==> LayerAccepts(R, c, inputs, j)
  }

  // ----- The wires of a level as sums over quads -----

  /** What the first n quads add up to at gate g; a quad whose constant is zero counts the product of its wires once. */
  ghost function WireSum<F>(R: Field<F>, constants: seq<F>, quads: seq<Quad>, n: nat, wires: seq<F>, g: nat): F
    requires n <= |quads|
  {
    if n == 0 then R.zero
    else
      var quad, rest := quads[n - 1], WireSum(R, constants, quads, n - 1, wires, g);
      var constant, left, right := At(R, constants, quad.constant), At(R, wires, quad.left), At(R, wires, quad.right);
      if quad.gate != g then rest else if constant == R.zero then R.add(rest, R.mul(left, right))
        else R.add(rest, R.mul(R.mul(constant, left), right))
  }

  /** Every wire of the level is the sum over the quads of its gate. */
  ghost predicate LevelIsSums<F>(R: Field<F>, c: Circuit<F>, j: nat, outputs: seq<F>, wires: seq<F>)
    requires j < c.NumLayers()
  {
    var quads := c.layers[j].quads;
    |outputs| == c.LevelWires(j) && forall g ::
      0 <= g < |outputs| ==> outputs[g] == WireSum(R, c.constantTable, quads, |quads|, wires, g)
  }

  /** The last level holds the inputs, and every other level the sums over the one after it. */
  ghost predicate LevelsAreSums<F>(R: Field<F>, c: Circuit<F>, inputs: seq<F>, levels: seq<seq<F>>) {
    && |levels| == c.NumLayers() + 1 && levels[c.NumLayers()] == inputs
    && forall j :: 0 <= j < c.NumLayers() ==> LevelIsSums(R, c, j, levels[j], levels[j + 1])
  }

  /** The gates of quads whose constant is zero output zero. */
  ghost predicate AssertedAreZero<F>(R: Field<F>, c: Circuit<F>, j: nat, outputs: seq<F>)
    requires j < c.NumLayers()
  {
    var quads := c.layers[j].quads;
    forall i ::
      0 <= i < |quads| && At(R, c.constantTable, quads[i].constant) == R.zero ==>
      At(R, outputs, quads[i].gate) == R.zero
  }

  lemma {:induction false} GateOutputIsSum<F>(R: Field<F>, c: Circuit<F>, quads: seq<Quad>, n: nat, wires: seq<F>,
                                              len: nat, g: nat)
    requires n <= |quads| && g < len
    ensures GateOutputs(R, c, quads, n, wires, len)[g] == WireSum(R, c.constantTable, quads, n, wires, g)
  {
    if n > 0 {
      GateOutputIsSum(R, c, quads, n - 1, wires, len, g);
    }
  }

  lemma LayerIsSums<F>(R: Field<F>, c: Circuit<F>, j: nat, wires: seq<F>)
    requires j < c.NumLayers()
    ensures LevelIsSums(R, c, j, LayerOutputs(R, c, j, wires), wires)
  {
    var quads := c.layers[j].quads;
    forall g | 0 <= g < c.LevelWires(j) ensures LayerOutputs(R, c, j, wires)[g]
      == WireSum(R, c.constantTable, quads, |quads|, wires, g) {
      GateOutputIsSum(R, c, quads, |quads|, wires, c.LevelWires(j), g);
    }
  }

  lemma SumsDetermine<F>(R: Field<F>, c: Circuit<F>, j: nat, outputs: seq<F>, others: seq<F>, wires: seq<F>)
    requires j < c.NumLayers() && LevelIsSums(R, c, j, outputs, wires) && LevelIsSums(R, c, j, others, wires)
    ensures outputs == others
  {
  }

  /** The levels of an evaluation are the only ones that are sums over quads all the way from the inputs. */
  lemma LevelsExactly<F>(R: Field<F>, c: Circuit<F>, inputs: seq<F>, levels: seq<seq<F>>)
    requires |inputs| == c.LevelWires(c.NumLayers())
    ensures LevelsFrom(R, c, inputs, 0, levels) <==> LevelsAreSums(R, c, inputs, levels)
  {
    if LevelsAreSums(R, c, inputs, levels) {
      SumsAreLevels(R, c, inputs, levels);
    }
    if LevelsFrom(R, c, inputs, 0, levels) {
      forall j | 0 <= j < c.NumLayers() ensures LevelIsSums(R, c, j, levels[j], levels[j + 1]) {
        LayerIsSums(R, c, j, Level(R, c, inputs, j + 1));
      }
    }
  }

  lemma SumsAreLevels<F>(R: Field<F>, c: Circuit<F>, inputs: seq<F>, levels: seq<seq<F>>)
    requires |inputs| == c.LevelWires(c.NumLayers()) && LevelsAreSums(R, c, inputs, levels)
    ensures LevelsFrom(R, c, inputs, 0, levels)
  {
    forall j | 0 <= j <= c.NumLayers() ensures levels[j] == Level(R, c, inputs, j) {
      SumsAreLevelAt(R, c, inputs, levels, j);
    }
  }

  lemma {:induction false} SumsAreLevelAt<F>(R: Field<F>, c: Circuit<F>, inputs: seq<F>, levels: seq<seq<F>>, j: nat)
    requires |inputs| == c.LevelWires(c.NumLayers()) && LevelsAreSums(R, c, inputs, levels) && j <= c.NumLayers()
    ensures levels[j] == Level(R, c, inputs, j)
    decreases c.NumLayers() - j
  {
    if j < c.NumLayers() {
      SumsAreLevelAt(R, c, inputs, levels, j + 1);
      assert LevelIsSums(R, c, j, levels[j], levels[j + 1]);
      SumsAreLevel(R, c, inputs, j, levels[j], levels[j + 1]);
    }
  }

  lemma SumsAreLevel<F>(R: Field<F>, c: Circuit<F>, inputs: seq<F>, j: nat, outputs: seq<F>, wires: seq<F>)
    requires |inputs| == c.LevelWires(c.NumLayers()) && j < c.NumLayers()
    requires LevelIsSums(R, c, j, outputs, wires) && wires == Level(R, c, inputs, j + 1)
    ensures outputs == Level(R, c, inputs, j)
  {
    LayerIsSums(R, c, j, wires);
    SumsDetermine(R, c, j, outputs, LayerOutputs(R, c, j, wires), wires);
  }

  /**
   The circuit accepts the inputs exactly when the first is one and, on every level, the asserted gates output zero.
   */
  lemma AcceptedExactly<F>(R: Field<F>, c: Circuit<F>, inputs: seq<F>, levels: seq<seq<F>>)
    requires |inputs| == c.LevelWires(c.NumLayers()) && LevelsAreSums(R, c, inputs, levels)
    ensures Accepted(R, c, inputs)
      <==> |inputs| > 0 && inputs[0] == R.one && forall j ::
        0 <= j < c.NumLayers() ==> AssertedAreZero(R, c, j, levels[j])
  {
    SumsAreLevels(R, c, inputs, levels);
    forall j | 0 <= j < c.NumLayers() ensures LayerAccepts(R, c, inputs, j) <==> AssertedAreZero(R, c, j, levels[j]) {
      assert levels[j] == Level(R, c, inputs, j);
    }
  }

  ghost predicate IsZGate<F>(R: Field<F>, c: Circuit<F>, quads: seq<Quad>, n: nat, g: nat)
    requires n <= |quads|
  {
    exists i :: 0 <= i < n && quads[i].gate == g && Value(R, c, quads[i]) == R.zero
  }

  ghost predicate AreZGates<F>(R: Field<F>, c: Circuit<F>, quads: seq<Quad>, n: nat, gates: set<nat>)
    requires n <= |quads|
  {
    forall g: nat :: g in gates <==> IsZGate(R, c, quads, n, g)
  }

  lemma ZGateNext<F>(R: Field<F>, c: Circuit<F>, quads: seq<Quad>, n: nat, gates: set<nat>)
    requires n < |quads| && AreZGates(R, c, quads, n, gates)
    ensures AreZGates(R, c, quads, n + 1, if Value(R, c, quads[n]) == R.zero then gates + {quads[n].gate} else gates)
  {
    forall g: nat
      ensures IsZGate(R, c, quads, n + 1, g)
        <==> IsZGate(R, c, quads, n, g) || (quads[n].gate == g && Value(R, c, quads[n]) == R.zero)
    {
      if IsZGate(R, c, quads, n, g) {
        var i :| 0 <= i < n && quads[i].gate == g && Value(R, c, quads[i]) == R.zero;
        assert 0 <= i < n + 1;
      }
    }
  }

  method EvaluateLayer<F(!new, ==)>(R: Field<F>, c: Circuit<F>, j: nat, wires: seq<F>)
      returns (outputs: seq<F>, ok: bool)
    requires j < c.NumLayers() && QuadsInRange(c, j) && |wires| == c.LevelWires(j + 1)
    ensures outputs == LayerOutputs(R, c, j, wires)
    ensures ok <==> AssertionsHold(R, c, c.layers[j].quads, outputs)
  {
    var quads := c.layers[j].quads;
    outputs := Zeros(R, c.LevelWires(j));
    var zGates: set<nat> := {};
    for n := 0 to |quads|
      invariant outputs == GateOutputs(R, c, quads, n, wires, c.LevelWires(j))
      invariant AreZGates(R, c, quads, n, zGates)
    {
      var quad := quads[n];
      assert QuadInRange(c, j, quad);
      ZGateNext(R, c, quads, n, zGates);
      if Value(R, c, quad) == R.zero {
        zGates := zGates + {quad.gate};
      }
      outputs := outputs[quad.gate := R.add(outputs[quad.gate], QuadOutput(R, c, quad, wires))];
    }
    forall i | 0 <= i < |quads| ensures quads[i].gate < |outputs| {
      assert QuadInRange(c, j, quads[i]);
    }
    ok := CheckZGates(R, c, quads, outputs, zGates);
  }

  method CheckZGates<F(!new, ==)>(R: Field<F>, ghost c: Circuit<F>, ghost quads: seq<Quad>, outputs: seq<F>,
                                  zGates: set<nat>) returns (ok: bool)
    requires AreZGates(R, c, quads, |quads|, zGates) && GatesBelow(quads, |outputs|)
    ensures ok <==> AssertionsHold(R, c, quads, outputs)
  {
    var rest := zGates;
    while rest != {}
      invariant rest <= zGates && forall g :: g in zGates - rest ==> At(R, outputs, g) == R.zero
      decreases |rest|
    {
      var g :| g in rest;
      assert IsZGate(R, c, quads, |quads|, g);
      if outputs[g] != R.zero {
        return false;
      }
      rest := rest - {g};
    }
    forall i | 0 <= i < |quads| && Value(R, c, quads[i]) == R.zero ensures At(R, outputs, quads[i].gate) == R.zero {
      assert IsZGate(R, c, quads, |quads|, quads[i].gate);
    }
    ok := true;
  }

  ghost predicate LevelsFrom<F>(R: Field<F>, c: Circuit<F>, inputs: seq<F>, j: nat, levels: seq<seq<F>>)
    requires j <= c.NumLayers() && |inputs| == c.LevelWires(c.NumLayers())
  {
    |levels| == c.NumLayers() + 1 - j && forall i :: 0 <= i < |levels| ==> levels[i] == Level(R, c, inputs, j + i)
  }

  lemma LevelAdded<F>(R: Field<F>, c: Circuit<F>, inputs: seq<F>, j: nat, levels: seq<seq<F>>, outputs: seq<F>)
    requires j < c.NumLayers() && |inputs| == c.LevelWires(c.NumLayers()) && LevelsFrom(R, c, inputs, j + 1, levels)
    requires outputs == Level(R, c, inputs, j)
    ensures LevelsFrom(R, c, inputs, j, [outputs] + levels)
  {
    var all := [outputs] + levels;
    forall i | 0 <= i < |all| ensures all[i] == Level(R, c, inputs, j + i) {
      if i > 0 {
        var k := i - 1;
        assert all[i] == levels[k] && j + 1 + k == j + i;
      }
    }
  }

  /** `evaluate`: fails exactly when the circuit does not accept the inputs. */
  method Evaluate<F(!new, ==)>(R: Field<F>, c: Circuit<F>, inputs: seq<F>) returns (wires: Option<seq<seq<F>>>)
    requires WellFormed(R, c) && |inputs| == c.numInputs
    ensures wires.Some? <==> Accepted(R, c, inputs)
    ensures wires.Some? ==> LevelsFrom(R, c, inputs, 0, wires.value) && LevelsAreSums(R, c, inputs, wires.value)
  {
    if inputs[0] != R.one {
      return None;
    }
    var levels, j := [inputs], c.NumLayers();
    while j > 0
      invariant 0 <= j <= c.NumLayers() && LevelsFrom(R, c, inputs, j, levels)
      invariant AcceptedFrom(R, c, inputs, j)
    {
      var ok;
      j := j - 1;
      levels, ok := AddLevel(R, c, j, levels, inputs);
      if !ok {
        NotAccepted(R, c, inputs, j);
        return None;
      }
      AcceptedOneMore(R, c, inputs, j);
    }
    LevelsExactly(R, c, inputs, levels);
    wires := Some(levels);
  }

  lemma NotAccepted<F>(R: Field<F>, c: Circuit<F>, inputs: seq<F>, j: nat)
    requires |inputs| == c.LevelWires(c.NumLayers()) && j < c.NumLayers() && !LayerAccepts(R, c, inputs, j)
    ensures !Accepted(R, c, inputs)
  {
  }

  lemma AcceptedOneMore<F>(R: Field<F>, c: Circuit<F>, inputs: seq<F>, j: nat)
    requires |inputs| == c.LevelWires(c.NumLayers()) && j < c.NumLayers() && LayerAccepts(R, c, inputs, j)
      && AcceptedFrom(R, c, inputs, j + 1)
    ensures AcceptedFrom(R, c, inputs, j)
  {
  }

  /** Evaluate layer j and put its outputs in front. */
  method AddLevel<F(!new, ==)>(R: Field<F>, c: Circuit<F>, j: nat, levels: seq<seq<F>>, ghost inputs: seq<F>)
      returns (more: seq<seq<F>>, ok: bool)
    requires WellFormed(R, c) && j < c.NumLayers() && |inputs| == c.numInputs && LevelsFrom(R, c, inputs, j + 1, levels)
    ensures LevelsFrom(R, c, inputs, j, more) && (ok <==> LayerAccepts(R, c, inputs, j))
  {
    LayerInRange(R, c, j);
    assert levels[0] == Level(R, c, inputs, j + 1);
    var outputs;
    outputs, ok := EvaluateLayer(R, c, j, levels[0]);
    LevelAdded(R, c, inputs, j, levels, outputs);
    more := [outputs] + levels;
  }

  // ----- The combined quad -----

  function CombinedEntry<F(==)>(R: Field<F>, c: Circuit<F>, quad: Quad, beta: F): QuadElement<F> {
    QuadElement(quad.gate, quad.left, quad.right, if Value(R, c, quad) == R.zero then beta else Value(R, c, quad))
  }

  /** `combined_quad`: Q + beta * Z */
  function CombinedQuad<F(==)>(R: Field<F>, c: Circuit<F>, quads: seq<Quad>, beta: F): (q: seq<QuadElement<F>>)
    ensures |q| == |quads| && forall i :: 0 <= i < |quads| ==> q[i] == CombinedEntry(R, c, quads[i], beta)
  {
    seq(|quads|, (i: nat) requires i < |quads| => CombinedEntry(R, c, quads[i], beta))
  }

  /** The Q quads among the first n, weighted by the table entries of their gates. */
  ghost function QPart<F>(R: Field<F>, c: Circuit<F>, quads: seq<Quad>, n: nat, wires: seq<F>, table: seq<F>): F
    requires n <= |quads|
  {
    if n == 0 then R.zero
    else
      var quad, rest := quads[n - 1], QPart(R, c, quads, n - 1, wires, table);
      if Value(R, c, quad) == R.zero then rest
        else R.add(rest, R.mul(QuadOutput(R, c, quad, wires), At(R, table, quad.gate)))
  }

  ghost function ZPart<F>(R: Field<F>, c: Circuit<F>, quads: seq<Quad>, n: nat, wires: seq<F>, table: seq<F>): F
    requires n <= |quads|
  {
    if n == 0 then R.zero
    else
      var quad, rest := quads[n - 1], ZPart(R, c, quads, n - 1, wires, table);
      if Value(R, c, quad) == R.zero then R.add(rest, R.mul(QuadOutput(R, c, quad, wires), At(R, table, quad.gate)))
        else rest
  }

  ghost predicate GatesBelow(quads: seq<Quad>, len: nat) {
    forall i :: 0 <= i < |quads| ==> quads[i].gate < len
  }

  lemma OutputsSplitNext<F(!new)>(R: Field<F>, c: Circuit<F>, quads: seq<Quad>, n: nat, wires: seq<F>, table: seq<F>,
                                  len: nat)
    requires IsRing(R) && GatesBelow(quads, len) && n < |quads|
    requires Dot(R, GateOutputs(R, c, quads, n, wires, len), table, len)
      == R.add(QPart(R, c, quads, n, wires, table), ZPart(R, c, quads, n, wires, table))
    ensures Dot(R, GateOutputs(R, c, quads, n + 1, wires, len), table, len)
      == R.add(QPart(R, c, quads, n + 1, wires, table), ZPart(R, c, quads, n + 1, wires, table))
  {
    var quad := quads[n];
    var t := R.mul(QuadOutput(R, c, quad, wires), At(R, table, quad.gate));
    DotAddAt(R, GateOutputs(R, c, quads, n, wires, len), table, quad.gate, QuadOutput(R, c, quad, wires), len);
    var p, z := QPart(R, c, quads, n, wires, table), ZPart(R, c, quads, n, wires, table);
    AddPast(R, p, z, t);
    assert Laws3(R, p, z, t);
  }

  lemma OutputsSplit<F(!new)>(R: Field<F>, c: Circuit<F>, quads: seq<Quad>, wires: seq<F>, table: seq<F>, len: nat)
    requires IsRing(R) && GatesBelow(quads, len)
    ensures Dot(R, GateOutputs(R, c, quads, |quads|, wires, len), table, len)
      == R.add(QPart(R, c, quads, |quads|, wires, table), ZPart(R, c, quads, |quads|, wires, table))
  {
    DotZeros(R, len, table, len);
    assert Laws1(R, R.zero);
    for n := 0 to |quads|
      invariant Dot(R, GateOutputs(R, c, quads, n, wires, len), table, len)
        == R.add(QPart(R, c, quads, n, wires, table), ZPart(R, c, quads, n, wires, table))
    {
      OutputsSplitNext(R, c, quads, n, wires, table, len);
    }
  }

  lemma CombinedSplitNext<F(!new)>(R: Field<F>, c: Circuit<F>, quads: seq<Quad>, n: nat, wires: seq<F>, table: seq<F>,
                                   beta: F, e: seq<QuadElement<F>>)
    requires IsRing(R) && n < |quads| && e == GateEntries(R, CombinedQuad(R, c, quads, beta), table)
    requires Total(R, e, n, Left, wires, wires)
      == R.add(QPart(R, c, quads, n, wires, table), R.mul(beta, ZPart(R, c, quads, n, wires, table)))
    ensures Total(R, e, n + 1, Left, wires, wires)
      == R.add(QPart(R, c, quads, n + 1, wires, table), R.mul(beta, ZPart(R, c, quads, n + 1, wires, table)))
  {
    var quad := quads[n];
    var k, l, r, t := Value(R, c, quad), At(R, wires, quad.left), At(R, wires, quad.right), At(R, table, quad.gate);
    var p, z := QPart(R, c, quads, n, wires, table), ZPart(R, c, quads, n, wires, table);
    assert Term(R, e[n], Left, wires, wires)
      == R.mul(R.mul(R.mul(CombinedEntry(R, c, quad, beta).coefficient, t), r), l);
    if k == R.zero {
      CombinedZ(R, p, beta, z, t, r, l);
    } else {
      CombinedQ(R, p, R.mul(beta, z), k, t, r, l);
    }
  }

  lemma CombinedZ<F(!new)>(R: Field<F>, p: F, beta: F, z: F, t: F, r: F, l: F)
    requires IsRing(R)
    ensures R.add(R.add(p, R.mul(beta, z)), R.mul(R.mul(R.mul(beta, t), r), l))
      == R.add(p, R.mul(beta, R.add(z, R.mul(R.mul(l, r), t))))
  {
    Ring(R, A(A(V(0), M(V(1), V(2))), M(M(M(V(1), V(3)), V(4)), V(5))),
      A(V(0), M(V(1), A(V(2), M(M(V(5), V(4)), V(3))))), [p, beta, z, t, r, l]);
  }

  lemma CombinedQ<F(!new)>(R: Field<F>, p: F, z: F, k: F, t: F, r: F, l: F)
    requires IsRing(R)
    ensures R.add(R.add(p, z), R.mul(R.mul(R.mul(k, t), r), l)) == R.add(R.add(p, R.mul(R.mul(R.mul(k, l), r), t)), z)
  {
    Ring(R, A(A(V(0), V(1)), M(M(M(V(2), V(3)), V(4)), V(5))), A(A(V(0), M(M(M(V(2), V(5)), V(4)), V(3))), V(1)),
      [p, z, k, t, r, l]);
  }

  lemma CombinedSplit<F(!new)>(R: Field<F>, c: Circuit<F>, quads: seq<Quad>, wires: seq<F>, table: seq<F>, beta: F)
    requires IsRing(R)
    ensures var e := GateEntries(R, CombinedQuad(R, c, quads, beta), table);
      Total(R, e, |quads|, Left, wires, wires)
        == R.add(QPart(R, c, quads, |quads|, wires, table), R.mul(beta, ZPart(R, c, quads, |quads|, wires, table)))
  {
    var e := GateEntries(R, CombinedQuad(R, c, quads, beta), table);
    MulZero(R, beta);
    assert Laws1(R, R.zero);
    for n := 0 to |quads|
      invariant Total(R, e, n, Left, wires, wires)
        == R.add(QPart(R, c, quads, n, wires, table), R.mul(beta, ZPart(R, c, quads, n, wires, table)))
    {
      CombinedSplitNext(R, c, quads, n, wires, table, beta, e);
    }
  }

  // ----- The Z part vanishes -----

  /** The outputs of the Z quads alone. */
  ghost function ZOutputs<F>(R: Field<F>, c: Circuit<F>, quads: seq<Quad>, n: nat, wires: seq<F>, len: nat): (u: seq<F>)
    requires n <= |quads|
    ensures |u| == len
  {
    if n == 0 then Zeros(R, len)
    else
      var quad, rest := quads[n - 1], ZOutputs(R, c, quads, n - 1, wires, len);
      if Value(R, c, quad) == R.zero then AddAt(R, rest, quad.gate, QuadOutput(R, c, quad, wires)) else rest
  }

  lemma ZPartIsDot<F(!new)>(R: Field<F>, c: Circuit<F>, quads: seq<Quad>, wires: seq<F>, table: seq<F>, len: nat)
    requires IsRing(R) && GatesBelow(quads, len)
    ensures ZPart(R, c, quads, |quads|, wires, table) == Dot(R, ZOutputs(R, c, quads, |quads|, wires, len), table, len)
  {
    DotZeros(R, len, table, len);
    for n := 0 to |quads|
      invariant ZPart(R, c, quads, n, wires, table) == Dot(R, ZOutputs(R, c, quads, n, wires, len), table, len)
    {
      DotAddAt(R, ZOutputs(R, c, quads, n, wires, len), table, quads[n].gate, QuadOutput(R, c, quads[n], wires), len);
    }
  }

  /** At a gate without Q quads the Z quads give the whole output; at a gate without Z quads they give zero. */
  lemma {:induction false} ZOutputAt<F>(R: Field<F>, c: Circuit<F>, quads: seq<Quad>, n: nat, wires: seq<F>, len: nat,
                                        g: nat)
    requires n <= |quads| && g < len
    ensures (forall i :: 0 <= i < n && quads[i].gate == g ==> Value(R, c, quads[i]) == R.zero) ==>
      ZOutputs(R, c, quads, n, wires, len)[g] == GateOutputs(R, c, quads, n, wires, len)[g]
    ensures (forall i :: 0 <= i < n && quads[i].gate == g ==> Value(R, c, quads[i]) != R.zero) ==>
      ZOutputs(R, c, quads, n, wires, len)[g] == R.zero
  {
    if n > 0 {
      ZOutputAt(R, c, quads, n - 1, wires, len, g);
    }
  }

  lemma ZOutputsVanish<F>(R: Field<F>, c: Circuit<F>, quads: seq<Quad>, wires: seq<F>, len: nat)
    requires Disjoint(R, c, quads) && AssertionsHold(R, c, quads, GateOutputs(R, c, quads, |quads|, wires, len))
    ensures ZOutputs(R, c, quads, |quads|, wires, len) == Zeros(R, len)
  {
    forall g | 0 <= g < len ensures ZOutputs(R, c, quads, |quads|, wires, len)[g] == R.zero {
      ZOutputAt(R, c, quads, |quads|, wires, len, g);
      if i :| 0 <= i < |quads| && quads[i].gate == g && Value(R, c, quads[i]) == R.zero {
        assert At(R, GateOutputs(R, c, quads, |quads|, wires, len), quads[i].gate) == R.zero;
      }
    }
  }

  /**
   The claim at the start of a layer: for any table, the sum over the bound combined quad and the wires is the inner
   product of the table with the outputs, whatever beta is, because the Q and Z gates are disjoint and the Z gates
   output zero.
   */
  lemma CombinedQuadClaim<F(!new)>(R: Field<F>, c: Circuit<F>, j: nat, wires: seq<F>, table: seq<F>, beta: F)
    requires IsRing(R) && j < c.NumLayers() && WellFormedLayer(R, c, j)
    requires AssertionsHold(R, c, c.layers[j].quads, LayerOutputs(R, c, j, wires)) && c.LevelWires(j) <= |table|
    ensures var q := GateBound(R, CombinedQuad(R, c, c.layers[j].quads, beta), table);
      Total(R, q, |q|, Left, wires, wires) == Dot(R, table, LayerOutputs(R, c, j, wires), |table|)
  {
    var quads, len := c.layers[j].quads, c.LevelWires(j);
    forall i | 0 <= i < |quads| ensures quads[i].gate < len {
      assert QuadInRange(c, j, quads[i]);
    }
    ZPartVanishes(R, c, quads, wires, table, len);
    var u := LayerOutputs(R, c, j, wires);
    OutputsSplit(R, c, quads, wires, table, len);
    CombinedSplit(R, c, quads, wires, table, beta);
    MulZero(R, beta);
    assert Laws1(R, QPart(R, c, quads, |quads|, wires, table));
    DotComm(R, u, table, len);
    DotPastEnd(R, table, u, len, |table|);
    CompactTotal(R, GateEntries(R, CombinedQuad(R, c, quads, beta), table), Left, wires, wires);
  }

  lemma ZPartVanishes<F(!new)>(R: Field<F>, c: Circuit<F>, quads: seq<Quad>, wires: seq<F>, table: seq<F>, len: nat)
    requires IsRing(R) && GatesBelow(quads, len) && Disjoint(R, c, quads)
    requires AssertionsHold(R, c, quads, GateOutputs(R, c, quads, |quads|, wires, len))
    ensures ZPart(R, c, quads, |quads|, wires, table) == R.zero
  {
    ZPartIsDot(R, c, quads, wires, table, len);
    ZOutputsVanish(R, c, quads, wires, len);
    DotZeros(R, len, table, len);
  }
}
