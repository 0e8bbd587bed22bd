/**
 The LFC2 format as a writer, which the repository does not have: a reference for what the reader of src/nymauth/lfc2.rs
 has to understand. The reader inverts it.
 */
module Lfc2Format {
  import opened Options
  import opened Bytes
  import opened Lfc2

  const ULEB_LIMIT: nat := 0x1000_0000

  // ----- Numbers -----

  /** Groups of seven bits, lowest first; every group but the last has the high bit set. */
  function PutUleb(v: nat): seq<Byte> {
    if v < 128 then [v] else [v % 128 + 128] + PutUleb(v / 128)
  }

  lemma {:induction false} UlebRoundTrip(v: nat, tail: seq<Byte>, n: nat)
    requires n > 0 && v < Scale(n)
    ensures UlebValue(PutUleb(v) + tail, n) == Some(v) && UlebLength(PutUleb(v) + tail, n) == |PutUleb(v)|
    decreases n
  {
    if v >= 128 {
      var all := PutUleb(v) + tail;
      assert n > 1 && v / 128 < Scale(n - 1);
      UlebRoundTrip(v / 128, tail, n - 1);
      assert all[0] == v % 128 + 128 && all[1..] == PutUleb(v / 128) + tail;
    } else {
      assert (PutUleb(v) + tail)[0] == v;
    }
  }

  lemma UlebStands(b: seq<Byte>, p: nat, q: nat, v: nat)
    requires v < ULEB_LIMIT && Stands(b, p, q, PutUleb(v))
    ensures UlebAt(b, p) == Some(Found(v, q))
  {
    assert Scale(1) == 128 && Scale(2) == 128 * 128 && Scale(3) == 128 * 128 * 128 && Scale(4) == ULEB_LIMIT;
    UlebRoundTrip(v, b[q..], 4);
    StandsSlice(b, p, q, PutUleb(v));
  }

  lemma SizeStands(b: seq<Byte>, p: nat, q: nat, v: nat, max: nat)
    requires v <= max && v < ULEB_LIMIT && Stands(b, p, q, PutUleb(v))
    ensures SizeAt(b, p, max) == Some(Found(v, q))
  {
    UlebStands(b, p, q, v);
  }

  lemma IndexStands(b: seq<Byte>, p: nat, q: nat, v: nat, n: nat)
    requires v < n && v < ULEB_LIMIT && Stands(b, p, q, PutUleb(v))
    ensures IndexAt(b, p, n) == Some(Found(v, q))
  {
    UlebStands(b, p, q, v);
  }

  /** Differences modulo 2^32: small ones are even codes, small negative ones odd codes. */
  function Zigzag(d: nat): nat {
    if d < WORD / 2 then 2 * d else if d < WORD then 2 * (WORD - d) - 1 else 0
  }

  lemma ZigzagRoundTrip(d: nat)
    requires d < WORD
    ensures Zigzag(d) < WORD && Unzigzag(Zigzag(d)) == d
  {
  }

  // ----- Lists -----

  ghost function PutAll<T>(put: T -> seq<Byte>, xs: seq<T>): seq<Byte> {
    if |xs| == 0 then [] else PutAll(put, xs[..|xs| - 1]) + put(xs[|xs| - 1])
  }

  /** Wherever x is written, the item reader finds it. */
  ghost predicate ReadsBack<T>(b: seq<Byte>, item: nat -> Option<Found<T>>, put: T -> seq<Byte>, x: T) {
    forall p: nat, q: nat :: Stands(b, p, q, put(x)) ==> item(p) == Some(Found(x, q))
  }

  ghost predicate AllReadBack<T>(b: seq<Byte>, item: nat -> Option<Found<T>>, put: T -> seq<Byte>, xs: seq<T>) {
    forall i :: 0 <= i < |xs| ==> ReadsBack(b, item, put, xs[i])
  }

  lemma {:induction false} ListStands<T>(b: seq<Byte>, p: nat, q: nat, item: nat -> Option<Found<T>>,
                                         put: T -> seq<Byte>, xs: seq<T>)
    requires Stands(b, p, q, PutAll(put, xs)) && AllReadBack(b, item, put, xs)
    ensures ListAt(item, p, |xs|) == Some(Found(xs, q))
    decreases |xs|
  {
    if |xs| > 0 {
      var last := |xs| - 1;
      var m := StandsApart(b, p, q, PutAll(put, xs[..last]), put(xs[last]));
      ListStands(b, p, m, item, put, xs[..last]);
      assert ReadsBack(b, item, put, xs[last]);
      ListIs(item, p, m, q, xs[..last], xs[last]);
      assert xs == xs[..last] + [xs[last]];
    }
  }

  lemma ListIs<T>(item: nat -> Option<Found<T>>, p: nat, m: nat, q: nat, front: seq<T>, last: T)
    requires ListAt(item, p, |front|) == Some(Found(front, m)) && item(m) == Some(Found(last, q))
    ensures ListAt(item, p, |front| + 1) == Some(Found(front + [last], q))
  {
  }

  // ----- Layers -----

  ghost function PutIndex(): nat -> seq<Byte> {
    (v: nat) => PutUleb(v)
  }

  function PutDelta(d: Delta): seq<Byte> {
    PutUleb(Zigzag(d.g)) + (PutUleb(Zigzag(d.h0)) + (PutUleb(Zigzag(d.h1)) + PutUleb(d.k)))
  }

  ghost function PutOneDelta(): Delta -> seq<Byte> {
    (d: Delta) => PutDelta(d)
  }

  ghost function PutSegment(segment: seq<nat>): seq<Byte> {
    PutUleb(|segment|) + PutAll(PutIndex(), segment)
  }

  ghost function PutOneSegment(): seq<nat> -> seq<Byte> {
    (segment: seq<nat>) => PutSegment(segment)
  }

  ghost function PutLayer(layer: Lfc2Layer): seq<Byte> {
    PutUleb(layer.logw) + (PutUleb(layer.numWires) + (
      (PutUleb(|layer.deltas|) + PutAll(PutOneDelta(), layer.deltas)) + (
        (PutUleb(|layer.segments|) + PutAll(PutOneSegment(), layer.segments)) + PutSegment(layer.tokens))))
  }

  ghost function PutOneLayer(): Lfc2Layer -> seq<Byte> {
    (layer: Lfc2Layer) => PutLayer(layer)
  }

  /** What fits the format: differences whose codes have at most 28 bits, and lists below the limits of the reader. */
  ghost predicate DeltaFits(d: Delta) {
    && d.g < WORD && d.h0 < WORD && d.h1 < WORD
    && Zigzag(d.g) < ULEB_LIMIT && Zigzag(d.h0) < ULEB_LIMIT && Zigzag(d.h1) < ULEB_LIMIT
  }

  ghost predicate LayerFits(layer: Lfc2Layer) {
    && |layer.deltas| <= MAX_DELTAS && |layer.segments| <= MAX_DELTAS && |layer.tokens| <= MAX_TERMS
    && (forall i :: 0 <= i < |layer.deltas| ==> DeltaFits(layer.deltas[i]))
    && (forall i :: 0 <= i < |layer.segments| ==> |layer.segments[i]| <= MAX_TERMS)
  }

  // What the readers find, put together from what they find in their parts.

  lemma DeltaIs(b: seq<Byte>, p: nat, n: nat, d: Delta, p1: nat, p2: nat, p3: nat, p4: nat)
    requires UlebAt(b, p) == Some(Found(Zigzag(d.g), p1)) && UlebAt(b, p1) == Some(Found(Zigzag(d.h0), p2))
    requires UlebAt(b, p2) == Some(Found(Zigzag(d.h1), p3)) && IndexAt(b, p3, n) == Some(Found(d.k, p4))
    requires d.g < WORD && d.h0 < WORD && d.h1 < WORD
    ensures DeltaAt(b, p, n) == Some(Found(d, p4))
  {
    ZigzagRoundTrip(d.g);
    ZigzagRoundTrip(d.h0);
    ZigzagRoundTrip(d.h1);
  }

  lemma DictionaryIs(b: seq<Byte>, p: nat, n: nat, deltas: seq<Delta>, q: nat, r: nat)
    requires SizeAt(b, p, MAX_DELTAS) == Some(Found(|deltas|, q))
    requires ListAt(Deltas(b, n), q, |deltas|) == Some(Found(deltas, r))
    ensures DictionaryAt(b, p, n) == Some(Found(deltas, r))
  {
  }

  lemma SegmentIs(b: seq<Byte>, p: nat, n: nat, segment: seq<nat>, q: nat, r: nat)
    requires SizeAt(b, p, MAX_TERMS) == Some(Found(|segment|, q))
    requires ListAt(Indices(b, n), q, |segment|) == Some(Found(segment, r))
    ensures SegmentAt(b, p, n) == Some(Found(segment, r))
  {
  }

  lemma AllSegmentsAre(b: seq<Byte>, p: nat, n: nat, segments: seq<seq<nat>>, q: nat, r: nat)
    requires SizeAt(b, p, MAX_DELTAS) == Some(Found(|segments|, q))
    requires ListAt(Segments(b, n), q, |segments|) == Some(Found(segments, r))
    ensures AllSegmentsAt(b, p, n) == Some(Found(segments, r))
  {
  }

  lemma LayerIs(b: seq<Byte>, p: nat, n: nat, layer: Lfc2Layer, p1: nat, p2: nat, p3: nat, p4: nat, p5: nat)
    requires SizeAt(b, p, 63) == Some(Found(layer.logw, p1))
      && SizeAt(b, p1, MAX_WIRES) == Some(Found(layer.numWires, p2))
    requires DictionaryAt(b, p2, n) == Some(Found(layer.deltas, p3))
    requires AllSegmentsAt(b, p3, |layer.deltas|) == Some(Found(layer.segments, p4))
    requires SegmentAt(b, p4, |layer.segments|) == Some(Found(layer.tokens, p5))
    ensures LayerAt(b, p, n) == Some(Found(layer, p5))
  {
  }

  lemma SizesAre(b: seq<Byte>, p: nat, s: Sizes, p1: nat, p2: nat, p3: nat, p4: nat, p5: nat, p6: nat)
    requires SizesReadable(s) && SizeAt(b, p, MAX_WIRES) == Some(Found(s.numOutputs, p1))
      && UlebAt(b, p1) == Some(Found(1, p2))
    requires SizeAt(b, p2, MAX_WIRES) == Some(Found(s.numPublicInputs, p3))
    requires SizeAt(b, p3, MAX_WIRES) == Some(Found(s.subfieldBoundary, p4))
    requires SizeAt(b, p4, MAX_WIRES) == Some(Found(s.numInputs, p5))
    requires SizeAt(b, p5, MAX_LAYERS) == Some(Found(s.numLayers, p6))
    ensures SizesAt(b, p) == Some(Found(s, p6))
  {
  }

  lemma HeaderIs(b: seq<Byte>, h: Header, p1: nat, p2: nat, p3: nat)
    requires HeaderReadable(h) && |b| >= 4 && b[..4] == HEADER && SizeAt(b, 4, 255) == Some(Found(h.fieldId, p1))
    requires SizesAt(b, p1) == Some(Found(h.sizes, p2))
    requires ConstantsAt(b, p2, ElementSize(h.fieldId).value) == Some(Found(h.constants, p3))
    ensures HeaderAt(b) == Some(Found(h, p3))
  {
  }

  lemma CircuitIs(b: seq<Byte>, h: Header, layers: seq<Lfc2Layer>, id: seq<Byte>, p1: nat, p2: nat, p3: nat)
    requires HeaderAt(b) == Some(Found(h, p1)) && BytesAt(b, p2, ID_BYTES) == Some(Found(id, p3))
    requires ListAt(Layers(b, |h.constants|), p1, h.sizes.numLayers) == Some(Found(layers, p2))
    ensures CircuitAt(b) == Some(Found(CircuitOf(h, layers, id), p3))
  {
  }

  lemma DeltaStands(b: seq<Byte>, p: nat, q: nat, d: Delta, n: nat)
    requires DeltaFits(d) && d.k < n <= MAX_CONSTANTS && Stands(b, p, q, PutDelta(d))
    ensures DeltaAt(b, p, n) == Some(Found(d, q))
  {
    var x, y, z, k := PutUleb(Zigzag(d.g)), PutUleb(Zigzag(d.h0)), PutUleb(Zigzag(d.h1)), PutUleb(d.k);
    var p1 := StandsApart(b, p, q, x, y + (z + k));
    var p2 := StandsApart(b, p1, q, y, z + k);
    var p3 := StandsApart(b, p2, q, z, k);
    UlebStands(b, p, p1, Zigzag(d.g));
    UlebStands(b, p1, p2, Zigzag(d.h0));
    UlebStands(b, p2, p3, Zigzag(d.h1));
    IndexStands(b, p3, q, d.k, n);
    DeltaIs(b, p, n, d, p1, p2, p3, q);
  }

  lemma DeltasReadBack(b: seq<Byte>, deltas: seq<Delta>, n: nat)
    requires ConstantsBelow(deltas, n) && n <= MAX_CONSTANTS && forall i :: 0 <= i < |deltas| ==> DeltaFits(deltas[i])
    ensures AllReadBack(b, Deltas(b, n), PutOneDelta(), deltas)
  {
    forall i | 0 <= i < |deltas| ensures ReadsBack(b, Deltas(b, n), PutOneDelta(), deltas[i]) {
      forall p: nat, q: nat | Stands(b, p, q, PutOneDelta()(deltas[i])) ensures Deltas(b, n)(p)
        == Some(Found(deltas[i], q)) {
        DeltaStands(b, p, q, deltas[i], n);
      }
    }
  }

  lemma IndicesReadBack(b: seq<Byte>, xs: seq<nat>, n: nat)
    requires Below(xs, n) && n <= ULEB_LIMIT
    ensures AllReadBack(b, Indices(b, n), PutIndex(), xs)
  {
    forall i | 0 <= i < |xs| ensures ReadsBack(b, Indices(b, n), PutIndex(), xs[i]) {
      forall p: nat, q: nat | Stands(b, p, q, PutIndex()(xs[i])) ensures Indices(b, n)(p) == Some(Found(xs[i], q)) {
        IndexStands(b, p, q, xs[i], n);
      }
    }
  }

  lemma SegmentStands(b: seq<Byte>, p: nat, q: nat, segment: seq<nat>, n: nat)
    requires Below(segment, n) && n <= ULEB_LIMIT && |segment| <= MAX_TERMS && Stands(b, p, q, PutSegment(segment))
    ensures SegmentAt(b, p, n) == Some(Found(segment, q))
  {
    var m := StandsApart(b, p, q, PutUleb(|segment|), PutAll(PutIndex(), segment));
    SizeStands(b, p, m, |segment|, MAX_TERMS);
    IndicesReadBack(b, segment, n);
    ListStands(b, m, q, Indices(b, n), PutIndex(), segment);
    SegmentIs(b, p, n, segment, m, q);
  }

  lemma SegmentsReadBack(b: seq<Byte>, segments: seq<seq<nat>>, n: nat)
    requires AllBelow(segments, n) && n <= ULEB_LIMIT && forall i :: 0 <= i < |segments| ==> |segments[i]| <= MAX_TERMS
    ensures AllReadBack(b, Segments(b, n), PutOneSegment(), segments)
  {
    forall i | 0 <= i < |segments| ensures ReadsBack(b, Segments(b, n), PutOneSegment(), segments[i]) {
      forall p: nat, q: nat | Stands(b, p, q, PutOneSegment()(segments[i]))
        ensures Segments(b, n)(p) == Some(Found(segments[i], q))
      {
        SegmentStands(b, p, q, segments[i], n);
      }
    }
  }

  lemma DictionaryStands(b: seq<Byte>, p: nat, q: nat, deltas: seq<Delta>, n: nat)
    requires ConstantsBelow(deltas, n) && n <= MAX_CONSTANTS && |deltas| <= MAX_DELTAS
    requires forall i :: 0 <= i < |deltas| ==> DeltaFits(deltas[i])
    requires Stands(b, p, q, PutUleb(|deltas|) + PutAll(PutOneDelta(), deltas))
    ensures DictionaryAt(b, p, n) == Some(Found(deltas, q))
  {
    var m := StandsApart(b, p, q, PutUleb(|deltas|), PutAll(PutOneDelta(), deltas));
    SizeStands(b, p, m, |deltas|, MAX_DELTAS);
    DeltasReadBack(b, deltas, n);
    ListStands(b, m, q, Deltas(b, n), PutOneDelta(), deltas);
    DictionaryIs(b, p, n, deltas, m, q);
  }

  lemma AllSegmentsStand(b: seq<Byte>, p: nat, q: nat, segments: seq<seq<nat>>, n: nat)
    requires AllBelow(segments, n) && n <= ULEB_LIMIT && |segments| <= MAX_DELTAS
    requires forall i :: 0 <= i < |segments| ==> |segments[i]| <= MAX_TERMS
    requires Stands(b, p, q, PutUleb(|segments|) + PutAll(PutOneSegment(), segments))
    ensures AllSegmentsAt(b, p, n) == Some(Found(segments, q))
  {
    var m := StandsApart(b, p, q, PutUleb(|segments|), PutAll(PutOneSegment(), segments));
    SizeStands(b, p, m, |segments|, MAX_DELTAS);
    SegmentsReadBack(b, segments, n);
    ListStands(b, m, q, Segments(b, n), PutOneSegment(), segments);
    AllSegmentsAre(b, p, n, segments, m, q);
  }

  lemma LayerStands(b: seq<Byte>, p: nat, q: nat, layer: Lfc2Layer, n: nat)
    requires Readable(layer, n) && n <= MAX_CONSTANTS && LayerFits(layer) && Stands(b, p, q, PutLayer(layer))
    ensures LayerAt(b, p, n) == Some(Found(layer, q))
  {
    var logw, wires := PutUleb(layer.logw), PutUleb(layer.numWires);
    var deltas := PutUleb(|layer.deltas|) + PutAll(PutOneDelta(), layer.deltas);
    var segments := PutUleb(|layer.segments|) + PutAll(PutOneSegment(), layer.segments);
    var tokens := PutSegment(layer.tokens);
    var p1 := StandsApart(b, p, q, logw, wires + (deltas + (segments + tokens)));
    var p2 := StandsApart(b, p1, q, wires, deltas + (segments + tokens));
    var p3 := StandsApart(b, p2, q, deltas, segments + tokens);
    var p4 := StandsApart(b, p3, q, segments, tokens);
    SizeStands(b, p, p1, layer.logw, 63);
    SizeStands(b, p1, p2, layer.numWires, MAX_WIRES);
    DictionaryStands(b, p2, p3, layer.deltas, n);
    SegmentsBelow(layer);
    AllSegmentsStand(b, p3, p4, layer.segments, |layer.deltas|);
    SegmentStands(b, p4, q, layer.tokens, |layer.segments|);
    LayerIs(b, p, n, layer, p1, p2, p3, p4, q);
  }

  lemma SegmentsBelow(layer: Lfc2Layer)
    requires TokensReadable(layer)
    ensures AllBelow(layer.segments, |layer.deltas|) && Below(layer.tokens, |layer.segments|)
  {
    forall i | 0 <= i < |layer.segments| ensures Below(layer.segments[i], |layer.deltas|) {
      assert SegmentReadable(layer, layer.segments[i]);
    }
  }

  // ----- Circuits -----

  ghost function PutSizes(c: Lfc2Circuit): seq<Byte> {
    PutUleb(c.numOutputs) + (PutUleb(1) + (PutUleb(c.numPublicInputs) + (PutUleb(c.subfieldBoundary) + (
      PutUleb(c.numInputs) + PutUleb(|c.layers|)))))
  }

  ghost function PutConstants(c: Lfc2Circuit): seq<Byte> {
    PutUleb(|c.constants|) + Concat(c.constants)
  }

  /** "LFC2", the field, one copy, the sizes, the constants, the layers and the id. */
  ghost function PutCircuit(c: Lfc2Circuit): seq<Byte> {
    HEADER + (PutUleb(c.fieldId) + (PutSizes(c) + (PutConstants(c) + (PutAll(PutOneLayer(), c.layers) + c.id))))
  }

  function SizesOf(c: Lfc2Circuit): Sizes {
    Sizes(c.numOutputs, c.numPublicInputs, c.subfieldBoundary, c.numInputs, |c.layers|)
  }

  lemma SizesStand(b: seq<Byte>, p: nat, q: nat, c: Lfc2Circuit)
    requires CircuitReadable(c) && Stands(b, p, q, PutSizes(c))
    ensures SizesAt(b, p) == Some(Found(SizesOf(c), q))
  {
    var u, v, w, x := PutUleb(c.numOutputs), PutUleb(1), PutUleb(c.numPublicInputs), PutUleb(c.subfieldBoundary);
    var y, z := PutUleb(c.numInputs), PutUleb(|c.layers|);
    var p1 := StandsApart(b, p, q, u, v + (w + (x + (y + z))));
    var p2 := StandsApart(b, p1, q, v, w + (x + (y + z)));
    var p3 := StandsApart(b, p2, q, w, x + (y + z));
    var p4 := StandsApart(b, p3, q, x, y + z);
    var p5 := StandsApart(b, p4, q, y, z);
    SizeStands(b, p, p1, c.numOutputs, MAX_WIRES);
    UlebStands(b, p1, p2, 1);
    SizeStands(b, p2, p3, c.numPublicInputs, MAX_WIRES);
    SizeStands(b, p3, p4, c.subfieldBoundary, MAX_WIRES);
    SizeStands(b, p4, p5, c.numInputs, MAX_WIRES);
    SizeStands(b, p5, q, |c.layers|, MAX_LAYERS);
    SizesAre(b, p, SizesOf(c), p1, p2, p3, p4, p5, q);
  }

  lemma {:induction false} CutOfConcat(parts: seq<seq<Byte>>, size: nat)
    requires ElementsOfSize(parts, size)
    ensures Cut(Concat(parts), size, |parts|) == parts
  {
    if |parts| > 0 {
      CutOfConcat(parts[1..], size);
      assert Concat(parts)[..size] == parts[0] && Concat(parts)[size..] == Concat(parts[1..]);
      assert parts == [parts[0]] + parts[1..];
    }
  }

  lemma ConstantsStand(b: seq<Byte>, p: nat, q: nat, c: Lfc2Circuit)
    requires CircuitReadable(c) && Stands(b, p, q, PutConstants(c))
    ensures ConstantsAt(b, p, ElementSize(c.fieldId).value) == Some(Found(c.constants, q))
  {
    var size := ElementSize(c.fieldId).value;
    var m := StandsApart(b, p, q, PutUleb(|c.constants|), Concat(c.constants));
    SizeStands(b, p, m, |c.constants|, MAX_CONSTANTS);
    ConcatLength(c.constants, size);
    StandsSlice(b, m, q, Concat(c.constants));
    CutOfConcat(c.constants, size);
    ConstantsAre(b, p, size, c.constants, m, q);
  }

  lemma ConstantsAre(b: seq<Byte>, p: nat, size: nat, constants: seq<seq<Byte>>, m: nat, q: nat)
    requires SizeAt(b, p, MAX_CONSTANTS) == Some(Found(|constants|, m))
    requires BytesAt(b, m, |constants| * size) == Some(Found(Concat(constants), q))
    requires Cut(Concat(constants), size, |constants|) == constants
    ensures ConstantsAt(b, p, size) == Some(Found(constants, q))
  {
  }

  lemma LayersReadBack(b: seq<Byte>, c: Lfc2Circuit)
    requires CircuitReadable(c) && forall i :: 0 <= i < |c.layers| ==> LayerFits(c.layers[i])
    ensures AllReadBack(b, Layers(b, |c.constants|), PutOneLayer(), c.layers)
  {
    var n := |c.constants|;
    forall i | 0 <= i < |c.layers| ensures ReadsBack(b, Layers(b, n), PutOneLayer(), c.layers[i]) {
      LayerReadsBack(b, c.layers[i], n);
    }
  }

  lemma LayerReadsBack(b: seq<Byte>, layer: Lfc2Layer, n: nat)
    requires Readable(layer, n) && n <= MAX_CONSTANTS && LayerFits(layer)
    ensures ReadsBack(b, Layers(b, n), PutOneLayer(), layer)
  {
    forall p: nat, q: nat | Stands(b, p, q, PutOneLayer()(layer)) ensures Layers(b, n)(p) == Some(Found(layer, q)) {
      LayerStands(b, p, q, layer, n);
    }
  }

  function HeaderOf(c: Lfc2Circuit): Header {
    Header(c.fieldId, SizesOf(c), c.constants)
  }

  lemma HeaderStands(b: seq<Byte>, p1: nat, p2: nat, p3: nat, c: Lfc2Circuit)
    requires CircuitReadable(c) && Stands(b, 0, 4, HEADER) && Stands(b, 4, p1, PutUleb(c.fieldId))
    requires Stands(b, p1, p2, PutSizes(c)) && Stands(b, p2, p3, PutConstants(c))
    ensures HeaderAt(b) == Some(Found(HeaderOf(c), p3))
  {
    StandsSlice(b, 0, 4, HEADER);
    SizeStands(b, 4, p1, c.fieldId, 255);
    SizesStand(b, p1, p2, c);
    ConstantsStand(b, p2, p3, c);
    HeaderIs(b, HeaderOf(c), p1, p2, p3);
  }

  lemma CircuitStands(b: seq<Byte>, q: nat, c: Lfc2Circuit)
    requires CircuitReadable(c) && (forall i :: 0 <= i < |c.layers| ==> LayerFits(c.layers[i]))
    requires Stands(b, 0, q, PutCircuit(c))
    ensures CircuitAt(b) == Some(Found(c, q))
  {
    var field, layers := PutUleb(c.fieldId), PutAll(PutOneLayer(), c.layers);
    var rest := PutConstants(c) + (layers + c.id);
    var p0 := StandsApart(b, 0, q, HEADER, field + (PutSizes(c) + rest));
    var p1 := StandsApart(b, p0, q, field, PutSizes(c) + rest);
    var p2 := StandsApart(b, p1, q, PutSizes(c), rest);
    var p3 := StandsApart(b, p2, q, PutConstants(c), layers + c.id);
    var p4 := StandsApart(b, p3, q, layers, c.id);
    HeaderStands(b, p1, p2, p3, c);
    LayersAndIdStand(b, p3, p4, q, c);
  }

  lemma LayersAndIdStand(b: seq<Byte>, p3: nat, p4: nat, q: nat, c: Lfc2Circuit)
    requires CircuitReadable(c) && (forall i :: 0 <= i < |c.layers| ==> LayerFits(c.layers[i]))
    requires HeaderAt(b) == Some(Found(HeaderOf(c), p3))
    requires Stands(b, p3, p4, PutAll(PutOneLayer(), c.layers)) && Stands(b, p4, q, c.id)
    ensures CircuitAt(b) == Some(Found(c, q))
  {
    LayersReadBack(b, c);
    ListStands(b, p3, p4, Layers(b, |c.constants|), PutOneLayer(), c.layers);
    StandsSlice(b, p4, q, c.id);
    CircuitIs(b, HeaderOf(c), c.layers, c.id, p3, p4, q);
  }

  /** The reader finds every circuit that fits the format, at the start of any input. */
  lemma ReaderInvertsWriter(c: Lfc2Circuit, tail: seq<Byte>)
    requires CircuitReadable(c) && forall i :: 0 <= i < |c.layers| ==> LayerFits(c.layers[i])
    ensures CircuitAt(PutCircuit(c) + tail) == Some(Found(c, |PutCircuit(c)|))
  {
    StandsFirst(PutCircuit(c), tail);
    CircuitStands(PutCircuit(c) + tail, |PutCircuit(c)|, c);
  }
}
