/** The reader of the LFC2 circuit format (src/nymauth/lfc2.rs). */
module Lfc2 {
  import opened Options
  import opened Bytes

  const WORD: nat := 0x1_0000_0000
  const MAX_WIRES: nat := 5_000_000
  const MAX_TERMS: nat := 20_000_000
  const MAX_DELTAS: nat := 20_000_000
  const MAX_CONSTANTS: nat := 5_000_000
  const MAX_LAYERS: nat := 10_000
  const ID_BYTES: nat := 32

  /** The header "LFC2". */
  const HEADER: seq<Byte> := [0x4c, 0x46, 0x43, 0x32]

  // ----- Circuits -----

  /** An entry of the dictionary: differences modulo 2^32, and the index into the constants. */
  datatype Delta = Delta(g: nat, h0: nat, h1: nat, k: nat)

  /** `unzigzag`: v / 2 for even v, and -(v + 1) / 2 modulo 2^32 for odd v. */
  function Unzigzag(v: nat): (d: nat)
    requires v < WORD
    ensures d < WORD
    ensures v % 2 == 0 ==> d == v / 2
    ensures v % 2 == 1 ==> (d + (v + 1) / 2) % WORD == 0
  {
    if v % 2 == 0 then v / 2 else WORD - 1 - v / 2
  }

  datatype Lfc2Layer = Lfc2Layer(logw: nat, numWires: nat, deltas: seq<Delta>, segments: seq<seq<nat>>,
                                 tokens: seq<nat>)

  /** What the reader checks of a layer. */
  ghost predicate Readable(layer: Lfc2Layer, numConstants: nat) {
    && layer.logw <= 63 && layer.numWires <= MAX_WIRES
    && ConstantsBelow(layer.deltas, numConstants)
    && TokensReadable(layer)
  }

  ghost predicate ConstantsBelow(deltas: seq<Delta>, n: nat) {
    forall i :: 0 <= i < |deltas| ==> deltas[i].k < n
  }

  lemma ConstantsBelowNext(deltas: seq<Delta>, next: Delta, n: nat)
    requires ConstantsBelow(deltas, n) && next.k < n
    ensures ConstantsBelow(deltas + [next], n)
  {
  }

  ghost predicate SegmentReadable(layer: Lfc2Layer, segment: seq<nat>) {
    forall i :: 0 <= i < |segment| ==> segment[i] < |layer.deltas|
  }

  ghost predicate TokensReadable(layer: Lfc2Layer) {
    && (forall i :: 0 <= i < |layer.segments| ==> SegmentReadable(layer, layer.segments[i]))
    && (forall i :: 0 <= i < |layer.tokens| ==> layer.tokens[i] < |layer.segments|)
  }

  datatype Lfc2Circuit = Lfc2Circuit(
    fieldId: nat,
    numOutputs: nat,
    numPublicInputs: nat,
    subfieldBoundary: nat,
    numInputs: nat,
    constants: seq<seq<Byte>>,
    layers: seq<Lfc2Layer>,
    id: seq<Byte>)

  /** What the reader checks of a circuit. */
  ghost predicate CircuitReadable(c: Lfc2Circuit) {
    && ElementSize(c.fieldId).Some? && ElementsOfSize(c.constants, ElementSize(c.fieldId).value)
      && |c.constants| <= MAX_CONSTANTS
    && c.numOutputs <= MAX_WIRES && c.numPublicInputs <= c.numInputs <= MAX_WIRES && c.subfieldBoundary <= MAX_WIRES
    && |c.layers| <= MAX_LAYERS && |c.id| == ID_BYTES
    && forall i :: 0 <= i < |c.layers| ==> Readable(c.layers[i], |c.constants|)
  }

  /** The length of a field element, for the fields with a known identifier. */
  function ElementSize(fieldId: nat): Option<nat> {
    if fieldId == 1 then Some(32) else if fieldId == 4 then Some(16) else None
  }

  // ----- The format -----

  function Scale(i: nat): nat {
    if i == 0 then 1 else 128 * Scale(i - 1)
  }

  /** Little-endian groups of seven bits, at most n of them. */
  function UlebValue(bytes: seq<Byte>, n: nat): Option<nat>
    decreases n
  {
    if n == 0 || |bytes| == 0 then None
    else if bytes[0] < 128 then Some(bytes[0])
    else
      match UlebValue(bytes[1..], n - 1)
      case None => None
      case Some(v) => Some(bytes[0] % 128 + 128 * v)
  }

  ghost function Lift(value: nat, scale: nat, rest: Option<nat>): Option<nat> {
    match rest
    case None => None
    case Some(v) => Some(value + scale * v)
  }

  lemma LiftStep(value: nat, scale: nat, x: nat, rest: Option<nat>)
    ensures Lift(value, scale, match rest case None => None case Some(v) => Some(x % 128 + 128 * v))
      == Lift(AddGroup(value, scale, x % 128), 128 * scale, rest)
  {
    match rest
    case None =>
    case Some(v) =>
      Distribute(scale, x % 128, v);
  }

  /** The group at position p. */
  lemma GroupNext(b: seq<Byte>, p: nat, left: nat, value: nat, scale: nat)
    requires p < |b|
    ensures var x, v := b[p], AddGroup(value, scale, b[p] % 128);
      && Lift(value, scale, UlebValue(b[p..], left + 1))
        == (if x < 128 then Some(v) else Lift(v, 128 * scale, UlebValue(b[p + 1..], left)))
      && UlebLength(b[p..], left + 1) == (if x < 128 then 1 else 1 + UlebLength(b[p + 1..], left))
  {
    assert b[p..][1..] == b[p + 1..];
    LiftStep(value, scale, b[p], UlebValue(b[p + 1..], left));
  }

  lemma Distribute(scale: nat, x: nat, v: nat)
    ensures scale * (x + 128 * v) == scale * x + 128 * scale * v
  {
  }

  /** value + scale * x, for a group of seven bits. */
  function AddGroup(value: nat, scale: nat, x: nat): nat {
    value + scale * x
  }

  lemma {:induction false} UlebBound(bytes: seq<Byte>, n: nat)
    requires n <= 4
    ensures UlebValue(bytes, n).Some? ==> UlebValue(bytes, n).value < Scale(n)
    ensures Scale(n) <= 0x1000_0000
    decreases n
  {
    ScaleBound(n);
    if n > 0 && |bytes| > 0 {
      UlebBound(bytes[1..], n - 1);
    }
  }

  lemma ScaleBound(n: nat)
    requires n <= 4
    ensures 1 <= Scale(n) <= 0x1000_0000
  {
    assert Scale(1) == 128 && Scale(2) == 128 * 128 && Scale(3) == 128 * 128 * 128;
  }

  function UlebLength(bytes: seq<Byte>, n: nat): (length: nat)
    ensures length <= |bytes| && length <= n
    ensures UlebValue(bytes, n).Some? ==> length > 0
    decreases n
  {
    if n == 0 || |bytes| == 0 then 0 else if bytes[0] < 128 then 1 else 1 + UlebLength(bytes[1..], n - 1)
  }

  /** What stands at a position, and the position after it. */
  datatype Found<+T> = Found(value: T, next: nat)

  function UlebAt(b: seq<Byte>, p: nat): (r: Option<Found<nat>>)
    ensures r.Some? ==> p < r.value.next <= |b| && r.value.value < 0x1000_0000
  {
    if p > |b| then None
    else
      UlebBound(b[p..], 4);
      var v :- UlebValue(b[p..], 4);
      Some(Found(v, p + UlebLength(b[p..], 4)))
  }

  /** A size: at most max. */
  function SizeAt(b: seq<Byte>, p: nat, max: nat): (r: Option<Found<nat>>)
    ensures r.Some? ==> p < r.value.next <= |b| && r.value.value <= max
  {
    var v :- UlebAt(b, p);
    if v.value > max then None else Some(v)
  }

  /** An index: below n. */
  function IndexAt(b: seq<Byte>, p: nat, n: nat): (r: Option<Found<nat>>)
    ensures r.Some? ==> p < r.value.next <= |b| && r.value.value < n
  {
    var v :- UlebAt(b, p);
    if v.value >= n then None else Some(v)
  }

  function BytesAt(b: seq<Byte>, p: nat, n: nat): (r: Option<Found<seq<Byte>>>)
    ensures r.Some? ==> r.value.next == p + n <= |b| && |r.value.value| == n
  {
    if p + n > |b| then None else Some(Found(b[p..p + n], p + n))
  }

  function DeltaAt(b: seq<Byte>, p: nat, numConstants: nat): (r: Option<Found<Delta>>)
    ensures r.Some? ==> p < r.value.next <= |b| && r.value.value.k < numConstants
  {
    var g :- UlebAt(b, p);
    var h0 :- UlebAt(b, g.next);
    var h1 :- UlebAt(b, h0.next);
    var k :- IndexAt(b, h1.next, numConstants);
    Some(Found(Delta(Unzigzag(g.value), Unzigzag(h0.value), Unzigzag(h1.value), k.value), k.next))
  }

  /** n items, one after the other. */
  ghost function ListAt<T>(item: nat -> Option<Found<T>>, p: nat, n: nat): (r: Option<Found<seq<T>>>)
    ensures r.Some? ==> |r.value.value| == n
  {
    if n == 0 then Some(Found([], p))
    else
      var front :- ListAt(item, p, n - 1);
      var last :- item(front.next);
      Some(Found(front.value + [last.value], last.next))
  }

  lemma ListPrefix<T>(item: nat -> Option<Found<T>>, p: nat, i: nat, n: nat)
    requires i <= n
    ensures ListAt(item, p, i).None? ==> ListAt(item, p, n).None?
    ensures ListAt(item, p, n).Some? ==> ListAt(item, p, i).value.value == ListAt(item, p, n).value.value[..i]
  {
    for k := i to n
      invariant ListAt(item, p, i).None? ==> ListAt(item, p, k).None?
      invariant ListAt(item, p, k).Some? ==> ListAt(item, p, i).value.value == ListAt(item, p, k).value.value[..i]
    {
    }
  }

  lemma ListNext<T>(item: nat -> Option<Found<T>>, start: nat, front: seq<T>, p: nat, here: Option<Found<T>>, n: nat)
    requires |front| < n && ListAt(item, start, |front|) == Some(Found(front, p)) && item(p) == here
    ensures here.None? ==> ListAt(item, start, n).None?
    ensures here.Some? ==> ListAt(item, start, |front| + 1) == Some(Found(front + [here.value.value], here.value.next))
  {
    ListPrefix(item, start, |front| + 1, n);
  }

  function Deltas(b: seq<Byte>, numConstants: nat): nat -> Option<Found<Delta>> {
    (p: nat) => DeltaAt(b, p, numConstants)
  }

  function Indices(b: seq<Byte>, n: nat): nat -> Option<Found<nat>> {
    (p: nat) => IndexAt(b, p, n)
  }

  /** The indices of a segment into the dictionary, or of a layer's tokens into the segments. */
  ghost function SegmentAt(b: seq<Byte>, p: nat, numDeltas: nat): Option<Found<seq<nat>>> {
    var length :- SizeAt(b, p, MAX_TERMS);
    ListAt(Indices(b, numDeltas), length.next, length.value)
  }

  ghost function Segments(b: seq<Byte>, numDeltas: nat): nat -> Option<Found<seq<nat>>> {
    (p: nat) => SegmentAt(b, p, numDeltas)
  }

  ghost function DictionaryAt(b: seq<Byte>, p: nat, numConstants: nat): Option<Found<seq<Delta>>> {
    var n :- SizeAt(b, p, MAX_DELTAS);
    ListAt(Deltas(b, numConstants), n.next, n.value)
  }

  ghost function AllSegmentsAt(b: seq<Byte>, p: nat, numDeltas: nat): Option<Found<seq<seq<nat>>>> {
    var n :- SizeAt(b, p, MAX_DELTAS);
    ListAt(Segments(b, numDeltas), n.next, n.value)
  }

  ghost function LayerAt(b: seq<Byte>, p: nat, numConstants: nat): Option<Found<Lfc2Layer>> {
    var logw :- SizeAt(b, p, 63);
    var numWires :- SizeAt(b, logw.next, MAX_WIRES);
    var deltas :- DictionaryAt(b, numWires.next, numConstants);
    var segments :- AllSegmentsAt(b, deltas.next, |deltas.value|);
    var tokens :- SegmentAt(b, segments.next, |segments.value|);
    Some(Found(Lfc2Layer(logw.value, numWires.value, deltas.value, segments.value, tokens.value), tokens.next))
  }

  ghost function Layers(b: seq<Byte>, numConstants: nat): nat -> Option<Found<Lfc2Layer>> {
    (p: nat) => LayerAt(b, p, numConstants)
  }

  /** The sizes between the field identifier and the constants. */
  datatype Sizes = Sizes(numOutputs: nat, numPublicInputs: nat, subfieldBoundary: nat, numInputs: nat, numLayers: nat)

  ghost predicate SizesReadable(s: Sizes) {
    && s.numOutputs <= MAX_WIRES && s.numPublicInputs <= s.numInputs <= MAX_WIRES && s.subfieldBoundary <= MAX_WIRES
    && s.numLayers <= MAX_LAYERS
  }

  function SizesAt(b: seq<Byte>, p: nat): (r: Option<Found<Sizes>>)
    ensures r.Some? ==> SizesReadable(r.value.value)
  {
    var numOutputs :- SizeAt(b, p, MAX_WIRES);
    var numCopies :- UlebAt(b, numOutputs.next);
    if numCopies.value != 1 then None
    else
      var numPublicInputs :- SizeAt(b, numCopies.next, MAX_WIRES);
      var subfieldBoundary :- SizeAt(b, numPublicInputs.next, MAX_WIRES);
      var numInputs :- SizeAt(b, subfieldBoundary.next, MAX_WIRES);
      var numLayers :- SizeAt(b, numInputs.next, MAX_LAYERS);
      if numPublicInputs.value > numInputs.value then None
      else
        Some(Found(
               Sizes(numOutputs.value, numPublicInputs.value, subfieldBoundary.value, numInputs.value, numLayers.value),
               numLayers.next))
  }

  function ConstantsAt(b: seq<Byte>, p: nat, size: nat): Option<Found<seq<seq<Byte>>>> {
    var n :- SizeAt(b, p, MAX_CONSTANTS);
    var constants :- BytesAt(b, n.next, n.value * size);
    Some(Found(Cut(constants.value, size, n.value), constants.next))
  }

  /** Everything before the layers. */
  datatype Header = Header(fieldId: nat, sizes: Sizes, constants: seq<seq<Byte>>)

  ghost predicate HeaderReadable(h: Header) {
    && SizesReadable(h.sizes)
    && ElementSize(h.fieldId).Some? && ElementsOfSize(h.constants, ElementSize(h.fieldId).value)
    && |h.constants| <= MAX_CONSTANTS
  }

  function HeaderAt(b: seq<Byte>): Option<Found<Header>> {
    if |b| < 4 || b[..4] != HEADER then None
    else
      var fieldId :- SizeAt(b, 4, 255);
      var size :- ElementSize(fieldId.value);
      var sizes :- SizesAt(b, fieldId.next);
      var constants :- ConstantsAt(b, sizes.next, size);
      Some(Found(Header(fieldId.value, sizes.value, constants.value), constants.next))
  }

  function CircuitOf(h: Header, layers: seq<Lfc2Layer>, id: seq<Byte>): Lfc2Circuit {
    Lfc2Circuit(
      h.fieldId, h.sizes.numOutputs, h.sizes.numPublicInputs, h.sizes.subfieldBoundary, h.sizes.numInputs, h.constants,
        layers, id)
  }

  /** The circuit at the start of the input, and how many bytes it takes. */
  ghost function CircuitAt(b: seq<Byte>): Option<Found<Lfc2Circuit>> {
    var header :- HeaderAt(b);
    var h := header.value;
    var layers :- ListAt(Layers(b, |h.constants|), header.next, h.sizes.numLayers);
    var id :- BytesAt(b, layers.next, ID_BYTES);
    Some(Found(CircuitOf(h, layers.value, id.value), id.next))
  }

  // ----- The reader -----

  /** The cursor is where the format says, and so is the value; or both fail. */
  predicate Reads<T(==)>(found: Option<Found<T>>, r: Option<T>, p: nat) {
    match found
    case None => r == None
    case Some(f) => r == Some(f.value) && p == f.next
  }

  /** The reader: a cursor into the input. */
  class Rd {
    const b: seq<Byte>
    var p: nat

    constructor (b: seq<Byte>, p: nat)
      requires p <= |b|
      ensures this.b == b && this.p == p
    {
      this.b, this.p := b, p;
    }

    ghost predicate Valid()
      reads this
    {
      p <= |b|
    }

    /** `take` */
    method Take(n: nat) returns (s: Option<seq<Byte>>)
      requires Valid()
      modifies this
      ensures Valid() && Reads(BytesAt(b, old(p), n), s, p)
    {
      if p + n > |b| {
        return None;
      }
      s := Some(b[p..p + n]);
      p := p + n;
    }

    /** `uleb`: seven bits per byte, lowest first, at most four bytes. */
    method Uleb() returns (v: Option<nat>)
      requires Valid()
      modifies this
      ensures Valid() && Reads(UlebAt(b, old(p)), v, p)
    {
      v := Groups();
    }

    method Groups() returns (v: Option<nat>)
      requires Valid()
      modifies this
      ensures Valid() && v == UlebValue(b[old(p)..], 4) && (v.Some? ==> p == old(p) + UlebLength(b[old(p)..], 4))
    {
      var value: nat, scale: nat, i: nat := 0, 1, 0;
      ghost var start := p;
      while i < 4
        invariant 0 <= i <= 4 && Valid() && p == start + i
        invariant UlebValue(b[start..], 4) == Lift(value, scale, UlebValue(b[p..], 4 - i))
        invariant UlebLength(b[start..], 4) == i + UlebLength(b[p..], 4 - i)
      {
        ghost var left: nat := 4 - i - 1;
        assert 4 - i == left + 1;
        if p == |b| {
          return None;
        }
        var byte := Take(1);
        var x := byte.value[0];
        GroupNext(b, p - 1, left, value, scale);
        value, scale, i := AddGroup(value, scale, x % 128), 128 * scale, i + 1;
        if x < 128 {
          return Some(value);
        }
      }
      v := None;
    }

    /** `size` */
    method Size(max: nat) returns (v: Option<nat>)
      requires Valid()
      modifies this
      ensures Valid() && Reads(SizeAt(b, old(p), max), v, p)
    {
      v := Uleb();
      if v.None? {
        return None;
      }
      if v.value > max {
        return None;
      }
    }

    method Index(n: nat) returns (v: Option<nat>)
      requires Valid()
      modifies this
      ensures Valid() && Reads(IndexAt(b, old(p), n), v, p)
    {
      v := Uleb();
      if v.None? {
        return None;
      }
      if v.value >= n {
        return None;
      }
    }
  }

  method ReadDelta(rd: Rd, numConstants: nat) returns (r: Option<Delta>)
    requires rd.Valid()
    modifies rd
    ensures rd.Valid() && Reads(DeltaAt(rd.b, old(rd.p), numConstants), r, rd.p)
    ensures r.Some? ==> r.value.k < numConstants
  {
    var g :- rd.Uleb();
    var h0 :- rd.Uleb();
    var h1 :- rd.Uleb();
    var k :- rd.Index(numConstants);
    r := Some(Delta(Unzigzag(g), Unzigzag(h0), Unzigzag(h1), k));
  }

  method ReadDeltas(rd: Rd, numConstants: nat, n: nat) returns (r: Option<seq<Delta>>)
    requires rd.Valid()
    modifies rd
    ensures rd.Valid() && Reads(ListAt(Deltas(rd.b, numConstants), old(rd.p), n), r, rd.p)
    ensures r.Some? ==> ConstantsBelow(r.value, numConstants)
  {
    var deltas: seq<Delta> := [];
    for i := 0 to n
      invariant rd.Valid() && |deltas| == i && ConstantsBelow(deltas, numConstants)
      invariant ListAt(Deltas(rd.b, numConstants), old(rd.p), i) == Some(Found(deltas, rd.p))
    {
      deltas :- ReadDeltaAfter(rd, numConstants, deltas, old(rd.p), n);
    }
    r := Some(deltas);
  }

  method ReadDeltaAfter(rd: Rd, numConstants: nat, deltas: seq<Delta>, ghost start: nat, ghost n: nat)
      returns (r: Option<seq<Delta>>)
    requires rd.Valid() && |deltas| < n && ConstantsBelow(deltas, numConstants)
    requires ListAt(Deltas(rd.b, numConstants), start, |deltas|) == Some(Found(deltas, rd.p))
    modifies rd
    ensures rd.Valid()
    ensures r.None? ==> ListAt(Deltas(rd.b, numConstants), start, n) == None
    ensures r.Some? ==> |r.value| == |deltas| + 1 && ConstantsBelow(r.value, numConstants)
    ensures r.Some? ==> ListAt(Deltas(rd.b, numConstants), start, |r.value|) == Some(Found(r.value, rd.p))
  {
    ghost var here := DeltaAt(rd.b, rd.p, numConstants);
    ListNext(Deltas(rd.b, numConstants), start, deltas, rd.p, here, n);
    var next :- ReadDelta(rd, numConstants);
    ConstantsBelowNext(deltas, next, numConstants);
    r := Some(deltas + [next]);
  }

  method ReadIndices(rd: Rd, bound: nat, n: nat) returns (r: Option<seq<nat>>)
    requires rd.Valid()
    modifies rd
    ensures rd.Valid() && Reads(ListAt(Indices(rd.b, bound), old(rd.p), n), r, rd.p)
    ensures r.Some? ==> Below(r.value, bound)
  {
    ghost var item, start := Indices(rd.b, bound), rd.p;
    var indices: seq<nat> := [];
    for i := 0 to n
      invariant rd.Valid() && ListAt(item, start, i) == Some(Found(indices, rd.p))
      invariant Below(indices, bound)
    {
      ListNext(item, start, indices, rd.p, IndexAt(rd.b, rd.p, bound), n);
      var index :- rd.Index(bound);
      indices := indices + [index];
    }
    r := Some(indices);
  }

  ghost predicate Below(indices: seq<nat>, bound: nat) {
    forall i :: 0 <= i < |indices| ==> indices[i] < bound
  }

  ghost predicate AllBelow(segments: seq<seq<nat>>, bound: nat) {
    forall i :: 0 <= i < |segments| ==> Below(segments[i], bound)
  }

  method ReadSegment(rd: Rd, numDeltas: nat) returns (r: Option<seq<nat>>)
    requires rd.Valid()
    modifies rd
    ensures rd.Valid() && Reads(SegmentAt(rd.b, old(rd.p), numDeltas), r, rd.p)
    ensures r.Some? ==> Below(r.value, numDeltas)
  {
    var length :- rd.Size(MAX_TERMS);
    r := ReadIndices(rd, numDeltas, length);
  }

  method ReadSegments(rd: Rd, numDeltas: nat, n: nat) returns (r: Option<seq<seq<nat>>>)
    requires rd.Valid()
    modifies rd
    ensures rd.Valid() && Reads(ListAt(Segments(rd.b, numDeltas), old(rd.p), n), r, rd.p)
    ensures r.Some? ==> AllBelow(r.value, numDeltas)
  {
    var segments: seq<seq<nat>> := [];
    for i := 0 to n
      invariant rd.Valid() && |segments| == i && AllBelow(segments, numDeltas)
      invariant ListAt(Segments(rd.b, numDeltas), old(rd.p), i) == Some(Found(segments, rd.p))
    {
      segments :- ReadSegmentAfter(rd, numDeltas, segments, old(rd.p), n);
    }
    r := Some(segments);
  }

  method ReadSegmentAfter(rd: Rd, numDeltas: nat, segments: seq<seq<nat>>, ghost start: nat, ghost n: nat)
      returns (r: Option<seq<seq<nat>>>)
    requires rd.Valid() && |segments| < n && AllBelow(segments, numDeltas)
    requires ListAt(Segments(rd.b, numDeltas), start, |segments|) == Some(Found(segments, rd.p))
    modifies rd
    ensures rd.Valid()
    ensures r.None? ==> ListAt(Segments(rd.b, numDeltas), start, n) == None
    ensures r.Some? ==> |r.value| == |segments| + 1 && AllBelow(r.value, numDeltas)
    ensures r.Some? ==> ListAt(Segments(rd.b, numDeltas), start, |r.value|) == Some(Found(r.value, rd.p))
  {
    ListNext(Segments(rd.b, numDeltas), start, segments, rd.p, SegmentAt(rd.b, rd.p, numDeltas), n);
    var next :- ReadSegment(rd, numDeltas);
    r := Some(segments + [next]);
  }

  method ReadDictionary(rd: Rd, numConstants: nat) returns (r: Option<seq<Delta>>)
    requires rd.Valid()
    modifies rd
    ensures rd.Valid() && Reads(DictionaryAt(rd.b, old(rd.p), numConstants), r, rd.p)
    ensures r.Some? ==> ConstantsBelow(r.value, numConstants)
  {
    var n :- rd.Size(MAX_DELTAS);
    r := ReadDeltas(rd, numConstants, n);
  }

  method ReadAllSegments(rd: Rd, numDeltas: nat) returns (r: Option<seq<seq<nat>>>)
    requires rd.Valid()
    modifies rd
    ensures rd.Valid() && Reads(AllSegmentsAt(rd.b, old(rd.p), numDeltas), r, rd.p)
    ensures r.Some? ==> AllBelow(r.value, numDeltas)
  {
    var n :- rd.Size(MAX_DELTAS);
    r := ReadSegments(rd, numDeltas, n);
  }

  /** One layer: every index that it holds is in range. */
  method ReadLayer(rd: Rd, numConstants: nat) returns (r: Option<Lfc2Layer>)
    requires rd.Valid()
    modifies rd
    ensures rd.Valid() && Reads(LayerAt(rd.b, old(rd.p), numConstants), r, rd.p)
    ensures r.Some? ==> Readable(r.value, numConstants)
  {
    var logw :- rd.Size(63);
    var numWires :- rd.Size(MAX_WIRES);
    var deltas :- ReadDictionary(rd, numConstants);
    var segments :- ReadAllSegments(rd, |deltas|);
    var tokens :- ReadSegment(rd, |segments|);
    r := Some(Lfc2Layer(logw, numWires, deltas, segments, tokens));
    assert forall i :: 0 <= i < |segments| ==> Below(segments[i], |deltas|) ==> SegmentReadable(r.value, segments[i]);
  }

  method ReadSizes(rd: Rd) returns (r: Option<Sizes>)
    requires rd.Valid()
    modifies rd
    ensures rd.Valid() && Reads(SizesAt(rd.b, old(rd.p)), r, rd.p)
  {
    var numOutputs :- rd.Size(MAX_WIRES);
    var numCopies :- rd.Uleb();
    if numCopies != 1 {
      return None;
    }
    var numPublicInputs :- rd.Size(MAX_WIRES);
    var subfieldBoundary :- rd.Size(MAX_WIRES);
    var numInputs :- rd.Size(MAX_WIRES);
    var numLayers :- rd.Size(MAX_LAYERS);
    if numPublicInputs > numInputs {
      return None;
    }
    r := Some(Sizes(numOutputs, numPublicInputs, subfieldBoundary, numInputs, numLayers));
  }

  method ReadConstants(rd: Rd, size: nat) returns (r: Option<seq<seq<Byte>>>)
    requires rd.Valid()
    modifies rd
    ensures rd.Valid() && Reads(ConstantsAt(rd.b, old(rd.p), size), r, rd.p)
    ensures r.Some? ==> |r.value| <= MAX_CONSTANTS && ElementsOfSize(r.value, size)
  {
    var n :- rd.Size(MAX_CONSTANTS);
    var constants :- rd.Take(n * size);
    CutConcat(constants, size, n);
    r := Some(Cut(constants, size, n));
  }

  method ReadHeader(rd: Rd) returns (r: Option<Header>)
    requires rd.Valid() && rd.p == 0
    modifies rd
    ensures rd.Valid() && Reads(HeaderAt(rd.b), r, rd.p)
    ensures r.Some? ==> HeaderReadable(r.value)
  {
    if |rd.b| < 4 || rd.b[..4] != HEADER {
      return None;
    }
    rd.p := 4;
    var fieldId :- rd.Size(255);
    var size :- ElementSize(fieldId);
    var sizes :- ReadSizes(rd);
    var constants :- ReadConstants(rd, size);
    r := Some(Header(fieldId, sizes, constants));
  }
}
