/**
 The converter from the LFC2 circuit format to LFC1 (src/nymauth/lfc2.rs) and the LFC1 decoder that reads its output
 (src/circuit.rs, src/lib.rs).
 */
module Lfc {
  import opened Options
  import opened Bytes
  import opened Lfc2

  const SIZE_LIMIT: nat := 0x100_0000
  const MAX_OUT_BYTES: nat := 0x200_0000

  // ----- Terms -----

  /** A term of a layer: gate, left wire, right wire and index into the constants. */
  datatype Term = Term(g: nat, h0: nat, h1: nat, k: nat)

  function WrappingAdd(a: nat, b: nat): (c: nat)
    ensures c < WORD
  {
    (a + b) % WORD
  }

  function NextTerm(prev: Term, d: Delta): Term {
    Term(WrappingAdd(prev.g, d.g), WrappingAdd(prev.h0, d.h0), WrappingAdd(prev.h1, d.h1), d.k)
  }

  /** The dictionary entries that the tokens stand for, in order. */
  ghost function Flat(layer: Lfc2Layer, tokens: seq<nat>): seq<nat> {
    if |tokens| == 0 then []
    else (if tokens[0] < |layer.segments| then layer.segments[tokens[0]] else []) + Flat(layer, tokens[1..])
  }

  const ORIGIN: Term := Term(0, 0, 0, 0)

  function Entry(deltas: seq<Delta>, d: nat): Delta {
    if d < |deltas| then deltas[d] else Delta(0, 0, 0, 0)
  }

  /** The terms that a list of dictionary entries stands for, after the term `prev`. */
  ghost function Expanded(deltas: seq<Delta>, list: seq<nat>, prev: Term): (ts: seq<Term>)
    ensures |ts| == |list|
  {
    if |list| == 0 then []
    else
      var t := NextTerm(prev, Entry(deltas, list[0]));
      [t] + Expanded(deltas, list[1..], t)
  }

  /** The terms of a layer. */
  ghost function TermsOf(layer: Lfc2Layer): seq<Term> {
    Expanded(layer.deltas, Flat(layer, layer.tokens), ORIGIN)
  }

  // ----- What the terms of a layer are -----

  /** The number of dictionary entries in the segments of the first n tokens. */
  ghost function EntriesBefore(layer: Lfc2Layer, n: nat): nat
    requires TokensReadable(layer) && n <= |layer.tokens|
  {
    if n == 0 then 0 else EntriesBefore(layer, n - 1) + |layer.segments[layer.tokens[n - 1]]|
  }

  /** The segments of the tokens, one after the other. */
  ghost predicate AreEntries(layer: Lfc2Layer, entries: seq<nat>)
    requires TokensReadable(layer)
  {
    && |entries| == EntriesBefore(layer, |layer.tokens|)
    && forall n :: 0 <= n < |layer.tokens| ==> SegmentAppears(layer, entries, n)
  }

  ghost predicate SegmentAppears(layer: Lfc2Layer, entries: seq<nat>, n: nat)
    requires TokensReadable(layer) && n < |layer.tokens|
  {
    var segment, start := layer.segments[layer.tokens[n]], EntriesBefore(layer, n);
    start + |segment| <= |entries| && entries[start..start + |segment|] == segment
  }

  ghost predicate EntriesInRange(deltas: seq<Delta>, entries: seq<nat>) {
    forall i :: 0 <= i < |entries| ==> entries[i] < |deltas|
  }

  /** The sum of the gate differences of the first n entries. */
  ghost function GateSum(deltas: seq<Delta>, entries: seq<nat>, n: nat): nat
    requires EntriesInRange(deltas, entries) && n <= |entries|
  {
    if n == 0 then 0 else GateSum(deltas, entries, n - 1) + deltas[entries[n - 1]].g
  }

  ghost function LeftSum(deltas: seq<Delta>, entries: seq<nat>, n: nat): nat
    requires EntriesInRange(deltas, entries) && n <= |entries|
  {
    if n == 0 then 0 else LeftSum(deltas, entries, n - 1) + deltas[entries[n - 1]].h0
  }

  ghost function RightSum(deltas: seq<Delta>, entries: seq<nat>, n: nat): nat
    requires EntriesInRange(deltas, entries) && n <= |entries|
  {
    if n == 0 then 0 else RightSum(deltas, entries, n - 1) + deltas[entries[n - 1]].h1
  }

  /**
   Term i has the sums of the first i + 1 differences, modulo 2^32 and field by field, and the constant of entry i.
   */
  ghost predicate TermIs(deltas: seq<Delta>, entries: seq<nat>, t: Term, i: nat)
    requires EntriesInRange(deltas, entries) && i < |entries|
  {
    && t.g == GateSum(deltas, entries, i + 1) % WORD
    && t.h0 == LeftSum(deltas, entries, i + 1) % WORD
    && t.h1 == RightSum(deltas, entries, i + 1) % WORD
    && t.k == deltas[entries[i]].k
  }

  ghost predicate AreTermsOf(layer: Lfc2Layer, entries: seq<nat>, ts: seq<Term>)
    requires TokensReadable(layer)
  {
    && AreEntries(layer, entries) && EntriesInRange(layer.deltas, entries) && |ts| == |entries|
    && forall i :: 0 <= i < |ts| ==> TermIs(layer.deltas, entries, ts[i], i)
  }

  lemma {:induction false} ExpandedNext(deltas: seq<Delta>, list: seq<nat>, prev: Term, i: nat)
    requires i < |list|
    ensures Expanded(deltas, list, prev)[i]
      == NextTerm(if i == 0 then prev else Expanded(deltas, list, prev)[i - 1], Entry(deltas, list[i]))
    decreases i
  {
    if i > 0 {
      ExpandedNext(deltas, list[1..], NextTerm(prev, Entry(deltas, list[0])), i - 1);
    }
  }

  lemma WrappingSum(a: nat, b: nat)
    ensures WrappingAdd(a % WORD, b) == (a + b) % WORD
  {
  }

  lemma {:induction false} ExpandedTermIs(deltas: seq<Delta>, list: seq<nat>, i: nat)
    requires EntriesInRange(deltas, list) && i < |list|
    ensures TermIs(deltas, list, Expanded(deltas, list, ORIGIN)[i], i)
    decreases i
  {
    ExpandedNext(deltas, list, ORIGIN, i);
    if i > 0 {
      ExpandedTermIs(deltas, list, i - 1);
    }
    var d := deltas[list[i]];
    WrappingSum(GateSum(deltas, list, i), d.g);
    WrappingSum(LeftSum(deltas, list, i), d.h0);
    WrappingSum(RightSum(deltas, list, i), d.h1);
  }

  lemma FlatAppend(layer: Lfc2Layer, a: seq<nat>, b: seq<nat>)
    ensures Flat(layer, a + b) == Flat(layer, a) + Flat(layer, b)
  {
    if |a| == 0 {
      assert a + b == b && [] + Flat(layer, b) == Flat(layer, b);
    } else {
      FlatAppend(layer, a[1..], b);
      assert (a + b)[1..] == a[1..] + b;
    }
  }

  lemma {:induction false} FlatPrefix(layer: Lfc2Layer, n: nat)
    requires TokensReadable(layer) && n < |layer.tokens|
    ensures Flat(layer, layer.tokens[..n + 1]) == Flat(layer, layer.tokens[..n]) + layer.segments[layer.tokens[n]]
  {
    var t := layer.tokens[n];
    assert layer.tokens[..n + 1] == layer.tokens[..n] + [t];
    FlatAppend(layer, layer.tokens[..n], [t]);
    assert [t][1..] == [] && Flat(layer, [t]) == layer.segments[t] + [];
  }

  lemma {:induction false} FlatLength(layer: Lfc2Layer, n: nat)
    requires TokensReadable(layer) && n <= |layer.tokens|
    ensures |Flat(layer, layer.tokens[..n])| == EntriesBefore(layer, n)
  {
    if n > 0 {
      FlatLength(layer, n - 1);
      FlatPrefix(layer, n - 1);
    }
  }

  lemma FlatSegment(layer: Lfc2Layer, n: nat)
    requires TokensReadable(layer) && n < |layer.tokens|
    ensures SegmentAppears(layer, Flat(layer, layer.tokens), n)
  {
    var front, segment := Flat(layer, layer.tokens[..n]), layer.segments[layer.tokens[n]];
    var rest := Flat(layer, layer.tokens[n + 1..]);
    FlatLength(layer, n);
    FlatPrefix(layer, n);
    assert layer.tokens == layer.tokens[..n + 1] + layer.tokens[n + 1..];
    FlatAppend(layer, layer.tokens[..n + 1], layer.tokens[n + 1..]);
    assert (front + segment + rest)[|front|..|front| + |segment|] == segment;
  }

  lemma FlatInRange(layer: Lfc2Layer, tokens: seq<nat>)
    requires TokensReadable(layer)
    ensures EntriesInRange(layer.deltas, Flat(layer, tokens))
  {
    if |tokens| > 0 {
      FlatInRange(layer, tokens[1..]);
      if tokens[0] < |layer.segments| {
        assert SegmentReadable(layer, layer.segments[tokens[0]]);
      }
    }
  }

  /** The expansion gives these terms. */
  lemma ExpansionMeans(layer: Lfc2Layer)
    requires TokensReadable(layer)
    ensures AreTermsOf(layer, Flat(layer, layer.tokens), TermsOf(layer))
  {
    var entries := Flat(layer, layer.tokens);
    FlatInRange(layer, layer.tokens);
    FlatLength(layer, |layer.tokens|);
    assert layer.tokens[..|layer.tokens|] == layer.tokens;
    forall n | 0 <= n < |layer.tokens| ensures SegmentAppears(layer, entries, n) {
      FlatSegment(layer, n);
    }
    forall i | 0 <= i < |entries| ensures TermIs(layer.deltas, entries, TermsOf(layer)[i], i) {
      ExpandedTermIs(layer.deltas, entries, i);
    }
  }

  // ----- Writing LFC1 -----

  /** `put3`: three bytes, lowest first. */
  function Put3(v: nat): (bytes: Option<seq<Byte>>)
    ensures bytes.Some? <==> v < SIZE_LIMIT
    ensures bytes.Some? ==> |bytes.value| == 3
  {
    if v >= SIZE_LIMIT then None else Some([v % 256, v / 256 % 256, v / 65536])
  }

  function DeltaCode(v: nat, prev: nat): nat {
    if v >= prev then 2 * (v - prev) else 2 * (prev - v) + 1
  }

  function Join(a: Option<seq<Byte>>, b: Option<seq<Byte>>): Option<seq<Byte>> {
    if a.Some? && b.Some? then Some(a.value + b.value) else None
  }

  function PutTerm(t: Term, prev: Term): Option<seq<Byte>> {
    Join(Join(Join(Put3(DeltaCode(t.g, prev.g)), Put3(DeltaCode(t.h0, prev.h0))), Put3(DeltaCode(t.h1, prev.h1))),
      Put3(t.k))
  }

  /** The terms, each relative to the one before. */
  ghost function PutTerms(ts: seq<Term>, prev: Term): (bytes: Option<seq<Byte>>)
    ensures bytes.Some? ==> |bytes.value| == 12 * |ts|
  {
    if |ts| == 0 then Some([]) else Join(PutTerm(ts[0], prev), PutTerms(ts[1..], ts[0]))
  }

  /** What will have been written once the rest of the entries is expanded too. */
  ghost function Target(deltas: seq<Delta>, written: seq<Byte>, prev: Term, rest: seq<nat>): Option<seq<Byte>> {
    Join(Some(written), PutTerms(Expanded(deltas, rest, prev), prev))
  }

  lemma TargetNext(deltas: seq<Delta>, written: seq<Byte>, prev: Term, d: nat, rest: seq<nat>)
    ensures var t := NextTerm(prev, Entry(deltas, d)); var bytes := PutTerm(t, prev);
      Target(deltas, written, prev, [d] + rest) == if bytes.None? then None
        else Target(deltas, written + bytes.value, t, rest)
  {
    var t := NextTerm(prev, Entry(deltas, d));
    assert ([d] + rest)[1..] == rest;
    var ts := Expanded(deltas, rest, t);
    assert ([t] + ts)[1..] == ts;
    if PutTerm(t, prev).Some? && PutTerms(ts, t).Some? {
      AppendBytes(written, PutTerm(t, prev).value, PutTerms(ts, t).value);
    }
  }

  lemma AppendBytes(a: seq<Byte>, b: seq<Byte>, c: seq<Byte>)
    ensures a + b + c == a + (b + c)
  {
  }

  /** The terms of one segment: the inner loop of the expansion. `later` are the entries of the segments to come. */
  method WriteSegment(layer: Lfc2Layer, segment: seq<nat>, out: seq<Byte>, prev: Term, ghost later: seq<nat>)
      returns (r: Option<seq<Byte>>, last: Term)
    requires SegmentReadable(layer, segment)
    ensures Target(layer.deltas, out, prev, segment + later) == if r.None? then None
      else Target(layer.deltas, r.value, last, later)
  {
    last := prev;
    var bytes := out;
    for i := 0 to |segment|
      invariant Target(layer.deltas, out, prev, segment + later)
        == Target(layer.deltas, bytes, last, segment[i..] + later)
    {
      SegmentNext(segment, i, later);
      TargetNext(layer.deltas, bytes, last, segment[i], segment[i + 1..] + later);
      var t := NextTerm(last, layer.deltas[segment[i]]);
      var written := PutTerm(t, last);
      if written.None? {
        return None, last;
      }
      bytes, last := bytes + written.value, t;
    }
    assert segment[|segment|..] + later == later;
    r := Some(bytes);
  }

  lemma SegmentNext(segment: seq<nat>, i: nat, later: seq<nat>)
    requires i < |segment|
    ensures segment[i..] + later == [segment[i]] + (segment[i + 1..] + later)
  {
  }

  /** The expansion of the tokens of a layer onto what is already written. */
  method WriteTerms(layer: Lfc2Layer, out: seq<Byte>) returns (r: Option<seq<Byte>>)
    requires TokensReadable(layer)
    ensures r == Join(Some(out), PutTerms(TermsOf(layer), ORIGIN))
  {
    var bytes, prev := out, ORIGIN;
    assert layer.tokens[0..] == layer.tokens;
    for n := 0 to |layer.tokens|
      invariant Target(layer.deltas, out, ORIGIN, Flat(layer, layer.tokens))
        == Target(layer.deltas, bytes, prev, Flat(layer, layer.tokens[n..]))
    {
      var segment := layer.segments[layer.tokens[n]];
      assert layer.tokens[n..][1..] == layer.tokens[n + 1..];
      var written, last := WriteSegment(layer, segment, bytes, prev, Flat(layer, layer.tokens[n + 1..]));
      if written.None? {
        return None;
      }
      bytes, prev := written.value, last;
    }
    assert layer.tokens[|layer.tokens|..] == [] && bytes + [] == bytes;
    r := Some(bytes);
  }

  // ----- A whole circuit -----

  datatype Layer = Layer(logw: nat, numWires: nat, terms: seq<Term>)

  datatype Circuit = Circuit(
    fieldId: nat,
    numOutputs: nat,
    numCopies: nat,
    numPublicInputs: nat,
    subfieldBoundary: nat,
    numInputs: nat,
    constants: seq<seq<Byte>>,
    layers: seq<Layer>,
    id: seq<Byte>)

  ghost function PutLayer(layer: Layer): Option<seq<Byte>> {
    Join(Join(Join(Put3(layer.logw), Put3(layer.numWires)), Put3(|layer.terms|)), PutTerms(layer.terms, ORIGIN))
  }

  ghost function PutLayers(layers: seq<Layer>): Option<seq<Byte>> {
    if |layers| == 0 then Some([]) else Join(PutLayer(layers[0]), PutLayers(layers[1..]))
  }

  function PutSizes(sizes: seq<nat>): Option<seq<Byte>> {
    if |sizes| == 0 then Some([]) else Join(Put3(sizes[0]), PutSizes(sizes[1..]))
  }

  function Sizes(c: Circuit): seq<nat> {
    [c.fieldId, c.numOutputs, c.numCopies, c.numPublicInputs, c.subfieldBoundary, c.numInputs, |c.layers|,
      |c.constants|]
  }

  /** The LFC1 bytes of a circuit, or None if a value does not fit. */
  ghost function PutCircuit(c: Circuit): Option<seq<Byte>> {
    Join(Some([1]), Join(PutSizes(Sizes(c)), Join(Some(Concat(c.constants)), Join(PutLayers(c.layers), Some(c.id)))))
  }

  /**
   The conversion of one layer, with the checks on the number of terms and the size of the output; `total` counts the
   terms of the layers before.
   */
  method WriteLayer(layer: Lfc2Layer, out: seq<Byte>, total: nat, ghost numConstants: nat)
      returns (r: Option<seq<Byte>>, after: nat)
    requires Readable(layer, numConstants)
    ensures r.Some? ==> TokensReadable(layer) && after == total + |TermsOf(layer)|
    ensures r.Some? ==> r == Join(Some(out), PutLayer(Layer(layer.logw, layer.numWires, TermsOf(layer))))
    ensures TokensReadable(layer)
    ensures r.None? <==> (
        || |TermsOf(layer)| + total > MAX_TERMS
        || 12 * |TermsOf(layer)| + |out| > MAX_OUT_BYTES
        || PutTerms(TermsOf(layer), ORIGIN).None?)
  {
    var numTerms := CountTerms(layer);
    after := total + numTerms;
    if numTerms > MAX_TERMS || after > MAX_TERMS || numTerms * 12 + |out| > MAX_OUT_BYTES {
      return None, after;
    }
    var logw, numWires, count := Put3(layer.logw), Put3(layer.numWires), Put3(numTerms);
    var head := logw.value + numWires.value + count.value;
    r := WriteTerms(layer, out + head);
    if r.Some? {
      AppendBytes(out, head, PutTerms(TermsOf(layer), ORIGIN).value);
    }
  }

  method CountTerms(layer: Lfc2Layer) returns (n: nat)
    requires TokensReadable(layer)
    ensures n == |TermsOf(layer)|
  {
    n := 0;
    assert layer.tokens[0..] == layer.tokens;
    for i := 0 to |layer.tokens|
      invariant n + |Flat(layer, layer.tokens[i..])| == |Flat(layer, layer.tokens)|
    {
      assert layer.tokens[i..][1..] == layer.tokens[i + 1..];
      n := n + |layer.segments[layer.tokens[i]]|;
    }
    assert layer.tokens[|layer.tokens|..] == [];
  }

  // ----- Reading LFC1 -----

  function Get3(bytes: seq<Byte>): Option<(nat, seq<Byte>)> {
    if |bytes| < 3 then None else var low: nat, mid: nat, high: nat :=
      bytes[0], bytes[1], bytes[2]; Some((low + 256 * mid + 65536 * high, bytes[3..]))
  }

  /** `decode_delta`: fails where the subtraction or the addition of the source would overflow 32 bits. */
  function GetDelta(prev: nat, bytes: seq<Byte>): Option<(nat, seq<Byte>)> {
    match Get3(bytes)
    case None => None
    case Some((code, rest)) =>
      var delta := code / 2;
      if code % 2 == 1 then (if delta > prev then None else Some((prev - delta, rest)))
      else if prev + delta >= WORD then None
      else Some((prev + delta, rest))
  }

  function GetTerm(prev: Term, bytes: seq<Byte>): Option<(Term, seq<Byte>)> {
    match GetDelta(prev.g, bytes)
    case None => None
    case Some((g, a)) =>
      match GetDelta(prev.h0, a)
      case None => None
      case Some((h0, b)) =>
        match GetDelta(prev.h1, b)
        case None => None
        case Some((h1, c)) =>
          match Get3(c)
          case None => None
          case Some((k, d)) => Some((Term(g, h0, h1, k), d))
  }

  /** n terms, the first relative to prev. */
  function GetTerms(prev: Term, bytes: seq<Byte>, n: nat): Option<(seq<Term>, seq<Byte>)>
    decreases n
  {
    if n == 0 then Some(([], bytes))
    else
      match GetTerm(prev, bytes)
      case None => None
      case Some((t, rest)) =>
        match GetTerms(t, rest, n - 1)
        case None => None
        case Some((ts, after)) => Some(([t] + ts, after))
  }

  ghost predicate WordTerm(t: Term) {
    t.g < WORD && t.h0 < WORD && t.h1 < WORD
  }

  ghost predicate WordTerms(ts: seq<Term>) {
    forall i :: 0 <= i < |ts| ==> WordTerm(ts[i])
  }

  lemma {:induction false} ExpandedInWords(deltas: seq<Delta>, list: seq<nat>, prev: Term)
    ensures WordTerms(Expanded(deltas, list, prev))
  {
    if |list| > 0 {
      ExpandedInWords(deltas, list[1..], NextTerm(prev, Entry(deltas, list[0])));
    }
  }

  lemma Get3RoundTrip(v: nat, tail: seq<Byte>)
    requires v < SIZE_LIMIT
    ensures Get3(Put3(v).value + tail) == Some((v, tail))
  {
    var bytes := Put3(v).value;
    assert (bytes + tail)[3..] == tail;
  }

  /** A delta reads back without overflow or underflow, whatever the values. */
  lemma DeltaRoundTrip(v: nat, prev: nat, tail: seq<Byte>)
    requires v < WORD && DeltaCode(v, prev) < SIZE_LIMIT
    ensures GetDelta(prev, Put3(DeltaCode(v, prev)).value + tail) == Some((v, tail))
  {
    Get3RoundTrip(DeltaCode(v, prev), tail);
  }

  lemma TermRoundTrip(t: Term, prev: Term, tail: seq<Byte>)
    requires WordTerm(t) && PutTerm(t, prev).Some?
    ensures GetTerm(prev, PutTerm(t, prev).value + tail) == Some((t, tail))
  {
    var a, b := Put3(DeltaCode(t.g, prev.g)).value, Put3(DeltaCode(t.h0, prev.h0)).value;
    var c, d := Put3(DeltaCode(t.h1, prev.h1)).value, Put3(t.k).value;
    FourParts(a, b, c, d, tail);
    DeltaRoundTrip(t.g, prev.g, b + (c + (d + tail)));
    DeltaRoundTrip(t.h0, prev.h0, c + (d + tail));
    DeltaRoundTrip(t.h1, prev.h1, d + tail);
    Get3RoundTrip(t.k, tail);
    GetParts(prev, t, PutTerm(t, prev).value + tail, b + (c + (d + tail)), c + (d + tail), d + tail, tail);
  }

  lemma FourParts(a: seq<Byte>, b: seq<Byte>, c: seq<Byte>, d: seq<Byte>, tail: seq<Byte>)
    ensures a + b + c + d + tail == a + (b + (c + (d + tail)))
  {
  }

  lemma GetParts(prev: Term, t: Term, bytes: seq<Byte>, x: seq<Byte>, y: seq<Byte>, z: seq<Byte>, tail: seq<Byte>)
    requires GetDelta(prev.g, bytes) == Some((t.g, x)) && GetDelta(prev.h0, x) == Some((t.h0, y))
    requires GetDelta(prev.h1, y) == Some((t.h1, z)) && Get3(z) == Some((t.k, tail))
    ensures GetTerm(prev, bytes) == Some((t, tail))
  {
  }

  lemma Put3Value(v: nat)
    requires v < SIZE_LIMIT
    ensures FromLittleEndian(Put3(v).value) == v
  {
    var bytes := Put3(v).value;
    assert bytes[1..] == [v / 256 % 256, v / 65536] && bytes[2..] == [v / 65536];
    assert bytes[1..][1..] == bytes[2..] && bytes[2..][1..] == [];
    var q := v / 256;
    assert q / 256 == v / 65536 && FromLittleEndian(bytes[2..]) == q / 256 && FromLittleEndian(bytes[1..]) == q;
  }

  /** A difference as it is written: twice its size, plus one if it is negative. */
  ghost predicate WritesDelta(bytes: seq<Byte>, v: nat, prev: nat) {
    FromLittleEndian(bytes) == if v >= prev then 2 * (v - prev) else 2 * (prev - v) + 1
  }

  /** The twelve bytes of a term: gate, left wire, right wire and constant, three bytes each. */
  lemma TermBytes(t: Term, prev: Term)
    requires PutTerm(t, prev).Some?
    ensures var bytes := PutTerm(t, prev).value;
      && |bytes| == 12
      && WritesDelta(bytes[..3], t.g, prev.g) && WritesDelta(bytes[3..6], t.h0, prev.h0)
      && WritesDelta(bytes[6..9], t.h1, prev.h1) && FromLittleEndian(bytes[9..]) == t.k
  {
    var a, b := Put3(DeltaCode(t.g, prev.g)).value, Put3(DeltaCode(t.h0, prev.h0)).value;
    var c, d := Put3(DeltaCode(t.h1, prev.h1)).value, Put3(t.k).value;
    FourBlocks(a, b, c, d);
    Put3Value(DeltaCode(t.g, prev.g));
    Put3Value(DeltaCode(t.h0, prev.h0));
    Put3Value(DeltaCode(t.h1, prev.h1));
    Put3Value(t.k);
  }

  lemma FourBlocks(a: seq<Byte>, b: seq<Byte>, c: seq<Byte>, d: seq<Byte>)
    requires |a| == |b| == |c| == |d| == 3
    ensures var all := a + b + c + d; all[..3] == a && all[3..6] == b && all[6..9] == c && all[9..] == d
  {
  }

  lemma {:induction false} TermsRoundTrip(ts: seq<Term>, prev: Term, tail: seq<Byte>)
    requires WordTerms(ts) && PutTerms(ts, prev).Some?
    ensures GetTerms(prev, PutTerms(ts, prev).value + tail, |ts|) == Some((ts, tail))
    decreases |ts|
  {
    if |ts| == 0 {
      assert [] + tail == tail;
    } else {
      var t, rest := ts[0], ts[1..];
      TermsRoundTrip(rest, t, tail);
      TermRoundTrip(t, prev, PutTerms(rest, t).value + tail);
      AppendBytes(PutTerm(t, prev).value, PutTerms(rest, t).value, tail);
      assert ts == [t] + rest;
    }
  }

  // ----- When writing fails -----

  const HALF_LIMIT: nat := 0x80_0000

  /** The difference does not fit the 23 bits left beside the sign. */
  ghost predicate Far(v: nat, prev: nat) {
    v >= prev + HALF_LIMIT || prev >= v + HALF_LIMIT
  }

  ghost predicate AnyFar(ts: seq<Term>, prev: Term) {
    |ts| > 0 && (Far(ts[0].g, prev.g) || Far(ts[0].h0, prev.h0) || Far(ts[0].h1, prev.h1) || AnyFar(ts[1..], ts[0]))
  }

  ghost predicate SmallConstants(ts: seq<Term>) {
    forall i :: 0 <= i < |ts| ==> ts[i].k < SIZE_LIMIT
  }

  /** Only an index that moves by 2^23 or more can make the writing of terms fail. */
  lemma {:induction false} TermsFailExactly(ts: seq<Term>, prev: Term)
    requires SmallConstants(ts)
    ensures PutTerms(ts, prev).None? <==> AnyFar(ts, prev)
    decreases |ts|
  {
    if |ts| > 0 {
      assert ts[0].k < SIZE_LIMIT;
      TermsFailExactly(ts[1..], ts[0]);
    }
  }

  lemma {:induction false} ExpandedConstants(deltas: seq<Delta>, list: seq<nat>, prev: Term, n: nat)
    requires (forall i :: 0 <= i < |deltas| ==> deltas[i].k < n) && 0 < n <= SIZE_LIMIT
    ensures SmallConstants(Expanded(deltas, list, prev))
    decreases |list|
  {
    if |list| > 0 {
      ExpandedConstants(deltas, list[1..], NextTerm(prev, Entry(deltas, list[0])), n);
    }
  }

  // ----- Reading a circuit back -----

  function GetLayer(bytes: seq<Byte>): Option<(Layer, seq<Byte>)> {
    match Get3(bytes)
    case None => None
    case Some((logw, a)) =>
      match Get3(a)
      case None => None
      case Some((numWires, b)) =>
        match Get3(b)
        case None => None
        case Some((n, c)) =>
          match GetTerms(ORIGIN, c, n)
          case None => None
          case Some((terms, d)) => Some((Layer(logw, numWires, terms), d))
  }

  function GetLayers(bytes: seq<Byte>, n: nat): Option<(seq<Layer>, seq<Byte>)>
    decreases n
  {
    if n == 0 then Some(([], bytes))
    else
      match GetLayer(bytes)
      case None => None
      case Some((layer, rest)) =>
        match GetLayers(rest, n - 1)
        case None => None
        case Some((layers, after)) => Some(([layer] + layers, after))
  }

  function GetSizes(bytes: seq<Byte>, n: nat): Option<(seq<nat>, seq<Byte>)>
    decreases n
  {
    if n == 0 then Some(([], bytes))
    else
      match Get3(bytes)
      case None => None
      case Some((v, rest)) =>
        match GetSizes(rest, n - 1)
        case None => None
        case Some((vs, after)) => Some(([v] + vs, after))
  }

  /** n field elements of `size` bytes; a decoder rejects those that are not canonical. */
  function GetElements(bytes: seq<Byte>, size: nat, canonical: seq<Byte> -> bool, n: nat): Option<(seq<seq<Byte>>,
                       seq<Byte>)>
    decreases n
  {
    if n == 0 then Some(([], bytes))
    else if |bytes| < size || !canonical(bytes[..size]) then None
    else
      match GetElements(bytes[size..], size, canonical, n - 1)
      case None => None
      case Some((es, after)) => Some(([bytes[..size]] + es, after))
  }

  /** `Circuit::decode` for the field with the given identifier. */
  function GetCircuit(bytes: seq<Byte>, fieldId: nat, size: nat, canonical: seq<Byte> -> bool): Option<(Circuit,
                      seq<Byte>)> {
    if |bytes| == 0 then None
    else
      match GetSizes(bytes[1..], 8)
      case None => None
      case Some((v, a)) =>
        if |v| != 8 || v[0] != fieldId then None
        else
          match GetElements(a, size, canonical, v[7])
          case None => None
          case Some((constants, b)) =>
            match GetLayers(b, v[6])
            case None => None
            case Some((layers, c)) =>
              if |c| < 32 then None
              else Some((Circuit(v[0], v[1], v[2], v[3], v[4], v[5], constants, layers, c[..32]), c[32..]))
  }

  lemma LayerRoundTrip(layer: Layer, tail: seq<Byte>)
    requires WordTerms(layer.terms) && PutLayer(layer).Some?
    ensures GetLayer(PutLayer(layer).value + tail) == Some((layer, tail))
  {
    var a, b, c := Put3(layer.logw).value, Put3(layer.numWires).value, Put3(|layer.terms|).value;
    var d := PutTerms(layer.terms, ORIGIN).value;
    assert PutLayer(layer).value + tail == a + (b + (c + (d + tail)));
    Get3RoundTrip(layer.logw, b + (c + (d + tail)));
    Get3RoundTrip(layer.numWires, c + (d + tail));
    Get3RoundTrip(|layer.terms|, d + tail);
    TermsRoundTrip(layer.terms, ORIGIN, tail);
  }

  ghost predicate WordLayers(layers: seq<Layer>) {
    forall i :: 0 <= i < |layers| ==> WordTerms(layers[i].terms)
  }

  lemma {:induction false} LayersRoundTrip(layers: seq<Layer>, tail: seq<Byte>)
    requires WordLayers(layers) && PutLayers(layers).Some?
    ensures GetLayers(PutLayers(layers).value + tail, |layers|) == Some((layers, tail))
  {
    if |layers| == 0 {
      assert [] + tail == tail;
    } else {
      LayersRoundTrip(layers[1..], tail);
      LayerRoundTrip(layers[0], PutLayers(layers[1..]).value + tail);
      AppendBytes(PutLayer(layers[0]).value, PutLayers(layers[1..]).value, tail);
      var rest := PutLayers(layers[1..]).value + tail;
      GetLayersNext(PutLayers(layers).value + tail, layers[0], rest, layers[1..], tail);
      assert layers == [layers[0]] + layers[1..];
    }
  }

  lemma GetLayersNext(bytes: seq<Byte>, layer: Layer, rest: seq<Byte>, layers: seq<Layer>, tail: seq<Byte>)
    requires GetLayer(bytes) == Some((layer, rest)) && GetLayers(rest, |layers|) == Some((layers, tail))
    ensures GetLayers(bytes, |layers| + 1) == Some(([layer] + layers, tail))
  {
  }

  lemma {:induction false} SizesRoundTrip(sizes: seq<nat>, tail: seq<Byte>)
    requires PutSizes(sizes).Some?
    ensures GetSizes(PutSizes(sizes).value + tail, |sizes|) == Some((sizes, tail))
  {
    if |sizes| == 0 {
      assert [] + tail == tail;
    } else {
      SizesRoundTrip(sizes[1..], tail);
      Get3RoundTrip(sizes[0], PutSizes(sizes[1..]).value + tail);
      AppendBytes(Put3(sizes[0]).value, PutSizes(sizes[1..]).value, tail);
      assert sizes == [sizes[0]] + sizes[1..];
    }
  }

  ghost predicate CanonicalElements(es: seq<seq<Byte>>, size: nat, canonical: seq<Byte> -> bool) {
    forall i :: 0 <= i < |es| ==> |es[i]| == size && canonical(es[i])
  }

  lemma SplitFirst(a: seq<Byte>, b: seq<Byte>, tail: seq<Byte>)
    ensures (a + b + tail)[..|a|] == a && (a + b + tail)[|a|..] == b + tail
  {
  }

  lemma {:induction false} ElementsRoundTrip(es: seq<seq<Byte>>, size: nat, canonical: seq<Byte> -> bool,
                                             tail: seq<Byte>)
    requires CanonicalElements(es, size, canonical)
    ensures GetElements(Concat(es) + tail, size, canonical, |es|) == Some((es, tail))
  {
    if |es| == 0 {
      assert [] + tail == tail;
    } else {
      ElementsRoundTrip(es[1..], size, canonical, tail);
      SplitFirst(es[0], Concat(es[1..]), tail);
      assert es == [es[0]] + es[1..];
    }
  }

  /** The LFC1 decoder reads the converter's output back, exactly, as the circuit with the expanded terms. */
  lemma CircuitRoundTrip(c: Circuit, size: nat, canonical: seq<Byte> -> bool, tail: seq<Byte>)
    requires PutCircuit(c).Some? && WordLayers(c.layers) && CanonicalElements(c.constants, size, canonical)
      && |c.id| == 32
    ensures GetCircuit(PutCircuit(c).value + tail, c.fieldId, size, canonical) == Some((c, tail))
  {
    var sizes, constants, layers := PutSizes(Sizes(c)).value, Concat(c.constants), PutLayers(c.layers).value;
    var all := PutCircuit(c).value + tail;
    Associate([1], sizes, constants, layers, c.id, tail);
    assert all[1..] == sizes + (constants + (layers + (c.id + tail)));
    SizesRoundTrip(Sizes(c), constants + (layers + (c.id + tail)));
    ElementsRoundTrip(c.constants, size, canonical, layers + (c.id + tail));
    LayersRoundTrip(c.layers, c.id + tail);
    assert (c.id + tail)[..32] == c.id && (c.id + tail)[32..] == tail;
  }

  // ----- Converting a circuit -----

  /** What a layer stands for. */
  ghost function ExpandedLayer(layer: Lfc2Layer): Layer {
    Layer(layer.logw, layer.numWires, TermsOf(layer))
  }

  ghost function ExpandedLayers(layers: seq<Lfc2Layer>): (r: seq<Layer>)
    ensures |r| == |layers|
  {
    seq(|layers|, i requires 0 <= i < |layers| => ExpandedLayer(layers[i]))
  }

  /** The circuit that an LFC2 circuit stands for. */
  ghost function ExpandedCircuit(c: Lfc2Circuit): Circuit {
    Circuit(c.fieldId, c.numOutputs, 1, c.numPublicInputs, c.subfieldBoundary, c.numInputs, c.constants,
      ExpandedLayers(c.layers), c.id)
  }

  /** A decoded layer has the terms of an LFC2 layer, for the entries that its tokens list. */
  ghost predicate LayerMeans(layer: Lfc2Layer, decoded: Layer) {
    && TokensReadable(layer) && decoded.logw == layer.logw && decoded.numWires == layer.numWires
    && exists entries :: AreTermsOf(layer, entries, decoded.terms)
  }

  /** A decoded circuit is what an LFC2 circuit describes, field by field. */
  ghost predicate Means(c: Lfc2Circuit, decoded: Circuit) {
    && decoded.fieldId == c.fieldId && decoded.numOutputs == c.numOutputs && decoded.numCopies == 1
    && decoded.numPublicInputs == c.numPublicInputs && decoded.subfieldBoundary == c.subfieldBoundary
    && decoded.numInputs == c.numInputs && decoded.constants == c.constants && decoded.id == c.id
    && |decoded.layers| == |c.layers|
    && forall j :: 0 <= j < |c.layers| ==> LayerMeans(c.layers[j], decoded.layers[j])
  }

  lemma ExpandedCircuitMeans(c: Lfc2Circuit)
    requires CircuitReadable(c)
    ensures Means(c, ExpandedCircuit(c))
  {
    forall j | 0 <= j < |c.layers| ensures LayerMeans(c.layers[j], ExpandedCircuit(c).layers[j]) {
      assert Readable(c.layers[j], |c.constants|);
      ExpansionMeans(c.layers[j]);
    }
  }

  lemma ExpandedLayersInWords(layers: seq<Lfc2Layer>)
    ensures WordLayers(ExpandedLayers(layers))
  {
    forall i | 0 <= i < |layers| ensures WordTerms(ExpandedLayers(layers)[i].terms) {
      ExpandedInWords(layers[i].deltas, Flat(layers[i], layers[i].tokens), ORIGIN);
    }
  }

  // ----- When a circuit can be converted -----

  /** The number of terms of all layers. */
  ghost function TermCount(layers: seq<Lfc2Layer>): nat {
    if |layers| == 0 then 0 else TermCount(layers[..|layers| - 1]) + |TermsOf(layers[|layers| - 1])|
  }

  /** After `head` bytes, the layers stay within the output budget, and no index moves too far. */
  ghost predicate Fits(head: nat, layers: seq<Lfc2Layer>) {
    && (|layers| > 0 ==> head + 9 * (|layers| - 1) + 12 * TermCount(layers) <= MAX_OUT_BYTES)
    && NoneFar(layers)
  }

  ghost predicate NoneFar(layers: seq<Lfc2Layer>) {
    forall i :: 0 <= i < |layers| ==> !AnyFar(TermsOf(layers[i]), ORIGIN)
  }

  /** The limit on the number of terms does not appear here, because the output budget is reached first. */
  ghost predicate Convertible(c: Lfc2Circuit) {
    Fits(HEAD_BYTES + |Concat(c.constants)|, c.layers)
  }

  lemma {:induction false} TermCountPrefix(layers: seq<Lfc2Layer>, i: nat)
    requires i <= |layers|
    ensures TermCount(layers[..i]) <= TermCount(layers)
    decreases |layers|
  {
    if i < |layers| {
      assert layers[..|layers| - 1][..i] == layers[..i];
      TermCountPrefix(layers[..|layers| - 1], i);
    } else {
      assert layers[..i] == layers;
    }
  }

  lemma FitsPrefix(head: nat, layers: seq<Lfc2Layer>, i: nat)
    requires i <= |layers| && Fits(head, layers)
    ensures Fits(head, layers[..i])
  {
    TermCountPrefix(layers, i);
  }

  lemma FitsNext(head: nat, layers: seq<Lfc2Layer>, layer: Lfc2Layer)
    requires Fits(head, layers)
    ensures TermCount(layers + [layer]) == TermCount(layers) + |TermsOf(layer)|
    ensures Fits(head, layers + [layer])
      <==> head + 9 * |layers| + 12 * TermCount(layers + [layer]) <= MAX_OUT_BYTES && !AnyFar(TermsOf(layer), ORIGIN)
  {
    var all := layers + [layer];
    assert all[..|all| - 1] == layers && all[|layers|] == layer;
    NoneFarNext(layers, layer);
  }

  lemma NoneFarNext(layers: seq<Lfc2Layer>, layer: Lfc2Layer)
    ensures NoneFar(layers + [layer]) <==> NoneFar(layers) && !AnyFar(TermsOf(layer), ORIGIN)
  {
    var all := layers + [layer];
    assert all[|layers|] == layer;
    if NoneFar(all) {
      forall i | 0 <= i < |layers| ensures !AnyFar(TermsOf(layers[i]), ORIGIN) {
        assert all[i] == layers[i];
      }
    }
  }

  lemma HeaderFits(c: Circuit)
    requires c.fieldId < SIZE_LIMIT && c.numOutputs < SIZE_LIMIT && c.numCopies < SIZE_LIMIT
      && c.numPublicInputs < SIZE_LIMIT
    requires c.subfieldBoundary < SIZE_LIMIT && c.numInputs < SIZE_LIMIT && |c.layers| < SIZE_LIMIT
      && |c.constants| < SIZE_LIMIT
    ensures PutSizes(Sizes(c)).Some?
  {
    SizesFit(Sizes(c));
  }

  lemma {:induction false} SizesFit(sizes: seq<nat>)
    requires forall i :: 0 <= i < |sizes| ==> sizes[i] < SIZE_LIMIT
    ensures PutSizes(sizes).Some?
  {
    if |sizes| > 0 {
      SizesFit(sizes[1..]);
    }
  }

  lemma {:induction false} PutLayersAppend(layers: seq<Layer>, last: Layer)
    ensures PutLayers(layers + [last]) == Join(PutLayers(layers), PutLayer(last))
  {
    var all := layers + [last];
    if |layers| == 0 {
      assert all[1..] == [] && all[0] == last;
      if PutLayer(last).Some? {
        assert PutLayer(last).value + [] == PutLayer(last).value == [] + PutLayer(last).value;
      }
    } else {
      assert all[1..] == layers[1..] + [last];
      PutLayersAppend(layers[1..], last);
      if PutLayer(layers[0]).Some? && PutLayers(layers[1..]).Some? && PutLayer(last).Some? {
        AppendBytes(PutLayer(layers[0]).value, PutLayers(layers[1..]).value, PutLayer(last).value);
      }
    }
  }

  lemma LayersNext(head: seq<Byte>, out: seq<Byte>, layers: seq<Lfc2Layer>, layer: Lfc2Layer)
    requires Some(out) == Join(Some(head), PutLayers(ExpandedLayers(layers)))
    ensures Join(Some(head), PutLayers(ExpandedLayers(layers + [layer])))
      == Join(Some(out), PutLayer(ExpandedLayer(layer)))
  {
    assert ExpandedLayers(layers + [layer]) == ExpandedLayers(layers) + [ExpandedLayer(layer)];
    PutLayersAppend(ExpandedLayers(layers), ExpandedLayer(layer));
    if PutLayer(ExpandedLayer(layer)).Some? {
      AppendBytes(head, PutLayers(ExpandedLayers(layers)).value, PutLayer(ExpandedLayer(layer)).value);
    }
  }

  lemma CircuitBytes(c: Circuit, out: seq<Byte>)
    requires PutSizes(Sizes(c)).Some? && PutLayers(c.layers).Some?
    requires out == [1] + PutSizes(Sizes(c)).value + Concat(c.constants) + PutLayers(c.layers).value
    ensures PutCircuit(c) == Some(out + c.id)
  {
    var a, b, d := PutSizes(Sizes(c)).value, Concat(c.constants), PutLayers(c.layers).value;
    Associate([1], a, b, d, c.id, []);
  }

  lemma Associate(a: seq<Byte>, b: seq<Byte>, c: seq<Byte>, d: seq<Byte>, e: seq<Byte>, tail: seq<Byte>)
    ensures a + (b + (c + (d + e))) == a + b + c + d + e
    ensures (a + (b + (c + (d + e)))) + tail == a + (b + (c + (d + (e + tail))))
  {
  }

  /** With the limits that the reader enforces, terms can only fail to be written because of a far index. */
  lemma LayerFailsExactly(layer: Lfc2Layer, numConstants: nat)
    requires Readable(layer, numConstants) && numConstants <= MAX_CONSTANTS
    ensures PutTerms(TermsOf(layer), ORIGIN).None? <==> AnyFar(TermsOf(layer), ORIGIN)
  {
    ExpandedConstants(layer.deltas, Flat(layer, layer.tokens), ORIGIN, MAX_CONSTANTS);
    TermsFailExactly(TermsOf(layer), ORIGIN);
  }

  // ----- The conversion -----

  /** The bytes of the header before the constants: the version and eight sizes. */
  const HEAD_BYTES: nat := 25

  /** After reading and writing some layers: the cursor, what is written after `head`, and the number of terms. */
  ghost predicate Progress(b: seq<Byte>, k: nat, start: nat, layers: seq<Lfc2Layer>, p: nat, head: seq<Byte>,
                           out: seq<Byte>, total: nat) {
    && ListAt(Layers(b, k), start, |layers|) == Some(Found(layers, p))
    && (forall i :: 0 <= i < |layers| ==> Readable(layers[i], k))
    && Written(layers, head, out, total)
  }

  ghost predicate Written(layers: seq<Lfc2Layer>, head: seq<Byte>, out: seq<Byte>, total: nat) {
    && Some(out) == Join(Some(head), PutLayers(ExpandedLayers(layers)))
    && total == TermCount(layers) && |out| == |head| + 9 * |layers| + 12 * total
    && Fits(|head|, layers)
  }

  /** No circuit with n layers can be read from here and converted. */
  ghost predicate Fails(b: seq<Byte>, k: nat, start: nat, n: nat, head: seq<Byte>) {
    var all := ListAt(Layers(b, k), start, n);
    all.Some? ==> !Fits(|head|, all.value.value)
  }

  lemma PrefixFails(b: seq<Byte>, k: nat, start: nat, i: nat, n: nat, head: seq<Byte>)
    requires i <= n && Fails(b, k, start, i, head)
    ensures Fails(b, k, start, n, head)
  {
    var all := ListAt(Layers(b, k), start, n);
    ListPrefix(Layers(b, k), start, i, n);
    if all.Some? && Fits(|head|, all.value.value) {
      FitsPrefix(|head|, all.value.value, i);
    }
  }

  /** The bytes of one layer fit exactly if the longer list of layers does. */
  lemma WrittenNext(layers: seq<Lfc2Layer>, layer: Lfc2Layer, k: nat, head: seq<Byte>, out: seq<Byte>, total: nat)
    requires Written(layers, head, out, total) && Readable(layer, k) && k <= MAX_CONSTANTS
    ensures var n := |TermsOf(layer)|;
      Fits(|head|, layers + [layer])
      <==> !(n + total > MAX_TERMS || 12 * n + |out| > MAX_OUT_BYTES || PutTerms(TermsOf(layer), ORIGIN).None?)
    ensures Fits(|head|, layers + [layer]) && Join(Some(out), PutLayer(ExpandedLayer(layer))).Some?
      ==>
        Written(layers + [layer], head, Join(Some(out), PutLayer(ExpandedLayer(layer))).value, total + |TermsOf(layer)|)
  {
    FitsNext(|head|, layers, layer);
    LayerFailsExactly(layer, k);
    LayersNext(head, out, layers, layer);
  }

  /** One turn of the loop over the layers: read a layer and write it. */
  method OneLayer(rd: Rd, k: nat, ghost start: nat, ghost n: nat, ghost layers: seq<Lfc2Layer>, ghost head: seq<Byte>,
                  out: seq<Byte>, total: nat)
      returns (r: Option<(seq<Byte>, nat)>, ghost all: seq<Lfc2Layer>)
    requires rd.Valid() && |layers| < n && k <= MAX_CONSTANTS
      && Progress(rd.b, k, start, layers, rd.p, head, out, total)
    modifies rd
    ensures rd.Valid() && (r.None? ==> Fails(rd.b, k, start, n, head))
    ensures r.Some? ==> |all| == |layers| + 1 && Progress(rd.b, k, start, all, rd.p, head, r.value.0, r.value.1)
  {
    ListNext(Layers(rd.b, k), start, layers, rd.p, LayerAt(rd.b, rd.p, k), n);
    all := layers;
    var layer :- ReadLayer(rd, k);
    all := layers + [layer];
    WrittenNext(layers, layer, k, head, out, total);
    var written, after := WriteLayer(layer, out, total, k);
    if written.None? {
      PrefixFails(rd.b, k, start, |all|, n, head);
      return None, all;
    }
    r := Some((written.value, after));
  }

  /** `put3` of every field of the header, and the constants. */
  function Head(h: Header): Option<seq<Byte>> {
    Join(
      Join(Some([1]), PutSizes([
        h.fieldId, h.sizes.numOutputs, 1, h.sizes.numPublicInputs, h.sizes.subfieldBoundary, h.sizes.numInputs,
          h.sizes.numLayers,
        |h.constants|])),
      Some(Concat(h.constants)))
  }

  lemma {:induction false} SizesLength(sizes: seq<nat>)
    ensures PutSizes(sizes).Some? ==> |PutSizes(sizes).value| == 3 * |sizes|
  {
    if |sizes| > 0 {
      SizesLength(sizes[1..]);
    }
  }

  lemma HeadFits(h: Header, layers: seq<Lfc2Layer>, id: seq<Byte>)
    requires HeaderReadable(h) && |layers| == h.sizes.numLayers
    ensures Head(h).Some? && |Head(h).value| == HEAD_BYTES + |Concat(h.constants)|
    ensures PutSizes(Sizes(ExpandedCircuit(CircuitOf(h, layers, id)))).Some?
    ensures Head(h).value
      == [1] + PutSizes(Sizes(ExpandedCircuit(CircuitOf(h, layers, id)))).value + Concat(h.constants)
  {
    var c := ExpandedCircuit(CircuitOf(h, layers, id));
    HeaderFits(c);
    SizesLength(Sizes(c));
  }

  /** The loop over the layers. */
  method AllLayers(rd: Rd, k: nat, n: nat, head: seq<Byte>) returns (r: Option<seq<Byte>>, ghost layers: seq<Lfc2Layer>)
    requires rd.Valid() && k <= MAX_CONSTANTS
    modifies rd
    ensures rd.Valid() && (r.None? ==> Fails(rd.b, k, old(rd.p), n, head))
    ensures r.Some? ==> |layers| == n && Progress(rd.b, k, old(rd.p), layers, rd.p, head, r.value, TermCount(layers))
  {
    var out, total := head, 0;
    layers := [];
    assert head + [] == head;
    for i := 0 to n
      invariant rd.Valid() && |layers| == i && Progress(rd.b, k, old(rd.p), layers, rd.p, head, out, total)
    {
      var turn;
      turn, layers := OneLayer(rd, k, old(rd.p), n, layers, head, out, total);
      if turn.None? {
        return None, layers;
      }
      out, total := turn.value.0, turn.value.1;
    }
    r := Some(out);
  }

  /**
   `one`: it succeeds exactly when the input starts with an LFC2 circuit that fits the output budget and in which no
   index moves by 2^23 or more. The result is the LFC1 encoding of the expanded circuit and the number of bytes read.
   */
  method One(input: seq<Byte>) returns (r: Option<(seq<Byte>, nat)>)
    ensures r.Some? <==> CircuitAt(input).Some? && Convertible(CircuitAt(input).value.value)
    ensures r.Some? ==>
      var found := CircuitAt(input).value;
      CircuitReadable(found.value) && Some(r.value.0) == PutCircuit(ExpandedCircuit(found.value))
        && r.value.1 == found.next <= |input|
    ensures r.Some? ==> var c := CircuitAt(input).value.value; Means(c, ExpandedCircuit(c))
  {
    var rd := new Rd(input, 0);
    var h :- ReadHeader(rd);
    ghost var start := rd.p;
    HeadFits(h, seq(h.sizes.numLayers, _ => Lfc2Layer(0, 0, [], [], [])), []);
    var out, layers := AllLayers(rd, |h.constants|, h.sizes.numLayers, Head(h).value);
    if out.None? {
      return None;
    }
    var id :- rd.Take(ID_BYTES);
    ghost var c := CircuitOf(h, layers, id);
    assert CircuitAt(input) == Some(Found(c, rd.p));
    HeadFits(h, layers, id);
    CircuitBytes(ExpandedCircuit(c), out.value);
    ExpandedCircuitMeans(c);
    r := Some((out.value + id, rd.p));
  }

  lemma OtherFieldRejected(c: Circuit, fieldId: nat, size: nat, canonical: seq<Byte> -> bool)
    requires PutCircuit(c).Some? && fieldId != c.fieldId
    ensures GetCircuit(PutCircuit(c).value, fieldId, size, canonical) == None
  {
    var sizes, constants, layers := PutSizes(Sizes(c)).value, Concat(c.constants), PutLayers(c.layers).value;
    SizesRoundTrip(Sizes(c), constants + (layers + c.id));
    assert PutCircuit(c).value[1..] == sizes + (constants + (layers + c.id));
  }

  /** All constants of the circuit at the start of the input are canonical encodings. */
  ghost predicate CanonicalConstants(input: seq<Byte>, canonical: seq<Byte> -> bool) {
    CircuitAt(input).Some? ==>
      var constants := CircuitAt(input).value.value.constants;
      forall i :: 0 <= i < |constants| ==> canonical(constants[i])
  }

  /**
   If the conversion succeeds and the constants are canonical, decoding for the field of the circuit gives the expanded
   circuit and consumes everything; decoding for another field fails. The terms of that circuit are the sums of the
   differences that the tokens list.
   */
  method ConvertThenDecode(input: seq<Byte>, fieldId: nat, canonical: seq<Byte> -> bool)
      returns (ok: bool, decoded: Option<(Circuit, seq<Byte>)>)
    requires ElementSize(fieldId).Some? && CanonicalConstants(input, canonical)
    ensures ok <==> CircuitAt(input).Some? && Convertible(CircuitAt(input).value.value)
    ensures ok ==>
      var c := ExpandedCircuit(CircuitAt(input).value.value);
      decoded == if fieldId == c.fieldId then Some((c, [])) else None
    ensures ok ==> var c := CircuitAt(input).value.value;
      (decoded.Some? <==> fieldId == c.fieldId)
        && (decoded.Some? ==> Means(c, decoded.value.0) && decoded.value.1 == [])
  {
    var r := One(input);
    ok := r.Some?;
    decoded := None;
    if ok {
      var size := ElementSize(fieldId).value;
      decoded := GetCircuit(r.value.0, fieldId, size, canonical);
      ghost var c := CircuitAt(input).value.value;
      ExpandedLayersInWords(c.layers);
      ExpandedCircuitMeans(c);
      if fieldId == c.fieldId {
        CircuitRoundTrip(ExpandedCircuit(c), size, canonical, []);
        assert r.value.0 + [] == r.value.0;
      } else {
        OtherFieldRejected(ExpandedCircuit(c), fieldId, size, canonical);
      }
    }
  }

  // ----- A pair of circuits -----

  /** The circuit that an input starts with can be converted. */
  ghost predicate CanConvert(input: seq<Byte>) {
    CircuitAt(input).Some? && Convertible(CircuitAt(input).value.value)
  }

  /** The LFC1 bytes of that circuit. */
  ghost function Converted(input: seq<Byte>): Option<seq<Byte>> {
    var c :- CircuitAt(input);
    PutCircuit(ExpandedCircuit(c.value))
  }

  /** Two circuits, one after the other, with nothing after them, whose conversions fit the output budget together. */
  ghost predicate IsPair(artifact: seq<Byte>) {
    && CanConvert(artifact)
    && var used := CircuitAt(artifact).value.next;
       && used <= |artifact|
       && var rest := artifact[used..];
          && CanConvert(rest) && CircuitAt(rest).value.next == |rest|
          && Join(Converted(artifact), Converted(rest)).Some?
          && |Join(Converted(artifact), Converted(rest)).value| <= MAX_OUT_BYTES
          && |Converted(artifact).value| <= MAX_OUT_BYTES
  }

  /** `to_legacy_pair`: it succeeds exactly for a pair of circuits, and gives both conversions. */
  method ToLegacyPair(artifact: seq<Byte>) returns (r: Option<seq<Byte>>)
    ensures r.Some? <==> IsPair(artifact)
    ensures r.Some? ==> r == Join(Converted(artifact), Converted(artifact[CircuitAt(artifact).value.next..]))
  {
    var first :- One(artifact);
    var bytes, used := first.0, first.1;
    if |bytes| > MAX_OUT_BYTES {
      return None;
    }
    var rest := artifact[used..];
    var second :- One(rest);
    if |bytes| + |second.0| > MAX_OUT_BYTES || used + second.1 != |artifact| {
      return None;
    }
    r := Some(bytes + second.0);
  }
}
