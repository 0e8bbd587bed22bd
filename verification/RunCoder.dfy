/**
 The run-length coder for the columns of a Ligero proof (src/ligero/prover.rs, section 7.4 of
 draft-google-cfrg-libzk-01): runs of elements alternate between full and subfield encodings, each after its length.
 */
module RunCoder {
  import opened Options
  import opened Bytes

  const MAX_RUN_LENGTH: nat := 0x200_0000

  const RUN_LENGTH_BYTES: nat := 4

  /** Encodings of elements, in the field and in the subfield. */
  datatype Codec<!E> = Codec(
    inSubfield: E -> bool,
    size: nat,
    encode: E -> seq<Byte>,
    decode: seq<Byte> -> Option<E>,
    subfieldSize: nat,
    encodeInSubfield: E -> Option<seq<Byte>>,
    decodeInSubfield: seq<Byte> -> Option<E>)

  ghost predicate CodecAt<E>(C: Codec<E>, e: E) {
    && |C.encode(e)| == C.size && C.decode(C.encode(e)) == Some(e)
    && (C.encodeInSubfield(e).Some? <==> C.inSubfield(e))
    && (C.inSubfield(e) ==>
          |C.encodeInSubfield(e).value| == C.subfieldSize && C.decodeInSubfield(C.encodeInSubfield(e).value) == Some(e))
  }

  ghost predicate GoodCodec<E(!new)>(C: Codec<E>) {
    forall e: E :: CodecAt(C, e)
  }

  // ----- Run lengths -----

  /** How many elements are of the kind of the run; the counting loop does not stop at the first other element. */
  function Matches<E>(C: Codec<E>, es: seq<E>, sub: bool): (n: nat)
    ensures n <= |es|
  {
    if |es| == 0 then 0
    else
      var last := |es| - 1;
      Matches(C, es[..last], sub) + if C.inSubfield(es[last]) == sub then 1 else 0
  }

  function Capped(n: nat): nat {
    if n < MAX_RUN_LENGTH then n else MAX_RUN_LENGTH
  }

  function RunLength<E>(C: Codec<E>, es: seq<E>, sub: bool): (n: nat)
    ensures n <= |es|
  {
    Capped(Matches(C, es, sub))
  }

  lemma {:induction false} MatchesAddUp<E>(C: Codec<E>, es: seq<E>)
    ensures Matches(C, es, false) + Matches(C, es, true) == |es|
  {
    if |es| > 0 {
      MatchesAddUp(C, es[..|es| - 1]);
    }
  }

  method CountRun<E>(C: Codec<E>, es: seq<E>, sub: bool) returns (n: nat)
    ensures n == RunLength(C, es, sub)
  {
    n := 0;
    for i := 0 to |es|
      invariant n == Capped(Matches(C, es[..i], sub))
    {
      if n == MAX_RUN_LENGTH {
        MatchesGrow(C, es, i, sub);
        break;
      }
      assert es[..i + 1][..i] == es[..i];
      if C.inSubfield(es[i]) == sub {
        n := n + 1;
      }
    }
    assert es[..|es|] == es;
  }

  lemma {:induction false} MatchesGrow<E>(C: Codec<E>, es: seq<E>, i: nat, sub: bool)
    requires i <= |es|
    ensures Matches(C, es[..i], sub) <= Matches(C, es, sub)
    decreases |es| - i
  {
    if i < |es| {
      MatchesGrow(C, es, i + 1, sub);
      assert es[..i + 1][..i] == es[..i];
    } else {
      assert es[..i] == es;
    }
  }

  // ----- Encoding -----

  function EncodeElement<E>(C: Codec<E>, e: E, sub: bool): Option<seq<Byte>> {
    if sub then C.encodeInSubfield(e) else Some(C.encode(e))
  }

  function EncodeElements<E>(C: Codec<E>, es: seq<E>, sub: bool): Option<seq<Byte>> {
    if |es| == 0 then Some([])
    else
      match (EncodeElement(C, es[0], sub), EncodeElements(C, es[1..], sub))
      case (Some(a), Some(b)) => Some(a + b)
      case _ => None
  }

  /** What the encoder writes for the elements that are left; there are never two empty runs in a row. */
  ghost function EncodeRuns<E>(C: Codec<E>, es: seq<E>, sub: bool): Option<seq<Byte>>
    decreases 2 * |es| + if RunLength(C, es, sub) == 0 then 1 else 0
  {
    if |es| == 0 then Some([])
    else
      var n := RunLength(C, es, sub);
      MatchesAddUp(C, es);
      match (EncodeElements(C, es[..n], sub), EncodeRuns(C, es[n..], !sub))
      case (Some(a), Some(b)) => Some(LittleEndian(n, RUN_LENGTH_BYTES) + a + b)
      case _ => None
  }

  /** The encoding loop of `encode_with_param`: it ends, stays in bounds and writes each element once, in order. */
  method EncodeColumns<E(!new)>(C: Codec<E>, es: seq<E>) returns (r: Option<seq<Byte>>)
    ensures r == EncodeRuns(C, es, false)
  {
    var rest, sub, bytes := es, false, [];
    PrependNothing(EncodeRuns(C, es, sub));
    while |rest| > 0
      invariant EncodeRuns(C, es, false) == Prepend(bytes, EncodeRuns(C, rest, sub))
      decreases |rest|, RunLength(C, rest, sub) == 0
    {
      var n := CountRun(C, rest, sub);
      var run := EncodeElements(C, rest[..n], sub);
      if run.None? {
        return None;
      }
      var written := LittleEndian(n, RUN_LENGTH_BYTES) + run.value;
      EncodeRunsNext(C, rest, sub, n, run.value);
      PrependTwice(bytes, written, EncodeRuns(C, rest[n..], !sub));
      NoTwoEmptyRuns(C, rest, sub);
      bytes, rest, sub := bytes + written, rest[n..], !sub;
    }
    assert bytes + [] == bytes;
    r := Some(bytes);
  }

  lemma NoTwoEmptyRuns<E>(C: Codec<E>, es: seq<E>, sub: bool)
    requires |es| > 0
    ensures RunLength(C, es, sub) == 0 ==> es[RunLength(C, es, sub)..] == es && RunLength(C, es, !sub) > 0
  {
    MatchesAddUp(C, es);
  }

  lemma EncodeRunsNext<E>(C: Codec<E>, es: seq<E>, sub: bool, n: nat, run: seq<Byte>)
    requires |es| > 0 && n == RunLength(C, es, sub) && EncodeElements(C, es[..n], sub) == Some(run)
    ensures EncodeRuns(C, es, sub) == Prepend(LittleEndian(n, RUN_LENGTH_BYTES) + run, EncodeRuns(C, es[n..], !sub))
  {
  }

  ghost function Prepend(a: seq<Byte>, b: Option<seq<Byte>>): Option<seq<Byte>> {
    match b
    case None => None
    case Some(s) => Some(a + s)
  }

  lemma PrependNothing(b: Option<seq<Byte>>)
    ensures Prepend([], b) == b
  {
    match b
    case None =>
    case Some(s) => assert [] + s == s;
  }

  lemma PrependTwice(a: seq<Byte>, b: seq<Byte>, c: Option<seq<Byte>>)
    ensures Prepend(a, Prepend(b, c)) == Prepend(a + b, c)
  {
    match c
    case None =>
    case Some(s) => assert a + (b + s) == (a + b) + s;
  }

  // ----- Decoding -----

  function DecodeElement<E>(C: Codec<E>, bytes: seq<Byte>, sub: bool): Option<E> {
    if sub then C.decodeInSubfield(bytes) else C.decode(bytes)
  }

  /** n elements from the front, and the bytes after them. */
  function DecodeElements<E>(C: Codec<E>, bytes: seq<Byte>, sub: bool, n: nat): Option<(seq<E>, seq<Byte>)> {
    var size := if sub then C.subfieldSize else C.size;
    if n == 0 then Some(([], bytes))
    else if |bytes| < size then None
    else
      match DecodeElement(C, bytes[..size], sub)
      case None => None
      case Some(e) =>
        match DecodeElements(C, bytes[size..], sub, n - 1)
        case None => None
        case Some((es, rest)) => Some(([e] + es, rest))
  }

  /** The decoding loop of `decode_with_param`, with `expected` elements to go. */
  method DecodeColumns<E(!new)>(C: Codec<E>, bytes: seq<Byte>, expected: nat) returns (r: Option<(seq<E>, seq<Byte>)>)
    ensures r == DecodeRuns(C, bytes, false, expected)
    ensures r.Some? ==> |r.value.0| == expected
  {
    var es: seq<E>, sub, rest := [], false, bytes;
    PrependNoElements(DecodeRuns(C, bytes, false, expected));
    while |es| < expected
      invariant |es| <= expected
      invariant DecodeRuns(C, bytes, false, expected) == PrependElements(es, DecodeRuns(C, rest, sub, expected - |es|))
      decreases |rest|
    {
      if |rest| < RUN_LENGTH_BYTES {
        return None;
      }
      var n := FromLittleEndian(rest[..RUN_LENGTH_BYTES]);
      if n > MAX_RUN_LENGTH || n + |es| > expected {
        return None;
      }
      var run := DecodeElements(C, rest[RUN_LENGTH_BYTES..], sub, n);
      if run.None? {
        return None;
      }
      DecodeElementsLength(C, rest[RUN_LENGTH_BYTES..], sub, n);
      PrependElementsTwice(es, run.value.0, DecodeRuns(C, run.value.1, !sub, expected - |es| - n));
      es, sub, rest := es + run.value.0, !sub, run.value.1;
    }
    assert es + [] == es;
    r := Some((es, rest));
  }

  lemma {:induction false} DecodeElementsLength<E>(C: Codec<E>, bytes: seq<Byte>, sub: bool, n: nat)
    ensures var r := DecodeElements(C, bytes, sub, n); r.Some? ==> |r.value.0| == n && |r.value.1| <= |bytes|
    decreases n
  {
    var size := if sub then C.subfieldSize else C.size;
    if n > 0 && |bytes| >= size {
      DecodeElementsLength(C, bytes[size..], sub, n - 1);
    }
  }

  ghost function PrependElements<E>(a: seq<E>, b: Option<(seq<E>, seq<Byte>)>): Option<(seq<E>, seq<Byte>)> {
    match b
    case None => None
    case Some((es, rest)) => Some((a + es, rest))
  }

  lemma PrependNoElements<E>(b: Option<(seq<E>, seq<Byte>)>)
    ensures PrependElements([], b) == b
  {
    match b
    case None =>
    case Some((es, _)) => assert [] + es == es;
  }

  lemma PrependElementsTwice<E>(a: seq<E>, b: seq<E>, c: Option<(seq<E>, seq<Byte>)>)
    ensures PrependElements(a, PrependElements(b, c)) == PrependElements(a + b, c)
  {
    match c
    case None =>
    case Some((es, _)) => assert a + (b + es) == (a + b) + es;
  }

  ghost function DecodeRuns<E>(C: Codec<E>, bytes: seq<Byte>, sub: bool, expected: nat): Option<(seq<E>, seq<Byte>)>
    decreases |bytes|
  {
    if expected == 0 then Some(([], bytes))
    else if |bytes| < RUN_LENGTH_BYTES then None
    else
      var n := FromLittleEndian(bytes[..RUN_LENGTH_BYTES]);
      if n > MAX_RUN_LENGTH || n > expected then None
      else
        match DecodeElements(C, bytes[RUN_LENGTH_BYTES..], sub, n)
        case None => None
        case Some((es, rest)) =>
          DecodeElementsLength(C, bytes[RUN_LENGTH_BYTES..], sub, n);
          PrependElements(es, DecodeRuns(C, rest, !sub, expected - n))
  }

  // ----- Round trip -----

  lemma SplitFirst(a: seq<Byte>, b: seq<Byte>, tail: seq<Byte>)
    ensures (a + b + tail)[..|a|] == a && (a + b + tail)[|a|..] == b + tail
  {
  }

  lemma SplitRun(x: seq<Byte>, a: seq<Byte>, b: seq<Byte>, tail: seq<Byte>)
    ensures (x + a + b + tail)[..|x|] == x && (x + a + b + tail)[|x|..] == a + (b + tail)
  {
  }

  lemma {:induction false} ElementsRoundTrip<E(!new)>(C: Codec<E>, es: seq<E>, sub: bool, tail: seq<Byte>)
    requires GoodCodec(C) && EncodeElements(C, es, sub).Some?
    ensures DecodeElements(C, EncodeElements(C, es, sub).value + tail, sub, |es|) == Some((es, tail))
    decreases |es|
  {
    if |es| > 0 {
      var a, b := EncodeElement(C, es[0], sub).value, EncodeElements(C, es[1..], sub).value;
      assert CodecAt(C, es[0]);
      ElementsRoundTrip(C, es[1..], sub, tail);
      SplitFirst(a, b, tail);
      assert es == [es[0]] + es[1..];
    } else {
      assert [] + tail == tail;
    }
  }

  /** Whenever the encoder succeeds, the decoder returns the same elements and leaves the bytes after them. */
  lemma {:induction false} RunsRoundTrip<E(!new)>(C: Codec<E>, es: seq<E>, sub: bool, tail: seq<Byte>)
    requires GoodCodec(C) && EncodeRuns(C, es, sub).Some?
    ensures DecodeRuns(C, EncodeRuns(C, es, sub).value + tail, sub, |es|) == Some((es, tail))
    decreases 2 * |es| + if RunLength(C, es, sub) == 0 then 1 else 0
  {
    if |es| == 0 {
      assert [] + tail == tail;
    } else {
      var n := RunLength(C, es, sub);
      MatchesAddUp(C, es);
      var a, b := EncodeElements(C, es[..n], sub).value, EncodeRuns(C, es[n..], !sub).value;
      RunsRoundTrip(C, es[n..], !sub, tail);
      ElementsRoundTrip(C, es[..n], sub, b + tail);
      LengthRoundTrip(n);
      SplitRun(LittleEndian(n, RUN_LENGTH_BYTES), a, b, tail);
      DecodeFirstRun(C, es, sub, n, LittleEndian(n, RUN_LENGTH_BYTES) + a + b + tail, b + tail, tail);
    }
  }

  lemma LengthRoundTrip(n: nat)
    requires n <= MAX_RUN_LENGTH
    ensures FromLittleEndian(LittleEndian(n, RUN_LENGTH_BYTES)) == n
  {
    assert Pow256(4) == 256 * Pow256(3) && Pow256(3) == 256 * Pow256(2) && Pow256(2) == 256 * Pow256(1)
      && Pow256(1) == 256 * Pow256(0);
    LittleEndianRoundTrip(n, RUN_LENGTH_BYTES);
  }

  lemma DecodeFirstRun<E(!new)>(C: Codec<E>, es: seq<E>, sub: bool, n: nat, bytes: seq<Byte>, rest: seq<Byte>,
                                tail: seq<Byte>)
    requires 0 < |es| && n <= |es| && n <= MAX_RUN_LENGTH && |bytes| >= RUN_LENGTH_BYTES
    requires FromLittleEndian(bytes[..RUN_LENGTH_BYTES]) == n
    requires DecodeElements(C, bytes[RUN_LENGTH_BYTES..], sub, n) == Some((es[..n], rest))
    requires DecodeRuns(C, rest, !sub, |es| - n) == Some((es[n..], tail))
    ensures DecodeRuns(C, bytes, sub, |es|) == Some((es, tail))
  {
    DecodeRunsNext(C, bytes, sub, |es|, n, es[..n], rest);
    PrependRest(es, n, tail);
  }

  lemma PrependRest<E>(es: seq<E>, n: nat, tail: seq<Byte>)
    requires n <= |es|
    ensures PrependElements(es[..n], Some((es[n..], tail))) == Some((es, tail))
  {
    assert es[..n] + es[n..] == es;
  }

  lemma DecodeRunsNext<E(!new)>(C: Codec<E>, bytes: seq<Byte>, sub: bool, expected: nat, n: nat, es: seq<E>,
                                rest: seq<Byte>)
    requires |bytes| >= RUN_LENGTH_BYTES && FromLittleEndian(bytes[..RUN_LENGTH_BYTES]) == n <= MAX_RUN_LENGTH
      && n <= expected && expected > 0
    requires DecodeElements(C, bytes[RUN_LENGTH_BYTES..], sub, n) == Some((es, rest))
    ensures DecodeRuns(C, bytes, sub, expected) == PrependElements(es, DecodeRuns(C, rest, !sub, expected - n))
  {
  }

  // ----- When the encoder succeeds -----

  /** No element of the subfield comes after one outside it. */
  ghost predicate SubfieldFirst<E>(C: Codec<E>, es: seq<E>) {
    forall i, j :: 0 <= i < j < |es| && !C.inSubfield(es[i]) ==> !C.inSubfield(es[j])
  }

  lemma {:induction false} SubfieldRunEncodes<E(!new)>(C: Codec<E>, es: seq<E>)
    requires GoodCodec(C)
    ensures EncodeElements(C, es, true).Some? <==> forall i :: 0 <= i < |es| ==> C.inSubfield(es[i])
  {
    if |es| > 0 {
      assert CodecAt(C, es[0]);
      SubfieldRunEncodes(C, es[1..]);
      assert forall i :: 0 < i < |es| ==> es[i] == es[1..][i - 1];
    }
  }

  lemma {:induction false} FullRunEncodes<E>(C: Codec<E>, es: seq<E>)
    ensures EncodeElements(C, es, false).Some?
  {
    if |es| > 0 {
      FullRunEncodes(C, es[1..]);
    }
  }

  /** Every element that the counts put into a subfield run is in the subfield. */
  ghost predicate RunsFit<E>(C: Codec<E>, es: seq<E>, sub: bool)
    decreases 2 * |es| + if RunLength(C, es, sub) == 0 then 1 else 0
  {
    |es| > 0 ==>
      var n := RunLength(C, es, sub);
      MatchesAddUp(C, es);
      (sub ==> forall i :: 0 <= i < n ==> C.inSubfield(es[i])) && RunsFit(C, es[n..], !sub)
  }

  /** For any number of elements, that is exactly when the encoder succeeds. */
  lemma {:induction false} EncodesWhenRunsFit<E(!new)>(C: Codec<E>, es: seq<E>, sub: bool)
    requires GoodCodec(C)
    ensures EncodeRuns(C, es, sub).Some? <==> RunsFit(C, es, sub)
    decreases 2 * |es| + if RunLength(C, es, sub) == 0 then 1 else 0
  {
    if |es| > 0 {
      var n := RunLength(C, es, sub);
      MatchesAddUp(C, es);
      EncodesWhenRunsFit(C, es[n..], !sub);
      RunEncodes(C, es, n, sub);
    }
  }

  lemma RunEncodes<E(!new)>(C: Codec<E>, es: seq<E>, n: nat, sub: bool)
    requires GoodCodec(C) && n <= |es|
    ensures EncodeElements(C, es[..n], sub).Some? <==> (sub ==> forall i :: 0 <= i < n ==> C.inSubfield(es[i]))
  {
    if sub {
      SubfieldRunEncodes(C, es[..n]);
      assert forall i :: 0 <= i < n ==> es[..n][i] == es[i];
    } else {
      FullRunEncodes(C, es[..n]);
    }
  }

  /** The elements of the subfield are the first ones exactly when as many as there are of them come first. */
  lemma {:induction false} SubfieldPrefix<E>(C: Codec<E>, es: seq<E>)
    ensures SubfieldFirst(C, es) <==> forall i :: 0 <= i < Matches(C, es, true) ==> C.inSubfield(es[i])
  {
    if |es| > 0 {
      var last := |es| - 1;
      var front := es[..last];
      assert forall i :: 0 <= i < last ==> front[i] == es[i];
      SubfieldPrefix(C, front);
      if C.inSubfield(es[last]) {
        SubfieldLast(C, es);
      }
    }
  }

  /** With an element of the subfield at the end, both sides say that all elements are in the subfield. */
  lemma SubfieldLast<E>(C: Codec<E>, es: seq<E>)
    requires |es| > 0 && C.inSubfield(es[|es| - 1])
    ensures SubfieldFirst(C, es) <==> Matches(C, es, true) == |es|
    ensures (forall i :: 0 <= i < Matches(C, es, true) ==> C.inSubfield(es[i])) <==> Matches(C, es, true) == |es|
  {
    var last := |es| - 1;
    AllMatch(C, es);
    if SubfieldFirst(C, es) {
      forall i | 0 <= i < |es| ensures C.inSubfield(es[i]) {
        var x, y := es[i], es[last];
      }
    }
    if forall i :: 0 <= i < Matches(C, es, true) ==> C.inSubfield(es[i]) {
      var n := Matches(C, es, true);
      if n < |es| {
        PrefixAndLast(C, es, n);
      }
    }
  }

  lemma PrefixAndLast<E>(C: Codec<E>, es: seq<E>, n: nat)
    requires n < |es| && C.inSubfield(es[|es| - 1]) && forall i :: 0 <= i < n ==> C.inSubfield(es[i])
    ensures Matches(C, es, true) >= n + 1
  {
    var front := es[..|es| - 1];
    MatchesGrow(C, front, n, true);
    AllMatch(C, front[..n]);
  }

  lemma {:induction false} AllMatch<E>(C: Codec<E>, es: seq<E>)
    ensures Matches(C, es, true) == |es| <==> forall i :: 0 <= i < |es| ==> C.inSubfield(es[i])
  {
    if |es| > 0 {
      AllMatch(C, es[..|es| - 1]);
    }
  }

  /** A subfield run, and the full run after it. */
  lemma SubfieldRunsFit<E(!new)>(C: Codec<E>, es: seq<E>)
    requires GoodCodec(C) && |es| < MAX_RUN_LENGTH
    ensures EncodeRuns(C, es, true).Some? <==> SubfieldFirst(C, es)
  {
    if |es| > 0 {
      var n := Matches(C, es, true);
      SubfieldRunThenRest(C, es, n);
      SubfieldRunMeans(C, es, n);
      if SubfieldFirst(C, es) {
        RestEncodes(C, es, n);
      }
    }
  }

  lemma SubfieldRunMeans<E(!new)>(C: Codec<E>, es: seq<E>, n: nat)
    requires GoodCodec(C) && n == Matches(C, es, true)
    ensures EncodeElements(C, es[..n], true).Some? <==> SubfieldFirst(C, es)
  {
    SubfieldPrefix(C, es);
    SubfieldRunEncodes(C, es[..n]);
    assert forall i :: 0 <= i < n ==> es[..n][i] == es[i];
  }

  lemma RestEncodes<E(!new)>(C: Codec<E>, es: seq<E>, n: nat)
    requires |es| < MAX_RUN_LENGTH && n == Matches(C, es, true) && SubfieldFirst(C, es)
    ensures EncodeRuns(C, es[n..], false).Some?
  {
    SubfieldPrefix(C, es);
    assert es[..n] + es[n..] == es;
    FullRest(C, es[..n], es[n..]);
    LastFullRun(C, es[n..]);
  }

  lemma SubfieldRunThenRest<E>(C: Codec<E>, es: seq<E>, n: nat)
    requires 0 < |es| < MAX_RUN_LENGTH && n == Matches(C, es, true)
    ensures EncodeRuns(C, es, true).Some?
      <==> EncodeElements(C, es[..n], true).Some? && EncodeRuns(C, es[n..], false).Some?
  {
    MatchesAddUp(C, es);
  }

  /** Once the elements of the subfield are written, all others match a full run. */
  lemma FullRest<E>(C: Codec<E>, front: seq<E>, back: seq<E>)
    requires Matches(C, front + back, true) == |front| && forall i :: 0 <= i < |front| ==> C.inSubfield(front[i])
    ensures Matches(C, back, false) == |back|
  {
    AllMatch(C, front);
    MatchesConcat(C, front, back, true);
    MatchesAddUp(C, back);
  }

  lemma {:induction false} MatchesConcat<E>(C: Codec<E>, a: seq<E>, b: seq<E>, sub: bool)
    ensures Matches(C, a + b, sub) == Matches(C, a, sub) + Matches(C, b, sub)
    decreases |b|
  {
    if |b| == 0 {
      assert a + b == a;
    } else {
      var last := |b| - 1;
      MatchesConcat(C, a, b[..last], sub);
      assert (a + b)[..|a + b| - 1] == a + b[..last];
    }
  }

  lemma LastFullRun<E>(C: Codec<E>, es: seq<E>)
    requires Matches(C, es, false) == |es| < MAX_RUN_LENGTH
    ensures EncodeRuns(C, es, false).Some?
  {
    FullRunEncodes(C, es[..|es|]);
    assert es[|es|..] == [];
  }

  /**
   Exactly when the columns can be encoded: with f elements outside the subfield in all, the first run takes the first f
   elements whatever they are, and after those no element of the subfield may follow one outside it.
   */
  lemma EncodesExactly<E(!new)>(C: Codec<E>, es: seq<E>)
    requires GoodCodec(C) && |es| < MAX_RUN_LENGTH
    ensures EncodeRuns(C, es, false).Some? <==> SubfieldFirst(C, es[Matches(C, es, false)..])
  {
    var f := Matches(C, es, false);
    if |es| > 0 {
      FullRunEncodes(C, es[..f]);
      SubfieldRunsFit(C, es[f..]);
    }
  }

  /** So an element of the subfield before and after one outside it makes the encoder fail. */
  lemma InterleavedColumnsFail<E(!new)>(C: Codec<E>, a: E, b: E)
    requires GoodCodec(C) && C.inSubfield(a) && !C.inSubfield(b)
    ensures EncodeRuns(C, [a, b, a], false) == None
  {
    var es := [a, b, a];
    assert es[..2] == [a, b] && [a, b][..1] == [a] && [a][..0] == [];
    assert Matches(C, [a], false) == 0 && Matches(C, [a, b], false) == 1 && Matches(C, es, false) == 1;
    assert es[1..] == [b, a];
    assert !SubfieldFirst(C, [b, a]) by {
      assert [b, a][0] == b && [b, a][1] == a;
    }
    EncodesExactly(C, es);
  }
}
