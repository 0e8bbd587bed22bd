/**
 The transcript of bytes is an oracle for the protocols: run on a history of messages and requests, it answers every
 request as a fixed function of the history before it, with answers of the right shape.
 */
module TranscriptOracle {
  import opened Options
  import opened Bytes
  import opened Framing
  import opened TranscriptBytes
  import opened Sampling
  import Sums
  import FS = FiatShamir

  /** A field as the transcript sees it: elements have `bits` bits, and `decode` rejects values that are too large. */
  datatype Encoding<!F> = Encoding(bits: nat, encode: F -> seq<Byte>, decode: seq<Byte> -> Option<F>)

  datatype Machine<!Key, !F> = Machine(P: Primitives<Key>, mode: Mode, E: Encoding<F>, attempts: nat)

  // ----- Challenges -----

  function AcceptElement<F>(E: Encoding<F>): seq<Byte> -> Option<F> {
    bytes => if |bytes| == NumBytes(E.bits) then E.decode(Masked(bytes, E.bits)) else None
  }

  /** n field elements, one after the other. */
  ghost function ElementsFrom<Key, F>(M: Machine<Key, F>, key: Key, p: nat, n: nat): (d: Option<Drawn<seq<F>>>)
    ensures d.Some? ==> |d.value.value| == n
  {
    if n == 0 then Some(Drawn([], p))
    else
      match ElementsFrom(M, key, p, n - 1)
      case None => None
      case Some(front) =>
        match FirstGood(M.P, key, front.position, NumBytes(M.E.bits), AcceptElement(M.E), M.attempts)
        case None => None
        case Some(last) => Some(Drawn(front.value + [last.value], last.position))
  }

  /** What candidate k from position p on decodes to: the value of its bytes modulo the power of two, encoded again. */
  ghost function ElementAt<Key, F>(M: Machine<Key, F>, key: Key, p: nat, k: nat): Option<F> {
    var n := NumBytes(M.E.bits);
    M.E.decode(LittleEndian(FromLittleEndian(Stream(M.P, key, p + k * n, n)) % Sums.Exp2(M.E.bits), n))
  }

  /** Element e is the first candidate that decodes, and position q comes after it. */
  ghost predicate YieldsElement<Key, F>(M: Machine<Key, F>, key: Key, p: nat, e: F, q: nat) {
    exists k: nat ::
      ElementAt(M, key, p, k) == Some(e) && q == p + (k + 1) * NumBytes(M.E.bits)
      && forall i: nat :: i < k ==> ElementAt(M, key, p, i) == None
  }

  /** The elements that the stream yields one after the other. */
  ghost predicate AreElements<Key, F>(M: Machine<Key, F>, key: Key, p: nat, elements: seq<F>, q: nat)
    decreases |elements|
  {
    if |elements| == 0 then p == q
    else
      var last := |elements| - 1;
      exists m: nat :: AreElements(M, key, p, elements[..last], m) && YieldsElement(M, key, m, elements[last], q)
  }

  lemma AcceptedElement<Key, F>(M: Machine<Key, F>, key: Key, p: nat, k: nat)
    ensures var n := NumBytes(M.E.bits);
      AcceptElement(M.E)(Stream(M.P, key, p + k * n, n)) == ElementAt(M, key, p, k)
  {
    var n := NumBytes(M.E.bits);
    MaskedIsEncoding(Stream(M.P, key, p + k * n, n), M.E.bits);
  }

  lemma FoundElement<Key, F>(M: Machine<Key, F>, key: Key, p: nat, e: F, q: nat)
    requires FirstGood<Key, F>(M.P, key, p, NumBytes(M.E.bits), AcceptElement(M.E), M.attempts) == Some(Drawn(e, q))
    ensures YieldsElement(M, key, p, e, q)
  {
    var n, accept := NumBytes(M.E.bits), AcceptElement(M.E);
    var k := FirstGoodIs(M.P, key, p, n, accept, M.attempts, e, q);
    AcceptedElement(M, key, p, k);
    forall i: nat | i < k ensures ElementAt(M, key, p, i) == None {
      AcceptedElement(M, key, p, i);
      assert Rejects(M.P, key, p, n, accept, i);
    }
  }

  /** A challenge consists of the elements that the stream yields. */
  lemma {:induction false} ElementsAreYielded<Key, F>(M: Machine<Key, F>, key: Key, p: nat, elements: seq<F>, q: nat)
    requires ElementsFrom(M, key, p, |elements|) == Some(Drawn(elements, q))
    ensures AreElements(M, key, p, elements, q)
    decreases |elements|
  {
    if |elements| > 0 {
      var last := |elements| - 1;
      var front := ElementsFrom(M, key, p, last).value;
      assert front.value == elements[..last];
      ElementsAreYielded(M, key, p, elements[..last], front.position);
      FoundElement(M, key, front.position, elements[last], q);
    }
  }

  lemma ElementsFail<Key, F>(M: Machine<Key, F>, key: Key, p: nat, i: nat, n: nat)
    requires i <= n && ElementsFrom(M, key, p, i).None?
    ensures ElementsFrom(M, key, p, n).None?
  {
    for k := i to n
      invariant ElementsFrom(M, key, p, k).None?
    {
    }
  }

  /** `generate_challenge` */
  method GenerateChallenge<Key(!new, 0), F>(M: Machine<Key, F>, transcript: Transcript<Key>, length: nat)
      returns (r: Option<seq<F>>)
    requires transcript.Valid() && transcript.P == M.P
    modifies transcript
    ensures transcript.Valid() && transcript.written == old(transcript.written)
    ensures Samples(transcript, ElementsFrom(M, M.P.hash(transcript.written), old(transcript.Drawn()), length), r)
    ensures r.Some? ==> |r.value| == length
    ensures r.Some? ==>
      AreElements(M, M.P.hash(transcript.written), old(transcript.Drawn()), r.value, transcript.Drawn())
  {
    ghost var key, start := M.P.hash(transcript.written), transcript.Drawn();
    var elements := [];
    var accept := AcceptElement(M.E);
    for i := 0 to length
      invariant transcript.Valid() && transcript.written == old(transcript.written)
      invariant ElementsFrom(M, key, start, i) == Some(Drawn(elements, transcript.Drawn()))
    {
      var element := SampleGood(transcript, NumBytes(M.E.bits), accept, M.attempts);
      if element.None? {
        ElementsFail(M, key, start, i + 1, length);
        return None;
      }
      elements := elements + [element.value];
    }
    r := Some(elements);
    ElementsAreYielded(M, key, start, elements, transcript.Drawn());
  }

  // ----- Histories -----

  /** The bytes written, and how many were drawn since the last write. */
  datatype State = State(written: seq<Byte>, drawn: nat)

  function Encodings<F>(E: Encoding<F>, elements: seq<F>): (r: seq<seq<Byte>>)
    ensures |r| == |elements|
  {
    seq(|elements|, i requires 0 <= i < |elements| => E.encode(elements[i]))
  }

  function Encoded<F>(E: Encoding<F>, message: FS.Message<F>): Message {
    match message
    case Bytes(bytes) => ByteArray(bytes)
    case Zeros(count) => ByteArray(Zeros(count))
    case Element(element) => FieldElement(E.encode(element))
    case Elements(elements) => FieldElementArray(Encodings(E, elements))
  }

  /** One step of a history: None if a sampler gives up or is asked for more naturals than there are. */
  ghost function StateAfterStep<Key, F>(M: Machine<Key, F>, s: State, step: FS.Step<F>): Option<State> {
    match step
    case Write(message) => Some(State(s.written + Frame(Encoded(M.E, message), M.mode), 0))
    case Draw(length) =>
      (match ElementsFrom(M, M.P.hash(s.written), s.drawn, length)
       case None => None
       case Some(d) => Some(State(s.written, d.position)))
    case DrawNaturals(max, count) =>
      if max <= count then None
      else
        match NaturalsFrom(M.P, M.P.hash(s.written), s.drawn, max, count, M.attempts)
        case None => None
        case Some(d) => Some(State(s.written, d.position))
  }

  ghost function StateAfter<Key, F>(M: Machine<Key, F>, h: FS.History<F>): Option<State> {
    if |h| == 0 then Some(State([], 0))
    else
      match StateAfter(M, h[..|h| - 1])
      case None => None
      case Some(s) => StateAfterStep(M, s, h[|h| - 1])
  }

  /** The messages of a history, in order. */
  ghost function MessagesOf<F>(E: Encoding<F>, h: FS.History<F>): seq<Message> {
    if |h| == 0 then []
    else
      var front, last := MessagesOf(E, h[..|h| - 1]), h[|h| - 1];
      if last.Write? then front + [Encoded(E, last.message)] else front
  }

  lemma {:induction false} FramesAppend(messages: seq<Message>, last: Message, mode: Mode)
    ensures Frames(messages + [last], mode) == Frames(messages, mode) + Frame(last, mode)
  {
    var all := messages + [last];
    if |messages| == 0 {
      assert all[1..] == [] && Frames(all, mode) == Frame(last, mode) + [];
    } else {
      FramesAppend(messages[1..], last, mode);
      assert all[1..] == messages[1..] + [last];
      JoinThree(Frame(messages[0], mode), Frames(messages[1..], mode), Frame(last, mode));
    }
  }

  lemma JoinThree(a: seq<Byte>, b: seq<Byte>, c: seq<Byte>)
    ensures a + (b + c) == a + b + c
  {
  }

  /** What is hashed before a challenge are the frames of all messages so far. */
  lemma {:induction false} WrittenAreFrames<Key, F>(M: Machine<Key, F>, h: FS.History<F>)
    requires StateAfter(M, h).Some?
    ensures StateAfter(M, h).value.written == Frames(MessagesOf(M.E, h), M.mode)
    decreases |h|
  {
    if |h| > 0 {
      WrittenAreFrames(M, h[..|h| - 1]);
      var last := h[|h| - 1];
      if last.Write? {
        FramesAppend(MessagesOf(M.E, h[..|h| - 1]), Encoded(M.E, last.message), M.mode);
      }
    }
  }

  ghost predicate DecodesAt<F>(E: Encoding<F>, e: F) {
    E.decode(E.encode(e)) == Some(e)
  }

  /** Messages of the same kind with the same encoding are equal, if elements decode. */
  lemma EncodedInjective<F(!new)>(E: Encoding<F>, a: FS.Message<F>, b: FS.Message<F>)
    requires (forall e: F :: DecodesAt(E, e)) && Encoded(E, a) == Encoded(E, b)
    requires (a.Bytes? <==> b.Bytes?) && (a.Zeros? <==> b.Zeros?)
    ensures a == b
  {
    match a {
      case Bytes(_) =>
      case Zeros(n) => assert |Zeros(n)| == n && |Zeros(b.count)| == b.count;
      case Element(e) => assert DecodesAt(E, e) && DecodesAt(E, b.element);
      case Elements(es) =>
        assert Encodings(E, es) == Encodings(E, b.elements);
        forall i | 0 <= i < |es| ensures |b.elements| == |es| && es[i] == b.elements[i] {
          assert Encodings(E, es)[i] == E.encode(es[i]) && Encodings(E, b.elements)[i] == E.encode(b.elements[i]);
          assert DecodesAt(E, es[i]) && DecodesAt(E, b.elements[i]);
        }
    }
  }

  // ----- The oracle -----

  ghost function ChallengeOf<Key, F>(M: Machine<Key, F>, zero: F, h: FS.History<F>, n: nat): (r: seq<F>)
    ensures |r| == n
  {
    var s := StateAfter(M, h);
    if s.None? || ElementsFrom(M, M.P.hash(s.value.written), s.value.drawn, n).None? then seq(n, _ => zero)
    else ElementsFrom(M, M.P.hash(s.value.written), s.value.drawn, n).value.value
  }

  ghost function NaturalsOf<Key, F>(M: Machine<Key, F>, h: FS.History<F>, max: nat, count: nat): (r: seq<nat>)
    ensures count < max ==> |r| == count && NoRepeats(r) && Below(r, max)
  {
    var s := StateAfter(M, h);
    if s.None? || max <= count
      || NaturalsFrom(M.P, M.P.hash(s.value.written), s.value.drawn, max, count, M.attempts).None? then Naturals(count)
    else
      NaturalsAreDistinct(M.P, M.P.hash(s.value.written), s.value.drawn, max, count, M.attempts);
      NaturalsFrom(M.P, M.P.hash(s.value.written), s.value.drawn, max, count, M.attempts).value.value
  }

  /** The answers as functions of the history; where a sampler gives up, the answer is arbitrary but well shaped. */
  ghost function ByteOracle<Key, F>(M: Machine<Key, F>, zero: F): FS.Oracle<F> {
    FS.Oracle(
      (h, n) => ChallengeOf(M, zero, h, n),
      (h, max, count) => NaturalsOf(M, h, max, count))
  }

  lemma ByteOracleIsValid<Key, F(!new)>(M: Machine<Key, F>, zero: F)
    ensures FS.ValidOracle(ByteOracle(M, zero))
  {
    var o := ByteOracle(M, zero);
    forall h: FS.History<F>, n: nat ensures FS.ChallengeShape(o, h, n) {
      assert o.challenge(h, n) == ChallengeOf(M, zero, h, n);
    }
    forall h: FS.History<F>, max: nat, count: nat ensures FS.NaturalsShape(o, h, max, count) {
      assert o.naturals(h, max, count) == NaturalsOf(M, h, max, count);
    }
  }

  // ----- Running a history -----

  datatype Answer<F> = Nothing | Challenge(elements: seq<F>) | Selection(naturals: seq<nat>)

  /** The answer that an oracle gives to a step. */
  ghost function AnswerOf<F>(o: FS.Oracle<F>, h: FS.History<F>, step: FS.Step<F>): Answer<F> {
    match step
    case Write(_) => Nothing
    case Draw(length) => Challenge(o.challenge(h, length))
    case DrawNaturals(max, count) => Selection(o.naturals(h, max, count))
  }

  /** The answers to the first k steps after the history h. */
  ghost function AnswersOf<F>(o: FS.Oracle<F>, h: FS.History<F>, steps: seq<FS.Step<F>>, k: nat): seq<Answer<F>>
    requires k <= |steps|
  {
    if k == 0 then [] else AnswersOf(o, h, steps, k - 1) + [AnswerOf(o, h + steps[..k - 1], steps[k - 1])]
  }

  ghost predicate At<Key(!new, 0), F>(M: Machine<Key, F>, transcript: Transcript<Key>, h: FS.History<F>)
    reads transcript
  {
    && transcript.Valid() && transcript.P == M.P && transcript.mode == M.mode
    && StateAfter(M, h) == Some(State(transcript.written, transcript.Drawn()))
  }

  lemma FirstState<Key, F>(M: Machine<Key, F>, session: seq<Byte>)
    ensures StateAfter(M, [FS.Write(FS.Bytes(session))]) == Some(State(Frame(ByteArray(session), M.mode), 0))
  {
    var h: FS.History<F> := [FS.Write(FS.Bytes(session))];
    assert h[..|h| - 1] == [] && StateAfter(M, h[..|h| - 1]) == Some(State([], 0));
    assert [] + Frame(ByteArray(session), M.mode) == Frame(ByteArray(session), M.mode);
  }

  lemma StateNext<Key, F>(M: Machine<Key, F>, h: FS.History<F>, step: FS.Step<F>)
    ensures StateAfter(M, h + [step])
      == match StateAfter(M, h) case None => None case Some(s) => StateAfterStep(M, s, step)
  {
    assert (h + [step])[..|h|] == h;
  }

  lemma HistoryNext<F>(h: FS.History<F>, steps: seq<FS.Step<F>>, i: nat)
    requires i < |steps|
    ensures h + steps[..i + 1] == h + steps[..i] + [steps[i]]
  {
  }

  /** A new transcript of bytes is where the history of the protocols starts. */
  method Start<Key(!new, 0), F(!new)>(M: Machine<Key, F>, key: Key, session: seq<Byte>)
      returns (transcript: Transcript<Key>)
    requires GoodPrimitives(M.P)
    ensures fresh(transcript) && At(M, transcript, [FS.Write(FS.Bytes(session))])
  {
    transcript := new Transcript(M.P, M.mode, key, session);
    FirstState(M, session);
  }

  /** One step on the transcript of bytes gives the oracle's answer, and fails only where a sampler gives up. */
  method RunStep<Key(!new, 0), F(!new)>(M: Machine<Key, F>, ghost zero: F, transcript: Transcript<Key>,
                                        ghost h: FS.History<F>, step: FS.Step<F>)
      returns (answer: Option<Answer<F>>)
    requires At(M, transcript, h)
    modifies transcript
    ensures answer.Some? ==> At(M, transcript, h + [step]) && answer.value == AnswerOf(ByteOracle(M, zero), h, step)
    ensures answer.None? ==> StateAfter(M, h + [step]) == None
  {
    StateNext(M, h, step);
    ghost var o := ByteOracle(M, zero);
    match step
    case Write(message) =>
      WriteMessage(transcript, Encoded(M.E, message));
      answer := Some(Nothing);
    case Draw(length) =>
      assert o.challenge(h, length) == ChallengeOf(M, zero, h, length);
      var r := GenerateChallenge(M, transcript, length);
      answer := if r.None? then None else Some(Challenge(r.value));
    case DrawNaturals(max, count) =>
      if max <= count {
        return None;
      }
      assert o.naturals(h, max, count) == NaturalsOf(M, h, max, count);
      var r := GenerateNaturalsWithoutReplacement(transcript, max, count, M.attempts);
      answer := if r.None? then None else Some(Selection(r.value));
  }

  /**
   Any further run of the transcript of bytes answers every request like the oracle, which depends on the history only.
   It stops early exactly when a sampler gives up.
   */
  method RunHistory<Key(!new, 0), F(!new)>(M: Machine<Key, F>, ghost zero: F, transcript: Transcript<Key>,
                                           ghost h: FS.History<F>,
                                           steps: seq<FS.Step<F>>)
      returns (answers: Option<seq<Answer<F>>>)
    requires At(M, transcript, h)
    modifies transcript
    ensures answers.Some? <==> StateAfter(M, h + steps).Some?
    ensures answers.Some? ==> At(M, transcript, h + steps)
    ensures answers.Some? ==> answers.value == AnswersOf(ByteOracle(M, zero), h, steps, |steps|)
  {
    var given := [];
    ghost var o := ByteOracle(M, zero);
    assert h + steps[..0] == h;
    for i := 0 to |steps|
      invariant At(M, transcript, h + steps[..i]) && given == AnswersOf(o, h, steps, i)
    {
      var answer := RunStep(M, zero, transcript, h + steps[..i], steps[i]);
      HistoryNext(h, steps, i);
      if answer.None? {
        StateFails(M, h, steps, i + 1);
        return None;
      }
      given := given + [answer.value];
    }
    assert steps[..|steps|] == steps;
    answers := Some(given);
  }

  lemma StateFails<Key, F>(M: Machine<Key, F>, h: FS.History<F>, steps: seq<FS.Step<F>>, i: nat)
    requires i <= |steps| && StateAfter(M, h + steps[..i]) == None
    ensures StateAfter(M, h + steps) == None
  {
    for k := i to |steps|
      invariant StateAfter(M, h + steps[..k]) == None
    {
      HistoryNext(h, steps, k);
      StateNext(M, h + steps[..k], steps[k]);
    }
    assert steps[..|steps|] == steps;
  }
}
