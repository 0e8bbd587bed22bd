/** The framing of transcript messages (src/transcript.rs). */
module Framing {
  import opened Options
  import opened Bytes

  /** Lengths are written as 64-bit integers. */
  const LENGTH_BYTES: nat := 8

  /** `Normal` follows the draft; `V3Compatibility` tags arrays of elements like single elements. */
  datatype Mode = Normal | V3Compatibility

  /** Elements are given by their encodings. */
  datatype Message =
    | ByteArray(bytes: seq<Byte>)
    | FieldElement(element: seq<Byte>)
    | FieldElementArray(elements: seq<seq<Byte>>)

  function TagByte(message: Message, mode: Mode): Byte {
    match message
    case ByteArray(_) => 0
    case FieldElement(_) => 1
    case FieldElementArray(_) => if mode.Normal? then 2 else 1
  }

  function Frame(message: Message, mode: Mode): seq<Byte> {
    match message
    case ByteArray(bytes) => [TagByte(message, mode)] + LittleEndian(|bytes|, LENGTH_BYTES) + bytes
    case FieldElement(element) => [TagByte(message, mode)] + element
    case FieldElementArray(elements) =>
      [TagByte(message, mode)] + LittleEndian(|elements|, LENGTH_BYTES) + Concat(elements)
  }

  function Frames(messages: seq<Message>, mode: Mode): seq<Byte> {
    if |messages| == 0 then [] else Frame(messages[0], mode) + Frames(messages[1..], mode)
  }

  /** Lengths fit in 64 bits, and every element is encoded in `size` bytes. */
  ghost predicate Sendable(message: Message, size: nat) {
    match message
    case ByteArray(bytes) => |bytes| < Pow256(LENGTH_BYTES)
    case FieldElement(element) => |element| == size
    case FieldElementArray(elements) => |elements| < Pow256(LENGTH_BYTES) && ElementsOfSize(elements, size)
  }

  ghost predicate AllSendable(messages: seq<Message>, size: nat) {
    forall i :: 0 <= i < |messages| ==> Sendable(messages[i], size)
  }

  // ----- Reading frames back -----

  /** n elements of `size` bytes from the front. */
  function TakeElements(bytes: seq<Byte>, size: nat, n: nat): Option<seq<seq<Byte>>> {
    if n == 0 then Some([])
    else if |bytes| < size then None
    else
      match TakeElements(bytes[size..], size, n - 1)
      case None => None
      case Some(rest) => Some([bytes[..size]] + rest)
  }

  /** The first message of a byte stream in Normal mode, and how many bytes it takes. */
  function ReadFrame(bytes: seq<Byte>, size: nat): Option<(Message, nat)> {
    if |bytes| == 0 then None
    else if bytes[0] == 1 then
      if |bytes| < 1 + size then None else Some((FieldElement(bytes[1..1 + size]), 1 + size))
    else if |bytes| < 9 then None
    else
      var n, rest := FromLittleEndian(bytes[1..9]), bytes[9..];
      if bytes[0] == 0 then
        if |rest| < n then None else Some((ByteArray(rest[..n]), 9 + n))
      else if bytes[0] == 2 then
        match TakeElements(rest, size, n)
        case None => None
        case Some(elements) => Some((FieldElementArray(elements), 9 + n * size))
      else None
  }

  function ReadFrames(bytes: seq<Byte>, size: nat): Option<seq<Message>>
    decreases |bytes|
  {
    if |bytes| == 0 then Some([])
    else
      match ReadFrame(bytes, size)
      case None => None
      case Some((message, n)) =>
        if n == 0 || n > |bytes| then None
        else
          match ReadFrames(bytes[n..], size)
          case None => None
          case Some(rest) => Some([message] + rest)
  }

  lemma {:induction false} TakeConcat(elements: seq<seq<Byte>>, size: nat, tail: seq<Byte>)
    requires ElementsOfSize(elements, size)
    ensures TakeElements(Concat(elements) + tail, size, |elements|) == Some(elements)
  {
    if |elements| > 0 {
      var all := Concat(elements) + tail;
      TakeConcat(elements[1..], size, tail);
      assert all[size..] == Concat(elements[1..]) + tail;
      assert all[..size] == elements[0];
      assert elements == [elements[0]] + elements[1..];
    }
  }

  lemma ReadByteArray(bytes: seq<Byte>, size: nat, tail: seq<Byte>)
    requires |bytes| < Pow256(LENGTH_BYTES)
    ensures ReadFrame(Frame(ByteArray(bytes), Normal) + tail, size) == Some((ByteArray(bytes), 9 + |bytes|))
  {
    var all := Frame(ByteArray(bytes), Normal) + tail;
    LittleEndianRoundTrip(|bytes|, LENGTH_BYTES);
    SplitFrame(0, LittleEndian(|bytes|, LENGTH_BYTES), bytes, tail);
    assert (bytes + tail)[..|bytes|] == bytes;
  }

  lemma SplitFrame(tag: Byte, length: seq<Byte>, body: seq<Byte>, tail: seq<Byte>)
    requires |length| == LENGTH_BYTES
    ensures var all := [tag] + length + body + tail; all[0] == tag && all[1..9] == length && all[9..] == body + tail
  {
  }

  lemma ReadFieldElementArray(elements: seq<seq<Byte>>, size: nat, tail: seq<Byte>)
    requires |elements| < Pow256(LENGTH_BYTES) && ElementsOfSize(elements, size)
    ensures ReadFrame(Frame(FieldElementArray(elements), Normal) + tail, size)
      == Some((FieldElementArray(elements), 9 + |elements| * size))
  {
    var all := Frame(FieldElementArray(elements), Normal) + tail;
    LittleEndianRoundTrip(|elements|, LENGTH_BYTES);
    SplitFrame(2, LittleEndian(|elements|, LENGTH_BYTES), Concat(elements), tail);
    TakeConcat(elements, size, tail);
  }

  lemma ReadOneFrame(message: Message, size: nat, tail: seq<Byte>)
    requires Sendable(message, size)
    ensures ReadFrame(Frame(message, Normal) + tail, size) == Some((message, |Frame(message, Normal)|))
  {
    match message {
      case FieldElement(element) =>
        assert (Frame(message, Normal) + tail)[1..1 + size] == element;
      case ByteArray(bytes) =>
        ReadByteArray(bytes, size, tail);
      case FieldElementArray(elements) =>
        ConcatLength(elements, size);
        ReadFieldElementArray(elements, size, tail);
    }
  }

  /** In Normal mode over one field, the hashed byte stream determines the messages. */
  lemma {:induction false} FramesRoundTrip(messages: seq<Message>, size: nat)
    requires AllSendable(messages, size)
    ensures ReadFrames(Frames(messages, Normal), size) == Some(messages)
  {
    if |messages| > 0 {
      var first, rest := Frame(messages[0], Normal), Frames(messages[1..], Normal);
      ReadOneFrame(messages[0], size, rest);
      FramesRoundTrip(messages[1..], size);
      ReadNextFrame(first, rest, size, messages[0], messages[1..]);
      assert messages == [messages[0]] + messages[1..];
      assert Frames(messages, Normal) == first + rest;
    }
  }

  lemma ReadNextFrame(first: seq<Byte>, rest: seq<Byte>, size: nat, message: Message, messages: seq<Message>)
    requires |first| > 0 && ReadFrame(first + rest, size) == Some((message, |first|))
      && ReadFrames(rest, size) == Some(messages)
    ensures ReadFrames(first + rest, size) == Some([message] + messages)
  {
    assert (first + rest)[|first|..] == rest;
  }

  lemma FramesInjective(a: seq<Message>, b: seq<Message>, size: nat)
    requires AllSendable(a, size) && AllSendable(b, size) && Frames(a, Normal) == Frames(b, Normal)
    ensures a == b
  {
    FramesRoundTrip(a, size);
    FramesRoundTrip(b, size);
  }

  // ----- V3Compatibility -----

  /** In a mode, different message sequences over elements of `size` bytes have different frames. */
  ghost predicate Injective(mode: Mode, size: nat) {
    forall a, b :: SameFrames(a, b, mode, size) ==> a == b
  }

  ghost predicate SameFrames(a: seq<Message>, b: seq<Message>, mode: Mode, size: nat) {
    AllSendable(a, size) && AllSendable(b, size) && Frames(a, mode) == Frames(b, mode)
  }

  /** The frames determine the messages exactly in Normal mode, whatever the size of elements. */
  lemma InjectiveExactly(mode: Mode, size: nat)
    requires 0 < size && size + 1 < Pow256(LENGTH_BYTES)
    ensures Injective(mode, size) <==> mode == Normal
  {
    if mode == Normal {
      forall a, b | SameFrames(a, b, mode, size) ensures a == b {
        FramesInjective(a, b, size);
      }
    } else {
      V3FramesCollide(size);
    }
  }

  /** An array of size + 1 elements whose bytes continue as zeros, an empty byte array and single zero elements. */
  ghost function CollidingArray(size: nat): seq<seq<Byte>> {
    Cut(Zeros(size) + [0] + Frames(ZeroElements(size, size - 1), V3Compatibility), size, size + 1)
  }

  /** The messages that the array is taken for: its length is read as the start of an element. */
  ghost function CollidingMessages(size: nat): seq<Message> {
    [FieldElement((LittleEndian(size + 1, LENGTH_BYTES) + Zeros(size))[..size]), ByteArray([])]
      + ZeroElements(size, size - 1)
  }

  function ZeroElements(size: nat, n: int): (messages: seq<Message>)
    ensures n >= 0 ==> |messages| == n
    decreases n
  {
    if n <= 0 then [] else [FieldElement(Zeros(size))] + ZeroElements(size, n - 1)
  }

  lemma {:induction false} ZeroElementsFrames(size: nat, n: nat)
    ensures |Frames(ZeroElements(size, n), V3Compatibility)| == n * (size + 1)
      && AllSendable(ZeroElements(size, n), size)
  {
    if n > 0 {
      var m := n - 1;
      ZeroElementsFrames(size, m);
      assert n * (size + 1) == (size + 1) + m * (size + 1);
      assert ZeroElements(size, n)[1..] == ZeroElements(size, m);
    }
  }

  lemma CollidingLengths(size: nat)
    requires size > 0
    ensures size + 1 + (size - 1) * (size + 1) == (size + 1) * size
  {
  }

  /** The bytes of the length beyond an element are zeros. */
  lemma LengthIsElement(size: nat)
    requires 0 < size
    ensures var bytes :=
      LittleEndian(size + 1, LENGTH_BYTES) + Zeros(size); bytes == bytes[..size] + Zeros(LENGTH_BYTES)
  {
    var bytes := LittleEndian(size + 1, LENGTH_BYTES) + Zeros(size);
    if size < LENGTH_BYTES {
      SmallLittleEndian(size + 1, LENGTH_BYTES);
    }
    assert bytes[size..] == Zeros(LENGTH_BYTES);
  }

  /** In V3Compatibility mode an array of elements can be taken for single elements and an empty byte array. */
  lemma V3FramesCollide(size: nat)
    requires 0 < size && size + 1 < Pow256(LENGTH_BYTES)
    ensures SameFrames([FieldElementArray(CollidingArray(size))], CollidingMessages(size), V3Compatibility, size)
    ensures [FieldElementArray(CollidingArray(size))] != CollidingMessages(size)
  {
    ZeroElementsFrames(size, size - 1);
    CollidingLengths(size);
    CutConcat(Zeros(size) + [0] + Frames(ZeroElements(size, size - 1), V3Compatibility), size, size + 1);
    CollidingSendable(size);
    CollidingArrayFrames(size);
    CollidingMessagesFrames(size);
  }

  lemma CollidingSendable(size: nat)
    requires AllSendable(ZeroElements(size, size - 1), size) && ElementsOfSize(CollidingArray(size), size)
    requires 0 < size && size + 1 < Pow256(LENGTH_BYTES)
    ensures AllSendable([FieldElementArray(CollidingArray(size))], size) && AllSendable(CollidingMessages(size), size)
  {
  }

  /** The bytes of both, after the tag: the length, the zeros of the first element, and the rest. */
  ghost function CollidingBytes(size: nat): seq<Byte> {
    [1] + (LittleEndian(size + 1, LENGTH_BYTES) + Zeros(size)) + [0]
      + Frames(ZeroElements(size, size - 1), V3Compatibility)
  }

  lemma CollidingArrayFrames(size: nat)
    requires var bytes := Zeros(size) + [0] + Frames(ZeroElements(size, size - 1), V3Compatibility);
      Concat(CollidingArray(size)) == bytes
    ensures Frames([FieldElementArray(CollidingArray(size))], V3Compatibility) == CollidingBytes(size)
  {
    var length, tail := LittleEndian(size + 1, LENGTH_BYTES), Frames(ZeroElements(size, size - 1), V3Compatibility);
    OneFrame(FieldElementArray(CollidingArray(size)));
    Reassociate(length, Zeros(size), tail);
  }

  lemma Reassociate(length: seq<Byte>, zeros: seq<Byte>, tail: seq<Byte>)
    ensures [1] + length + (zeros + [0] + tail) == [1] + (length + zeros) + [0] + tail
  {
  }

  lemma CollidingMessagesFrames(size: nat)
    requires size > 0
    ensures Frames(CollidingMessages(size), V3Compatibility) == CollidingBytes(size)
  {
    var zeros := ZeroElements(size, size - 1);
    var bytes, tail := LittleEndian(size + 1, LENGTH_BYTES) + Zeros(size), Frames(zeros, V3Compatibility);
    LengthIsElement(size);
    SmallLittleEndian(0, LENGTH_BYTES);
    TwoFrames(FieldElement(bytes[..size]), ByteArray([]), zeros);
    assert LittleEndian(0, LENGTH_BYTES) == Zeros(LENGTH_BYTES);
    ShiftZero(bytes[..size], tail);
  }

  lemma ShiftZero(element: seq<Byte>, tail: seq<Byte>)
    ensures [1] + (element + Zeros(LENGTH_BYTES)) + [0] + tail
      == ([1] + element) + ([0] + Zeros(LENGTH_BYTES) + []) + tail
  {
    assert Zeros(LENGTH_BYTES) + [0] == [0] + Zeros(LENGTH_BYTES) + [];
  }

  lemma TwoFrames(a: Message, b: Message, rest: seq<Message>)
    ensures Frames([a, b] + rest, V3Compatibility)
      == Frame(a, V3Compatibility) + Frame(b, V3Compatibility) + Frames(rest, V3Compatibility)
  {
    assert ([a, b] + rest)[1..] == [b] + rest && ([b] + rest)[1..] == rest;
  }

  lemma OneFrame(a: Message)
    ensures Frames([a], V3Compatibility) == Frame(a, V3Compatibility)
  {
    assert [a][1..] == [];
  }

  // ----- Messages of known shape -----

  /** The same kind and the same length. */
  predicate SameShape(a: Message, b: Message) {
    match a
    case ByteArray(x) => b.ByteArray? && |x| == |b.bytes|
    case FieldElement(x) => b.FieldElement? && |x| == |b.element|
    case FieldElementArray(x) =>
      b.FieldElementArray? && |x| == |b.elements| && forall i :: 0 <= i < |x| ==> |x[i]| == |b.elements[i]|
  }

  ghost predicate SameShapes(a: seq<Message>, b: seq<Message>) {
    |a| == |b| && forall i :: 0 <= i < |a| ==> SameShape(a[i], b[i])
  }

  lemma {:induction false} SameConcat(a: seq<seq<Byte>>, b: seq<seq<Byte>>)
    requires |a| == |b| && (forall i :: 0 <= i < |a| ==> |a[i]| == |b[i]|)
    ensures |Concat(a)| == |Concat(b)| && (Concat(a) == Concat(b) ==> a == b)
  {
    if |a| > 0 {
      SameConcat(a[1..], b[1..]);
      assert a == [a[0]] + a[1..] && b == [b[0]] + b[1..];
      if Concat(a) == Concat(b) {
        assert a[0] == Concat(a)[..|a[0]|] == b[0];
        assert Concat(a[1..]) == Concat(a)[|a[0]|..] == Concat(b[1..]);
      }
    }
  }

  lemma SameFrame(a: Message, b: Message, mode: Mode)
    requires SameShape(a, b)
    ensures |Frame(a, mode)| == |Frame(b, mode)| && (Frame(a, mode) == Frame(b, mode) ==> a == b)
  {
    var x, y := Frame(a, mode), Frame(b, mode);
    match a {
      case ByteArray(bytes) => assert x[9..] == bytes && y[9..] == b.bytes;
      case FieldElement(element) => assert x[1..] == element && y[1..] == b.element;
      case FieldElementArray(elements) =>
        SameConcat(elements, b.elements);
        assert x[9..] == Concat(elements) && y[9..] == Concat(b.elements);
    }
  }

  /** Messages whose kinds and lengths are fixed in advance are determined by their frames in both modes. */
  lemma {:induction false} ShapedFramesInjective(a: seq<Message>, b: seq<Message>, mode: Mode)
    requires SameShapes(a, b)
    ensures Frames(a, mode) == Frames(b, mode) ==> a == b
  {
    if |a| > 0 && Frames(a, mode) == Frames(b, mode) {
      SameFrame(a[0], b[0], mode);
      var x, y := Frame(a[0], mode), Frame(b[0], mode);
      assert x == Frames(a, mode)[..|x|] == y;
      assert Frames(a[1..], mode) == Frames(a, mode)[|x|..] == Frames(b[1..], mode);
      ShapedFramesInjective(a[1..], b[1..], mode);
      assert a == [a[0]] + a[1..] && b == [b[0]] + b[1..];
    }
  }
}
