/**
 The Fiat-Shamir transcript at the level of bytes (src/transcript.rs): the stream of pseudo-random bytes between writes,
 and the writing of messages. SHA-256 and AES are uninterpreted functions.
 */
module TranscriptBytes {
  import opened Bytes
  import opened Framing

  const BLOCK_SIZE: nat := 16

  /** SHA-256 of all bytes written, and AES-256 of a block number under a key. */
  datatype Primitives<!Key> = Primitives(hash: seq<Byte> -> Key, encrypt: (Key, nat) -> seq<Byte>)

  ghost predicate BlockShape<Key>(P: Primitives<Key>, key: Key, block: nat) {
    |P.encrypt(key, block)| == BLOCK_SIZE
  }

  ghost predicate GoodPrimitives<Key(!new)>(P: Primitives<Key>) {
    forall key: Key, block: nat :: BlockShape(P, key, block)
  }

  /** Byte p of the stream: byte p % 16 of the encryption of block p / 16. */
  ghost function StreamByte<Key>(P: Primitives<Key>, key: Key, p: nat): Byte {
    var block := P.encrypt(key, p / BLOCK_SIZE);
    if p % BLOCK_SIZE < |block| then block[p % BLOCK_SIZE] else 0
  }

  /** n bytes of the stream from position p on. */
  ghost function Stream<Key>(P: Primitives<Key>, key: Key, p: nat, n: nat): (s: seq<Byte>)
    ensures |s| == n && forall i :: 0 <= i < n ==> s[i] == StreamByte(P, key, p + i)
  {
    seq<Byte>(n, (i: nat) => StreamByte(P, key, p + i))
  }

  // ----- The transcript -----

  /**
   `written` stands for the state of the hash. The cached pseudo-random function is absent after a write and created by
   the first request for bytes after it.
   */
  class Transcript<Key(!new, 0)> {
    const P: Primitives<Key>
    const mode: Mode
    var written: seq<Byte>
    var cached: bool
    var key: Key
    var position: nat
    var currentBlock: seq<Byte>

    /** The number of bytes drawn since the last write. */
    ghost function Drawn(): nat
      reads this
    {
      if cached then position else 0
    }

    ghost predicate Valid()
      reads this
    {
      && GoodPrimitives(P)
      && (cached ==> key == P.hash(written))
      && (cached && position % BLOCK_SIZE != 0 ==> currentBlock == P.encrypt(key, position / BLOCK_SIZE))
    }

    constructor (P: Primitives<Key>, mode: Mode, key: Key, session: seq<Byte>)
      requires GoodPrimitives(P)
      ensures Valid() && this.P == P && this.mode == mode && written == Frame(ByteArray(session), mode) && Drawn() == 0
    {
      this.P, this.mode, this.key := P, mode, key;
      written, cached, position, currentBlock := [], false, 0, [];
      new;
      WriteByteArray(session);
    }

    /** `write_bytes`: even an empty write discards the cached pseudo-random function. */
    method WriteBytes(bytes: seq<Byte>)
      requires Valid()
      modifies this
      ensures Valid() && written == old(written) + bytes && Drawn() == 0
    {
      cached := false;
      written := written + bytes;
    }

    method BeginWriteByteArray(length: nat)
      requires Valid()
      modifies this
      ensures Valid() && written == old(written) + [0] + LittleEndian(length, LENGTH_BYTES) && Drawn() == 0
    {
      WriteBytes([0]);
      WriteBytes(LittleEndian(length, LENGTH_BYTES));
    }

    method WriteByteArray(bytes: seq<Byte>)
      requires Valid()
      modifies this
      ensures Valid() && written == old(written) + Frame(ByteArray(bytes), mode) && Drawn() == 0
    {
      BeginWriteByteArray(|bytes|);
      WriteBytes(bytes);
      FrameAfter(old(written), bytes, mode);
    }

    method WriteFieldElement(element: seq<Byte>)
      requires Valid()
      modifies this
      ensures Valid() && written == old(written) + Frame(FieldElement(element), mode) && Drawn() == 0
    {
      WriteBytes([TagByte(FieldElement(element), mode)]);
      WriteBytes(element);
      assert written == old(written) + ([1] + element);
    }

    method WriteFieldElementArray(elements: seq<seq<Byte>>)
      requires Valid()
      modifies this
      ensures Valid() && written == old(written) + Frame(FieldElementArray(elements), mode) && Drawn() == 0
    {
      var tag := TagByte(FieldElementArray(elements), mode);
      WriteBytes([tag]);
      WriteBytes(LittleEndian(|elements|, LENGTH_BYTES));
      ghost var head := [tag] + LittleEndian(|elements|, LENGTH_BYTES);
      assert written == old(written) + head;
      ghost var start := written;
      for i := 0 to |elements|
        invariant Valid() && Drawn() == 0 && written == start + Concat(elements[..i])
      {
        ConcatNext(elements, i);
        assert written + elements[i] == start + Concat(elements[..i + 1]);
        WriteBytes(elements[i]);
      }
      assert elements[..|elements|] == elements;
      assert written == old(written) + (head + Concat(elements));
    }

    /** `write_zero_array`: writes in chunks, and feeds the same bytes as writing that many zeros at once. */
    method WriteZeroArray(count: nat)
      requires Valid()
      modifies this
      ensures Valid() && written == old(written) + Frame(ByteArray(Zeros(count)), mode) && Drawn() == 0
    {
      BeginWriteByteArray(count);
      cached := false;
      UpdateZeros(count);
      FrameAfter(old(written), Zeros(count), mode);
    }

    /** Feed zeros to the hash in chunks. */
    method UpdateZeros(count: nat)
      requires Valid() && !cached
      modifies this`written
      ensures Valid() && written == old(written) + Zeros(count)
    {
      ghost var head := written;
      var rest := count;
      while rest > 0
        invariant 0 <= rest <= count && written == head + Zeros(count - rest)
      {
        var chunk := if rest < 16834 then rest else 16834;
        ZerosAdd(head, count - rest, chunk);
        written := written + Zeros(chunk);
        rest := rest - chunk;
      }
    }

    /** The next byte of the stream: position p of the stream keyed by the hash of everything written so far. */
    method NextByte() returns (value: Byte)
      requires Valid()
      modifies this
      ensures Valid() && written == old(written)
      ensures value == StreamByte(P, P.hash(written), old(Drawn())) && Drawn() == old(Drawn()) + 1
    {
      if !cached {
        cached, key, position := true, P.hash(written), 0;
      }
      if position % BLOCK_SIZE == 0 {
        currentBlock := P.encrypt(key, position / BLOCK_SIZE);
      }
      assert BlockShape(P, key, position / BLOCK_SIZE);
      value := currentBlock[position % BLOCK_SIZE];
      NextPosition(position);
      position := position + 1;
    }

    /** n bytes in a row, as the sampling of field elements and naturals draws them. */
    method NextBytes(n: nat) returns (bytes: seq<Byte>)
      requires Valid()
      modifies this
      ensures Valid() && written == old(written)
      ensures bytes == Stream(P, P.hash(written), old(Drawn()), n) && Drawn() == old(Drawn()) + n
    {
      bytes := [];
      for i := 0 to n
        invariant Valid() && written == old(written) && Drawn() == old(Drawn()) + i
        invariant bytes == Stream(P, P.hash(written), old(Drawn()), i)
      {
        var b := NextByte();
        bytes := bytes + [b];
      }
    }
  }

  lemma FrameAfter(before: seq<Byte>, bytes: seq<Byte>, mode: Mode)
    ensures before + [0] + LittleEndian(|bytes|, LENGTH_BYTES) + bytes == before + Frame(ByteArray(bytes), mode)
  {
    Associate(before, [0], LittleEndian(|bytes|, LENGTH_BYTES), bytes);
  }

  lemma Associate(a: seq<Byte>, b: seq<Byte>, c: seq<Byte>, d: seq<Byte>)
    ensures a + b + c + d == a + (b + c + d)
  {
  }

  lemma NextPosition(p: nat)
    ensures (p + 1) % BLOCK_SIZE != 0 ==> (p + 1) / BLOCK_SIZE == p / BLOCK_SIZE
  {
  }

  // ----- Runs -----

  /** A request to the transcript: write a message, or draw n bytes. */
  datatype Request = Write(message: Message) | Draw(n: nat)

  /** What has been written, the bytes drawn since the last write, and all answers so far. */
  datatype RunState = RunState(written: seq<Byte>, drawn: nat, answers: seq<seq<Byte>>)

  /** The specification of a run, request by request. */
  ghost function RunSpec<Key>(P: Primitives<Key>, mode: Mode, start: seq<Byte>, requests: seq<Request>): RunState {
    if |requests| == 0 then RunState(start, 0, [])
    else
      var s := RunSpec(P, mode, start, requests[..|requests| - 1]);
      match requests[|requests| - 1]
      case Write(message) => RunState(s.written + Frame(message, mode), 0, s.answers)
      case Draw(n) => RunState(s.written, s.drawn + n, s.answers + [Stream(P, P.hash(s.written), s.drawn, n)])
  }

  /** Over every interleaving of writes and requests, the answers are successive bytes of the stream since a write. */
  method Run<Key(!new, 0)>(transcript: Transcript<Key>, requests: seq<Request>) returns (answers: seq<seq<Byte>>)
    requires transcript.Valid() && transcript.Drawn() == 0
    modifies transcript
    ensures transcript.Valid()
    ensures RunState(transcript.written, transcript.Drawn(), answers)
      == RunSpec(transcript.P, transcript.mode, old(transcript.written), requests)
  {
    answers := [];
    ghost var start := transcript.written;
    for i := 0 to |requests|
      invariant transcript.Valid()
      invariant RunState(transcript.written, transcript.Drawn(), answers)
        == RunSpec(transcript.P, transcript.mode, start, requests[..i])
    {
      assert requests[..i + 1][..i] == requests[..i];
      match requests[i]
      case Write(message) =>
        WriteMessage(transcript, message);
      case Draw(n) =>
        var bytes := transcript.NextBytes(n);
        answers := answers + [bytes];
    }
    assert requests[..|requests|] == requests;
  }

  method WriteMessage<Key(!new, 0)>(transcript: Transcript<Key>, message: Message)
    requires transcript.Valid()
    modifies transcript
    ensures transcript.Valid() && transcript.Drawn() == 0
    ensures transcript.written == old(transcript.written) + Frame(message, transcript.mode)
  {
    match message
    case ByteArray(bytes) => transcript.WriteByteArray(bytes);
    case FieldElement(element) => transcript.WriteFieldElement(element);
    case FieldElementArray(elements) => transcript.WriteFieldElementArray(elements);
  }
}
