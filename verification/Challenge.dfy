/**
 The derivation of the verifier's challenge (src/nymauth/challenge.rs). SHA-256, the test for UTF-8 and the counting of
 characters are uninterpreted.
 */
module Challenge {
  import opened Options
  import opened Bytes
  import opened Cbor

  // ----- The challenge -----

  const MIN_NONCE_CHARS: nat := 16
  const MAX_FIELD_BYTES: nat := 4096

  /** "OpenID4VPDCAPIHandover" */
  const HANDOVER_LABEL: seq<Byte> := [
    0x4f, 0x70, 0x65, 0x6e, 0x49, 0x44, 0x34, 0x56, 0x50, 0x44, 0x43, 0x41, 0x50, 0x49, 0x48, 0x61, 0x6e, 0x64, 0x6f,
    0x76, 0x65, 0x72]

  const NULL: Byte := 0xf6

  /** "DeviceAuthentication" */
  const DEVICE_AUTHENTICATION: seq<Byte> := [
    0x44, 0x65, 0x76, 0x69, 0x63, 0x65, 0x41, 0x75, 0x74, 0x68, 0x65, 0x6e, 0x74, 0x69, 0x63, 0x61, 0x74, 0x69, 0x6f,
    0x6e]

  /** "Signature1" */
  const SIGNATURE1: seq<Byte> := [0x53, 0x69, 0x67, 0x6e, 0x61, 0x74, 0x75, 0x72, 0x65, 0x31]

  const PROTECTED_HEADER: seq<Byte> := [0xa1, 0x01, 0x26]

  const EMPTY_MAP: seq<Byte> := [0xa0]

  predicate FieldOk(v: seq<Byte>) {
    0 < |v| <= MAX_FIELD_BYTES
  }

  /** SHA-256, the test for UTF-8 and the number of characters of a text. */
  datatype Text = Text(sha256: seq<Byte> -> seq<Byte>, utf8: seq<Byte> -> bool, chars: seq<Byte> -> nat)

  ghost predicate HashShape(T: Text, s: seq<Byte>) {
    |T.sha256(s)| == 32
  }

  ghost predicate GoodText(T: Text) {
    T.utf8(HANDOVER_LABEL) && forall s: seq<Byte> :: HashShape(T, s)
  }

  /** cbor([null, null, [label, hash]]) */
  function SessionTranscript(hash: seq<Byte>): seq<Byte>
    requires |hash| == 32
  {
    WriteHead(4, 3) + [NULL, NULL] + WriteHead(4, 2) + WriteString(3, HANDOVER_LABEL) + WriteString(2, hash)
  }

  /** What `challenge_digest` demands: one definite array of three items with nothing after it. */
  ghost predicate IsThreeItems(T: Text, st: seq<Byte>) {
    && Head(st, 0).Some? && Head(st, 0).value.major == 4 && Head(st, 0).value.argument == 3
    && EndOf(T.utf8, st, 0, 0) == Some(|st|)
  }

  lemma NullEnds(utf8: seq<Byte> -> bool, d: seq<Byte>, p: nat, depth: nat)
    requires p < |d| && d[p] == NULL && depth <= MAX_DEPTH
    ensures EndOf(utf8, d, p, depth) == Some(p + 1)
  {
    assert Head(d, p) == Some(HeadOf(7, 22, 1));
  }

  /** The inner array of two strings. */
  lemma InnerArrayEnds(utf8: seq<Byte> -> bool, before: seq<Byte>, hash: seq<Byte>)
    requires |hash| == 32 && utf8(HANDOVER_LABEL)
    ensures var d := before + WriteHead(4, 2) + WriteString(3, HANDOVER_LABEL) + WriteString(2, hash);
      EndOf(utf8, d, |before|, 1) == Some(|d|)
  {
    var h, name, digest := WriteHead(4, 2), WriteString(3, HANDOVER_LABEL), WriteString(2, hash);
    var d := before + h + name + digest;
    assert d == before + h + (name + digest);
    HeadRoundTrip(before, 4, 2, name + digest);
    TwoStringsEnd(utf8, before + h, HANDOVER_LABEL, hash);
  }

  lemma TwoStringsEnd(utf8: seq<Byte> -> bool, before: seq<Byte>, text: seq<Byte>, bytes: seq<Byte>)
    requires |text| < 0x1_0000_0000 && |bytes| < 0x1_0000_0000 && utf8(text)
    ensures var d := before + WriteString(3, text) + WriteString(2, bytes);
      EndOfItems(utf8, d, |before|, 2, 2) == Some(|d|)
  {
    var a, b := WriteString(3, text), WriteString(2, bytes);
    var d := before + a + b;
    StringRoundTrip(utf8, before, 3, text, b, 2);
    assert d == before + a + b + [];
    StringRoundTrip(utf8, before + a, 2, bytes, [], 2);
    TwoItems(utf8, d, |before|, |before| + |a|, |d|, 2);
  }

  lemma TwoItems(utf8: seq<Byte> -> bool, d: seq<Byte>, p: nat, q: nat, r: nat, depth: nat)
    requires p <= |d| && EndOf(utf8, d, p, depth) == Some(q) && EndOf(utf8, d, q, depth) == Some(r)
    ensures EndOfItems(utf8, d, p, 2, depth) == Some(r)
  {
    assert EndOfItems(utf8, d, r, 0, depth) == Some(r);
    assert EndOfItems(utf8, d, q, 1, depth) == Some(r);
  }

  lemma ThreeItems(utf8: seq<Byte> -> bool, d: seq<Byte>, p: nat, q: nat, r: nat, s: nat, depth: nat)
    requires p <= |d| && EndOf(utf8, d, p, depth) == Some(q) && EndOf(utf8, d, q, depth) == Some(r)
      && EndOf(utf8, d, r, depth) == Some(s)
    ensures EndOfItems(utf8, d, p, 3, depth) == Some(s)
  {
    TwoItems(utf8, d, q, r, s, depth);
  }

  /** The SessionTranscript that the derivation builds always passes the check on it. */
  lemma SessionTranscriptAccepted(T: Text, hash: seq<Byte>)
    requires GoodText(T) && |hash| == 32
    ensures IsThreeItems(T, SessionTranscript(hash))
  {
    var d := SessionTranscript(hash);
    InnerArrayEnds(T.utf8, WriteHead(4, 3) + [NULL, NULL], hash);
    SessionTranscriptStarts(hash);
    NullEnds(T.utf8, d, 1, 1);
    NullEnds(T.utf8, d, 2, 1);
    ThreeItems(T.utf8, d, 1, 2, 3, |d|, 1);
  }

  lemma SessionTranscriptStarts(hash: seq<Byte>)
    requires |hash| == 32
    ensures var d := SessionTranscript(hash);
      |d| > 3 && d[1] == NULL && d[2] == NULL && Head(d, 0) == Some(HeadOf(4, 3, 1))
        && |WriteHead(4, 3) + [NULL, NULL]| == 3
  {
    var front := WriteHead(4, 3) + [NULL, NULL];
    assert front == [0x83, NULL, NULL] && SessionTranscript(hash)[..3] == front;
  }

  /** The message whose hash is the challenge. */
  function ChallengeMessage(st: seq<Byte>, docType: seq<Byte>): seq<Byte>
    requires |st| < 0x1000_0000 && |docType| <= MAX_FIELD_BYTES
  {
    WriteHead(4, 4) + (WriteString(3, SIGNATURE1) + (WriteString(2, PROTECTED_HEADER) + (
      WriteString(2, []) + WriteString(2, Payload(Authentication(st, docType))))))
  }

  /** What is signed: the encoded authentication, tagged as encoded CBOR. */
  function Payload(auth: seq<Byte>): (payload: seq<Byte>)
    requires |auth| < 0x2000_0000
    ensures |payload| < 0x2000_0100
  {
    WriteHead(6, 24) + WriteString(2, auth)
  }

  function Authentication(st: seq<Byte>, docType: seq<Byte>): (auth: seq<Byte>)
    requires |st| < 0x1000_0000 && |docType| <= MAX_FIELD_BYTES
    ensures |auth| < 0x2000_0000
  {
    WriteHead(4, 4) + (WriteString(3, DEVICE_AUTHENTICATION) + (st + (WriteString(3, docType) + (
      WriteHead(6, 24) + WriteString(2, EMPTY_MAP)))))
  }

  // ----- What a reader finds in the transcript and in the message -----

  /** Handover info: an array of three items, the origin, the nonce, and null or the thumbprint. */
  ghost predicate IsInfo(info: seq<Byte>, origin: seq<Byte>, nonce: seq<Byte>, thumbprint: Option<seq<Byte>>) {
    exists p: nat, q: nat, r: nat ::
      ArrayAt(info, 0, 3, p) && StringAt(info, p, 3, origin, q) && StringAt(info, q, 3, nonce, r)
      && ThumbprintAt(info, r, thumbprint, |info|)
  }

  ghost predicate ThumbprintAt(info: seq<Byte>, p: nat, thumbprint: Option<seq<Byte>>, q: nat) {
    match thumbprint
    case None => NullAt(info, p, q)
    case Some(t) => StringAt(info, p, 2, t, q)
  }

  /** A SessionTranscript: null, null, and an array of the label and the hash, with nothing after it. */
  ghost predicate IsTranscript(utf8: seq<Byte> -> bool, st: seq<Byte>, hash: seq<Byte>) {
    && ArrayAt(st, 0, 3, 1) && NullAt(st, 1, 2) && NullAt(st, 2, 3) && ItemStart(utf8, st, 1, 2) == Some(3)
    && exists p: nat, q: nat ::
         ArrayAt(st, 3, 2, p) && StringAt(st, p, 3, HANDOVER_LABEL, q) && StringAt(st, q, 2, hash, |st|)
  }

  /** Device authentication: the name, the transcript as a whole item, the document type and an encoded empty map. */
  ghost predicate IsAuthentication(utf8: seq<Byte> -> bool, auth: seq<Byte>, st: seq<Byte>, docType: seq<Byte>) {
    exists p: nat, q: nat, r: nat, s: nat, t: nat ::
      ArrayAt(auth, 0, 4, p) && StringAt(auth, p, 3, DEVICE_AUTHENTICATION, q)
      && EndOf(utf8, auth, q, 0) == Some(r) && q <= r <= |auth| && auth[q..r] == st
      && StringAt(auth, r, 3, docType, s) && TagAt(auth, s, t) && StringAt(auth, t, 2, EMPTY_MAP, |auth|)
  }

  ghost predicate IsPayload(payload: seq<Byte>, auth: seq<Byte>) {
    exists p: nat :: TagAt(payload, 0, p) && StringAt(payload, p, 2, auth, |payload|)
  }

  /** The hashed message: the name, the protected header, no external data, and the payload. */
  ghost predicate IsMessage(message: seq<Byte>, payload: seq<Byte>) {
    exists p: nat, q: nat, r: nat, s: nat ::
      ArrayAt(message, 0, 4, p) && StringAt(message, p, 3, SIGNATURE1, q)
        && StringAt(message, q, 2, PROTECTED_HEADER, r)
      && StringAt(message, r, 2, [], s) && StringAt(message, s, 2, payload, |message|)
  }

  /** The message reads back to the transcript and the document type. */
  ghost predicate MessageHolds(utf8: seq<Byte> -> bool, message: seq<Byte>, st: seq<Byte>, docType: seq<Byte>) {
    exists payload, auth ::
      IsMessage(message, payload) && IsPayload(payload, auth) && IsAuthentication(utf8, auth, st, docType)
  }

  /** What `derive_challenge` hashes into the transcript. */
  function Info(origin: seq<Byte>, nonce: seq<Byte>, thumbprint: Option<seq<Byte>>): seq<Byte>
    requires |origin| <= MAX_FIELD_BYTES && |nonce| <= MAX_FIELD_BYTES
      && (thumbprint.Some? ==> |thumbprint.value| == 32)
  {
    WriteHead(4, 3) + (WriteString(3, origin) + (WriteString(3, nonce) + (
      if thumbprint.None? then [NULL] else WriteString(2, thumbprint.value))))
  }

  lemma NullStands(d: seq<Byte>, p: nat, q: nat)
    requires Stands(d, p, q, [NULL])
    ensures NullAt(d, p, q)
  {
    assert [NULL][0] == NULL && d[p + 0] == NULL;
  }

  lemma WholeStands(d: seq<Byte>)
    ensures Stands(d, 0, |d|, d)
  {
  }

  lemma InfoReads(origin: seq<Byte>, nonce: seq<Byte>, thumbprint: Option<seq<Byte>>)
    requires |origin| <= MAX_FIELD_BYTES && |nonce| <= MAX_FIELD_BYTES
      && (thumbprint.Some? ==> |thumbprint.value| == 32)
    ensures IsInfo(Info(origin, nonce, thumbprint), origin, nonce, thumbprint)
  {
    var info := Info(origin, nonce, thumbprint);
    var end := |info|;
    var last := if thumbprint.None? then [NULL] else WriteString(2, thumbprint.value);
    WholeStands(info);
    var p := StandsApart(info, 0, end, WriteHead(4, 3), WriteString(3, origin) + (WriteString(3, nonce) + last));
    var q := StandsApart(info, p, end, WriteString(3, origin), WriteString(3, nonce) + last);
    var r := StandsApart(info, q, end, WriteString(3, nonce), last);
    ArrayStands(info, 0, p, 3);
    StringStands(info, p, q, 3, origin);
    StringStands(info, q, r, 3, nonce);
    if thumbprint.None? {
      NullStands(info, r, end);
    } else {
      StringStands(info, r, end, 2, thumbprint.value);
    }
    assert ThumbprintAt(info, r, thumbprint, end);
  }

  lemma TranscriptReads(utf8: seq<Byte> -> bool, hash: seq<Byte>)
    requires |hash| == 32
    ensures IsTranscript(utf8, SessionTranscript(hash), hash)
  {
    var st := SessionTranscript(hash);
    var end := |st|;
    SessionTranscriptStarts(hash);
    WholeStands(st);
    var a := StandsApart(st, 0, end, WriteHead(4, 3) + [NULL, NULL] + WriteHead(4, 2) + WriteString(3, HANDOVER_LABEL),
                         WriteString(2, hash));
    var b := StandsApart(st, 0, a, WriteHead(4, 3) + [NULL, NULL] + WriteHead(4, 2), WriteString(3, HANDOVER_LABEL));
    var c := StandsApart(st, 0, b, WriteHead(4, 3) + [NULL, NULL], WriteHead(4, 2));
    ArrayStands(st, c, b, 2);
    StringStands(st, b, a, 3, HANDOVER_LABEL);
    StringStands(st, a, end, 2, hash);
    assert Head(st, 1) == Some(HeadOf(7, 22, 1)) && Head(st, 2) == Some(HeadOf(7, 22, 1));
    NullEnds(utf8, st, 1, 0);
    NullEnds(utf8, st, 2, 0);
    assert ItemStart(utf8, st, 2, 1) == Some(3);
  }

  lemma AuthenticationReads(utf8: seq<Byte> -> bool, st: seq<Byte>, docType: seq<Byte>)
    requires |st| < 0x1000_0000 && |docType| <= MAX_FIELD_BYTES && EndOf(utf8, st, 0, 0) == Some(|st|)
    ensures IsAuthentication(utf8, Authentication(st, docType), st, docType)
  {
    var auth := Authentication(st, docType);
    var end, tag := |auth|, WriteHead(6, 24) + WriteString(2, EMPTY_MAP);
    WholeStands(auth);
    var name, doc := WriteString(3, DEVICE_AUTHENTICATION), WriteString(3, docType);
    var p := StandsApart(auth, 0, end, WriteHead(4, 4), name + (st + (doc + tag)));
    var q := StandsApart(auth, p, end, name, st + (doc + tag));
    var r := StandsApart(auth, q, end, st, doc + tag);
    var s := StandsApart(auth, r, end, doc, tag);
    var t := StandsApart(auth, s, end, WriteHead(6, 24), WriteString(2, EMPTY_MAP));
    ArrayStands(auth, 0, p, 4);
    StringStands(auth, p, q, 3, DEVICE_AUTHENTICATION);
    ItemStands(utf8, auth, q, r, st);
    StringStands(auth, r, s, 3, docType);
    TagStands(auth, s, t);
    StringStands(auth, t, end, 2, EMPTY_MAP);
  }

  lemma PayloadReads(auth: seq<Byte>)
    requires |auth| < 0x2000_0000
    ensures IsPayload(Payload(auth), auth)
  {
    var payload := Payload(auth);
    WholeStands(payload);
    var p := StandsApart(payload, 0, |payload|, WriteHead(6, 24), WriteString(2, auth));
    TagStands(payload, 0, p);
    StringStands(payload, p, |payload|, 2, auth);
  }

  /** The message that is hashed reads back to the transcript and the document type. */
  lemma MessageReads(utf8: seq<Byte> -> bool, st: seq<Byte>, docType: seq<Byte>)
    requires |st| < 0x1000_0000 && |docType| <= MAX_FIELD_BYTES && EndOf(utf8, st, 0, 0) == Some(|st|)
    ensures MessageHolds(utf8, ChallengeMessage(st, docType), st, docType)
  {
    var auth := Authentication(st, docType);
    var message, payload := ChallengeMessage(st, docType), Payload(auth);
    var end := |message|;
    WholeStands(message);
    var a, b, c, d :=
      WriteString(3, SIGNATURE1), WriteString(2, PROTECTED_HEADER), WriteString(2, []), WriteString(2, payload);
    var p := StandsApart(message, 0, end, WriteHead(4, 4), a + (b + (c + d)));
    var q := StandsApart(message, p, end, a, b + (c + d));
    var r := StandsApart(message, q, end, b, c + d);
    var s := StandsApart(message, r, end, c, d);
    ArrayStands(message, 0, p, 4);
    StringStands(message, p, q, 3, SIGNATURE1);
    StringStands(message, q, r, 2, PROTECTED_HEADER);
    StringStands(message, r, s, 2, []);
    StringStands(message, s, end, 2, payload);
    assert IsMessage(message, payload);
    PayloadReads(auth);
    AuthenticationReads(utf8, st, docType);
  }

  // ----- What the challenge binds -----

  lemma InfoOnce(info: seq<Byte>, a: seq<Byte>, b: seq<Byte>, c: Option<seq<Byte>>, x: seq<Byte>, y: seq<Byte>,
                 z: Option<seq<Byte>>)
    requires IsInfo(info, a, b, c) && IsInfo(info, x, y, z)
    ensures a == x && b == y && c == z
  {
    var p: nat, q: nat, r: nat :| ArrayAt(info, 0, 3, p) && StringAt(info, p, 3, a, q) && StringAt(info, q, 3, b, r)
      && ThumbprintAt(info, r, c, |info|);
    var u: nat, v: nat, w: nat :| ArrayAt(info, 0, 3, u) && StringAt(info, u, 3, x, v) && StringAt(info, v, 3, y, w)
      && ThumbprintAt(info, w, z, |info|);
    assert p == u;
    StringOnce(info, p, 3, a, q, x, v);
    StringOnce(info, q, 3, b, r, y, w);
    ThumbprintOnce(info, r, c, z, |info|);
  }

  lemma ThumbprintOnce(info: seq<Byte>, p: nat, c: Option<seq<Byte>>, z: Option<seq<Byte>>, end: nat)
    requires ThumbprintAt(info, p, c, end) && ThumbprintAt(info, p, z, end)
    ensures c == z
  {
  }

  lemma TranscriptOnce(utf8: seq<Byte> -> bool, st: seq<Byte>, hash: seq<Byte>, other: seq<Byte>)
    requires IsTranscript(utf8, st, hash) && IsTranscript(utf8, st, other)
    ensures hash == other
  {
  }

  lemma PayloadOfMessageOnce(message: seq<Byte>, a: seq<Byte>, b: seq<Byte>)
    requires IsMessage(message, a) && IsMessage(message, b)
    ensures a == b
  {
    var end := |message|;
    var p: nat, q: nat, r: nat, s: nat :|
      ArrayAt(message, 0, 4, p) && StringAt(message, p, 3, SIGNATURE1, q)
        && StringAt(message, q, 2, PROTECTED_HEADER, r)
      && StringAt(message, r, 2, [], s) && StringAt(message, s, 2, a, end);
    var t: nat, u: nat, v: nat, w: nat :|
      ArrayAt(message, 0, 4, t) && StringAt(message, t, 3, SIGNATURE1, u)
        && StringAt(message, u, 2, PROTECTED_HEADER, v)
      && StringAt(message, v, 2, [], w) && StringAt(message, w, 2, b, end);
    assert p == t;
    StringOnce(message, p, 3, SIGNATURE1, q, SIGNATURE1, u);
    StringOnce(message, q, 2, PROTECTED_HEADER, r, PROTECTED_HEADER, v);
    StringOnce(message, r, 2, [], s, [], w);
    StringOnce(message, s, 2, a, end, b, end);
  }

  lemma AuthenticationOfPayloadOnce(payload: seq<Byte>, a: seq<Byte>, b: seq<Byte>)
    requires IsPayload(payload, a) && IsPayload(payload, b)
    ensures a == b
  {
  }

  lemma AuthenticationOnce(utf8: seq<Byte> -> bool, auth: seq<Byte>, st: seq<Byte>, docType: seq<Byte>,
                           other: seq<Byte>,
                           otherType: seq<Byte>)
    requires IsAuthentication(utf8, auth, st, docType) && IsAuthentication(utf8, auth, other, otherType)
    ensures st == other && docType == otherType
  {
    var p: nat, q: nat, r: nat, s: nat :|
      ArrayAt(auth, 0, 4, p) && StringAt(auth, p, 3, DEVICE_AUTHENTICATION, q)
      && EndOf(utf8, auth, q, 0) == Some(r) && q <= r <= |auth| && auth[q..r] == st && StringAt(auth, r, 3, docType, s);
    var t: nat, u: nat, v: nat, w: nat :|
      ArrayAt(auth, 0, 4, t) && StringAt(auth, t, 3, DEVICE_AUTHENTICATION, u)
      && EndOf(utf8, auth, u, 0) == Some(v) && u <= v <= |auth| && auth[u..v] == other
      && StringAt(auth, v, 3, otherType, w);
    assert p == t;
    StringOnce(auth, p, 3, DEVICE_AUTHENTICATION, q, DEVICE_AUTHENTICATION, u);
    assert r == v;
    StringOnce(auth, r, 3, docType, s, otherType, w);
  }

  lemma MessageOnce(utf8: seq<Byte> -> bool, message: seq<Byte>, st: seq<Byte>, docType: seq<Byte>, other: seq<Byte>,
                    otherType: seq<Byte>)
    requires MessageHolds(utf8, message, st, docType) && MessageHolds(utf8, message, other, otherType)
    ensures st == other && docType == otherType
  {
    var payload, auth :|
      IsMessage(message, payload) && IsPayload(payload, auth) && IsAuthentication(utf8, auth, st, docType);
    var payload2, auth2 :|
      IsMessage(message, payload2) && IsPayload(payload2, auth2) && IsAuthentication(utf8, auth2, other, otherType);
    PayloadOfMessageOnce(message, payload, payload2);
    AuthenticationOfPayloadOnce(payload, auth, auth2);
    AuthenticationOnce(utf8, auth, st, docType, other, otherType);
  }

  /** The transcript of an accepted call: it holds the hash of an info that holds the arguments. */
  ghost predicate TranscriptOf(T: Text, st: seq<Byte>, origin: seq<Byte>, nonce: seq<Byte>,
                               thumbprint: Option<seq<Byte>>,
                               info: seq<Byte>)
  {
    IsInfo(info, origin, nonce, thumbprint) && IsTranscript(T.utf8, st, T.sha256(info))
  }

  /** Equal transcripts come from equal arguments, or their infos are a collision of the hash function. */
  lemma TranscriptBinds(T: Text, st: seq<Byte>, a: seq<Byte>, b: seq<Byte>, c: Option<seq<Byte>>, x: seq<Byte>,
                        y: seq<Byte>, z: Option<seq<Byte>>, info: seq<Byte>, other: seq<Byte>)
    requires TranscriptOf(T, st, a, b, c, info) && TranscriptOf(T, st, x, y, z, other)
    ensures (a == x && b == y && c == z) || (info != other && T.sha256(info) == T.sha256(other))
  {
    TranscriptOnce(T.utf8, st, T.sha256(info), T.sha256(other));
    if info == other {
      InfoOnce(info, a, b, c, x, y, z);
    }
  }

  /** Equal digests come from equal transcripts and document types, or their messages are a collision. */
  lemma DigestBinds(T: Text, st: seq<Byte>, docType: seq<Byte>, message: seq<Byte>, other: seq<Byte>,
                    otherType: seq<Byte>, otherMessage: seq<Byte>)
    requires MessageHolds(T.utf8, message, st, docType) && MessageHolds(T.utf8, otherMessage, other, otherType)
    requires T.sha256(message) == T.sha256(otherMessage)
    ensures (st == other && docType == otherType) || message != otherMessage
  {
    if message == otherMessage {
      MessageOnce(T.utf8, message, st, docType, other, otherType);
    }
  }

  /** `challenge_digest` */
  method ChallengeDigest(T: Text, st: seq<Byte>, docType: seq<Byte>) returns (digest: Option<seq<Byte>>)
    requires |st| < 0x1000_0000
    ensures digest.Some? <==> FieldOk(docType) && IsThreeItems(T, st)
    ensures digest.Some? ==>
      var message := ChallengeMessage(st, docType);
      digest.value == T.sha256(message) && MessageHolds(T.utf8, message, st, docType)
  {
    if !FieldOk(docType) {
      return None;
    }
    var head := Head(st, 0);
    var end := EndDepth(T.utf8, st, 0, 0);
    if head.None? || head.value.major != 4 || head.value.argument != 3 || end != Some(|st|) {
      return None;
    }
    MessageReads(T.utf8, st, docType);
    digest := Some(T.sha256(ChallengeMessage(st, docType)));
  }

  /** The arguments that `derive_challenge` accepts. */
  ghost predicate Derivable(T: Text, origin: seq<Byte>, nonce: seq<Byte>, docType: seq<Byte>,
                            thumbprint: Option<seq<Byte>>) {
    && FieldOk(origin) && FieldOk(nonce) && FieldOk(docType) && T.chars(nonce) >= MIN_NONCE_CHARS
    && (thumbprint.Some? ==> |thumbprint.value| == 32)
  }

  /**
   `derive_challenge`: succeeds exactly when its arguments are acceptable, because the check in `challenge_digest` never
   rejects what it has built. The transcript holds the origin, the nonce and the thumbprint, and the digest holds the
   transcript and the document type.
   */
  method DeriveChallenge(T: Text, origin: seq<Byte>, nonce: seq<Byte>, docType: seq<Byte>,
                         thumbprint: Option<seq<Byte>>)
      returns (r: Option<(seq<Byte>, seq<Byte>)>)
    requires GoodText(T)
    ensures r.Some? <==> Derivable(T, origin, nonce, docType, thumbprint)
    ensures r.Some? ==> |r.value.0| < 0x1000_0000 && IsThreeItems(T, r.value.0)
    ensures r.Some? ==> exists info :: TranscriptOf(T, r.value.0, origin, nonce, thumbprint, info)
    ensures r.Some? ==> exists message ::
      r.value.1 == T.sha256(message) && MessageHolds(T.utf8, message, r.value.0, docType)
  {
    if !FieldOk(origin) || !FieldOk(nonce) || !FieldOk(docType) || T.chars(nonce) < MIN_NONCE_CHARS {
      return None;
    }
    if thumbprint.Some? && |thumbprint.value| != 32 {
      return None;
    }
    var info := Info(origin, nonce, thumbprint);
    assert HashShape(T, info);
    var st := SessionTranscript(T.sha256(info));
    SessionTranscriptAccepted(T, T.sha256(info));
    InfoReads(origin, nonce, thumbprint);
    TranscriptReads(T.utf8, T.sha256(info));
    assert TranscriptOf(T, st, origin, nonce, thumbprint, info);
    var digest := ChallengeDigest(T, st, docType);
    r := Some((st, digest.value));
  }
}
