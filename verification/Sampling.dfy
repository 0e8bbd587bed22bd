/**
 Sampling from the transcript (src/transcript.rs, src/fields/mod.rs): naturals and field elements by rejection, and
 naturals without replacement. The loops that reject have no bound in the source; here they give up after a number of
 attempts, and the values that they find do not depend on that number.
 */
module Sampling {
  import opened Options
  import opened Bytes
  import opened Arithmetic
  import opened TranscriptBytes
  import Sums

  // ----- Selections without replacement -----

  ghost predicate NoRepeats(s: seq<nat>) {
    forall i, j :: 0 <= i < j < |s| ==> s[i] != s[j]
  }

  ghost predicate Below(s: seq<nat>, max: nat) {
    forall i :: 0 <= i < |s| ==> s[i] < max
  }

  /** Draw i is a position in what is left of a list of the given length. */
  ghost predicate GoodDraws(draws: seq<nat>, length: nat) {
    |draws| <= length && forall i :: 0 <= i < |draws| ==> draws[i] < length - i
  }

  lemma DrawsRest(draws: seq<nat>, length: nat)
    requires |draws| > 0 && GoodDraws(draws, length)
    ensures length > 0 && GoodDraws(draws[1..], length - 1)
  {
    forall i | 0 <= i < |draws| - 1 ensures draws[1..][i] < length - 1 - i {
      assert draws[1..][i] == draws[i + 1];
    }
  }

  lemma DrawsMore(draws: seq<nat>, length: nat, first: nat)
    requires GoodDraws(draws, length) && first <= length
    ensures GoodDraws([first] + draws, length + 1)
  {
    var all := [first] + draws;
    forall i | 0 <= i < |all| ensures all[i] < length + 1 - i {
      assert i > 0 ==> all[i] == draws[i - 1];
    }
  }

  /** The list without its entry at position j, which the first entry replaces. */
  function Without(list: seq<nat>, j: nat): (rest: seq<nat>)
    requires j < |list|
    ensures |rest| == |list| - 1
  {
    if j == 0 then list[1..] else list[1..][j - 1 := list[0]]
  }

  /** Repeatedly take out the entry at the drawn position. */
  ghost function Picks(list: seq<nat>, draws: seq<nat>): (r: seq<nat>)
    requires GoodDraws(draws, |list|)
    ensures |r| == |draws|
    decreases |draws|
  {
    if |draws| == 0 then []
    else
      DrawsRest(draws, |list|);
      [list[draws[0]]] + Picks(Without(list, draws[0]), draws[1..])
  }

  lemma PicksHead(list: seq<nat>, draws: seq<nat>)
    requires GoodDraws(draws, |list|) && |draws| > 0
    ensures GoodDraws(draws[1..], |list| - 1)
    ensures Picks(list, draws)[0] == list[draws[0]]
      && Picks(list, draws)[1..] == Picks(Without(list, draws[0]), draws[1..])
  {
    DrawsRest(draws, |list|);
  }

  /** Taking one entry out leaves exactly the other entries. */
  lemma WithoutKeeps(list: seq<nat>, j: nat)
    requires j < |list| && NoRepeats(list)
    ensures NoRepeats(Without(list, j))
    ensures forall v :: v in Without(list, j) <==> v in list && v != list[j]
  {
    var rest := Without(list, j);
    forall v | v in list && v != list[j] ensures v in rest {
      var i :| 0 <= i < |list| && list[i] == v;
      assert i == 0 ==> rest[j - 1] == v;
      assert i > 0 ==> rest[i - 1] == v;
    }
  }

  lemma PrependNew(v: nat, rest: seq<nat>)
    requires NoRepeats(rest) && v !in rest
    ensures NoRepeats([v] + rest)
  {
    var s := [v] + rest;
    forall i, j | 0 <= i < j < |s| ensures s[i] != s[j] {
      assert s[j] == rest[j - 1] && rest[j - 1] in rest;
      assert i > 0 ==> s[i] == rest[i - 1];
    }
  }

  /** A selection has no repeats and comes from the list. */
  lemma {:induction false} PicksFrom(list: seq<nat>, draws: seq<nat>)
    requires GoodDraws(draws, |list|) && NoRepeats(list)
    ensures NoRepeats(Picks(list, draws)) && forall v :: v in Picks(list, draws) ==> v in list
    decreases |draws|
  {
    if |draws| > 0 {
      PicksHead(list, draws);
      WithoutKeeps(list, draws[0]);
      var rest := Picks(Without(list, draws[0]), draws[1..]);
      PicksFrom(Without(list, draws[0]), draws[1..]);
      PrependNew(list[draws[0]], rest);
      assert Picks(list, draws) == [list[draws[0]]] + rest;
    }
  }

  lemma SamePosition(list: seq<nat>, i: nat, j: nat)
    requires NoRepeats(list) && i < |list| && j < |list| && list[i] == list[j]
    ensures i == j
  {
  }

  lemma PicksSame(list: seq<nat>, a: seq<nat>, b: seq<nat>)
    requires NoRepeats(list) && GoodDraws(a, |list|) && GoodDraws(b, |list|) && Picks(list, a) == Picks(list, b)
    requires |a| > 0 && |b| > 0
    ensures a[0] == b[0] && GoodDraws(a[1..], |list| - 1) && GoodDraws(b[1..], |list| - 1)
    ensures Picks(Without(list, a[0]), a[1..]) == Picks(Without(list, a[0]), b[1..])
  {
    PicksHead(list, a);
    PicksHead(list, b);
    assert a[0] < |list| && b[0] < |list|;
    SamePosition(list, a[0], b[0]);
  }

  /** Different draws give different selections. */
  lemma {:induction false} PicksInjective(list: seq<nat>, a: seq<nat>, b: seq<nat>)
    requires NoRepeats(list) && GoodDraws(a, |list|) && GoodDraws(b, |list|) && Picks(list, a) == Picks(list, b)
    ensures a == b
    decreases |a|
  {
    assert |a| == |Picks(list, a)| == |b|;
    if |a| > 0 {
      PicksSame(list, a, b);
      WithoutKeeps(list, a[0]);
      PicksInjective(Without(list, a[0]), a[1..], b[1..]);
      assert a == [a[0]] + a[1..] && b == [b[0]] + b[1..];
    }
  }

  /** Every selection without repeats comes from some draws. */
  lemma {:induction false} EverySelectionIsPicked(list: seq<nat>, selection: seq<nat>) returns (draws: seq<nat>)
    requires NoRepeats(list) && NoRepeats(selection) && forall v :: v in selection ==> v in list
    ensures GoodDraws(draws, |list|) && Picks(list, draws) == selection
    decreases |selection|
  {
    if |selection| == 0 {
      draws := [];
    } else {
      assert selection[0] in list;
      var j :| 0 <= j < |list| && list[j] == selection[0];
      WithoutKeeps(list, j);
      RestWithout(selection);
      var rest := EverySelectionIsPicked(Without(list, j), selection[1..]);
      draws := [j] + rest;
      DrawsMore(rest, |list| - 1, j);
      PicksHead(list, draws);
      assert draws[1..] == rest && selection == [selection[0]] + selection[1..];
      assert Picks(list, draws) == [list[j]] + Picks(list, draws)[1..];
    }
  }

  /** What position t holds before step i, when every step before swaps its own position with the drawn one. */
  ghost function Held(list: seq<nat>, draws: seq<nat>, i: nat, t: nat): nat
    requires GoodDraws(draws, |list|) && i <= |draws| && i <= t < |list|
  {
    if i == 0 then list[t]
    else if i - 1 + draws[i - 1] == t then Held(list, draws, i - 1, i - 1)
    else Held(list, draws, i - 1, t)
  }

  lemma {:induction false} HeldShift(list: seq<nat>, draws: seq<nat>, i: nat, t: nat)
    requires GoodDraws(draws, |list|) && 1 <= i <= |draws| && i <= t < |list|
    requires GoodDraws(draws[1..], |list| - 1)
    ensures Held(list, draws, i, t) == Held(Without(list, draws[0]), draws[1..], i - 1, t - 1)
    decreases i
  {
    if i > 1 {
      HeldShift(list, draws, i - 1, i - 1);
      HeldShift(list, draws, i - 1, t);
      assert draws[1..][i - 2] == draws[i - 1];
    }
  }

  /** Entry i of a selection is what the drawn position holds after the swaps of the steps before. */
  lemma {:induction false} PicksHeld(list: seq<nat>, draws: seq<nat>, i: nat)
    requires GoodDraws(draws, |list|) && i < |draws|
    ensures Picks(list, draws)[i] == Held(list, draws, i, i + draws[i])
    decreases i
  {
    PicksHead(list, draws);
    if i > 0 {
      var rest, others := draws[1..], Without(list, draws[0]);
      assert rest[i - 1] == draws[i];
      PicksHeld(others, rest, i - 1);
      HeldShift(list, draws, i, i + draws[i]);
      LaterEntry(Picks(list, draws), Picks(others, rest), i);
    }
  }

  lemma LaterEntry(s: seq<nat>, rest: seq<nat>, i: nat)
    requires 0 < i < |s| && s[1..] == rest
    ensures s[i] == rest[i - 1]
  {
    assert s[i] == s[1..][i - 1];
  }

  lemma RestWithout(selection: seq<nat>)
    requires NoRepeats(selection) && |selection| > 0
    ensures NoRepeats(selection[1..]) && forall v :: v in selection[1..] ==> v in selection && v != selection[0]
  {
    var rest := selection[1..];
    forall v | v in rest ensures v != selection[0] {
      var i :| 0 <= i < |rest| && rest[i] == v;
      assert selection[i + 1] == v;
    }
  }

  /** 0, 1, ..., max - 1 */
  function Naturals(max: nat): (list: seq<nat>)
    ensures |list| == max && forall i :: 0 <= i < max ==> list[i] == i
  {
    seq(max, (i: nat) => i)
  }

  /** Whatever is drawn, a selection from the naturals below max has no repeats and stays below max. */
  lemma NaturalsPicked(max: nat, draws: seq<nat>)
    requires GoodDraws(draws, max)
    ensures NoRepeats(Picks(Naturals(max), draws)) && Below(Picks(Naturals(max), draws), max)
  {
    var s := Picks(Naturals(max), draws);
    PicksFrom(Naturals(max), draws);
    forall i | 0 <= i < |s| ensures s[i] < max {
      assert s[i] in s;
    }
  }

  // ----- Rejection -----

  /** A sampled value and the position of the stream after it. */
  datatype Drawn<T> = Drawn(value: T, position: nat)

  /** The first acceptable one among the given number of candidates of n bytes, from position p of the stream on. */
  ghost function FirstGood<Key, T>(P: Primitives<Key>, key: Key, p: nat, n: nat, accept: seq<Byte> -> Option<T>,
                                   attempts: nat)
      : Option<Drawn<T>>
    decreases attempts
  {
    if attempts == 0 then None
    else
      match accept(Stream(P, key, p, n))
      case Some(value) => Some(Drawn(value, p + n))
      case None => FirstGood(P, key, p + n, n, accept, attempts - 1)
  }

  /** Only the first acceptable candidate counts, so that the bound on the attempts does not change what is found. */
  lemma {:induction false} MoreAttempts<Key, T>(P: Primitives<Key>, key: Key, p: nat, n: nat,
                                                accept: seq<Byte> -> Option<T>, few: nat, many: nat)
    requires few <= many && FirstGood(P, key, p, n, accept, few).Some?
    ensures FirstGood(P, key, p, n, accept, many) == FirstGood(P, key, p, n, accept, few)
    decreases few
  {
    if accept(Stream(P, key, p, n)).None? {
      MoreAttempts(P, key, p + n, n, accept, few - 1, many - 1);
    }
  }

  /** Candidate k is the first acceptable one, and q is the position after it. */
  ghost predicate FirstAt<Key, T>(P: Primitives<Key>, key: Key, p: nat, n: nat, accept: seq<Byte> -> Option<T>, v: T,
                                  q: nat, k: nat)
  {
    && accept(Stream(P, key, p + k * n, n)) == Some(v) && q == p + (k + 1) * n
    && forall i: nat {:trigger Rejects(P, key, p, n, accept, i)} :: i < k ==> Rejects(P, key, p, n, accept, i)
  }

  ghost predicate Rejects<Key, T>(P: Primitives<Key>, key: Key, p: nat, n: nat, accept: seq<Byte> -> Option<T>,
                                  i: nat) {
    accept(Stream(P, key, p + i * n, n)) == None
  }

  lemma {:induction false} FirstGoodIs<Key, T>(P: Primitives<Key>, key: Key, p: nat, n: nat,
                                               accept: seq<Byte> -> Option<T>, attempts: nat, v: T, q: nat)
      returns (k: nat)
    requires FirstGood<Key, T>(P, key, p, n, accept, attempts) == Some(Drawn(v, q))
    ensures k < attempts && FirstAt(P, key, p, n, accept, v, q, k)
    decreases attempts
  {
    assert p + 0 * n == p;
    if accept(Stream(P, key, p, n)).Some? {
      k := 0;
    } else {
      var next := p + n;
      var j := FirstGoodIs(P, key, next, n, accept, attempts - 1, v, q);
      k := j + 1;
      StepsApart(p, n, j);
      StepsApart(p, n, j + 1);
      forall i: nat {:trigger Rejects(P, key, p, n, accept, i)} | i < k ensures Rejects(P, key, p, n, accept, i) {
        if i > 0 {
          StepsApart(p, n, i - 1);
          assert Rejects(P, key, next, n, accept, i - 1);
        }
      }
    }
  }

  lemma StepsApart(p: nat, n: nat, j: nat)
    ensures p + (j + 1) * n == p + n + j * n
  {
  }

  /** What a sampler leaves behind: the value, or nothing, and the position in the stream. */
  ghost predicate Samples<Key(!new, 0), T>(transcript: Transcript<Key>, d: Option<Drawn<T>>, r: Option<T>)
    reads transcript
  {
    match d
    case None => r == None
    case Some(d) => r == Some(d.value) && transcript.Drawn() == d.position
  }

  method SampleGood<Key(!new, 0), T>(transcript: Transcript<Key>, n: nat, accept: seq<Byte> -> Option<T>, attempts: nat)
      returns (r: Option<T>)
    requires transcript.Valid()
    modifies transcript
    ensures transcript.Valid() && transcript.written == old(transcript.written)
    ensures Samples(transcript,
      FirstGood(transcript.P, transcript.P.hash(transcript.written), old(transcript.Drawn()), n, accept, attempts), r)
  {
    ghost var P, key := transcript.P, transcript.P.hash(transcript.written);
    ghost var start := transcript.Drawn();
    for i := 0 to attempts
      invariant transcript.Valid() && transcript.written == old(transcript.written)
      invariant FirstGood(P, key, transcript.Drawn(), n, accept, attempts - i)
        == FirstGood(P, key, start, n, accept, attempts)
    {
      var bytes := transcript.NextBytes(n);
      r := accept(bytes);
      if r.Some? {
        return;
      }
      assert attempts - i - 1 == attempts - (i + 1);
    }
    r := None;
  }

  // ----- Naturals -----

  /** The number of bits of max - 1: `ilog2`, plus one unless max is a power of two. */
  function NumBits(max: nat): (bits: nat)
    requires max > 0
    ensures max <= Sums.Exp2(bits) && (bits > 0 ==> Sums.Exp2(bits - 1) < max)
  {
    if max == 1 then 0 else 1 + NumBits((max + 1) / 2)
  }

  function NumBytes(bits: nat): nat {
    (bits + 7) / 8
  }

  function LowBits(b: Byte, n: nat): (low: Byte)
    ensures low == b % Sums.Exp2(n)
  {
    ModAtMost(b, Sums.Exp2(n));
    b % Sums.Exp2(n)
  }

  /** The excess bits of the last byte are cleared. */
  function Masked(bytes: seq<Byte>, bits: nat): (r: seq<Byte>)
    requires |bytes| == NumBytes(bits)
    ensures |r| == |bytes|
  {
    var used, last := bits % 8, |bytes| - 1;
    if used == 0 || last < 0 then bytes else bytes[last := LowBits(bytes[last], used)]
  }

  lemma MaskedRest(bytes: seq<Byte>, bits: nat)
    requires |bytes| == NumBytes(bits) && 8 < bits
    ensures |bytes| > 0 && Masked(bytes, bits)[0] == bytes[0]
      && Masked(bytes, bits)[1..] == Masked(bytes[1..], bits - 8)
  {
  }

  /** Masking leaves the value of the bytes modulo the power of two. */
  lemma {:induction false} MaskedIsLow(bytes: seq<Byte>, bits: nat)
    requires |bytes| == NumBytes(bits)
    ensures FromLittleEndian(Masked(bytes, bits)) == FromLittleEndian(bytes) % Sums.Exp2(bits)
    decreases bits
  {
    if 8 < bits {
      var rest := bytes[1..];
      MaskedIsLow(rest, bits - 8);
      MaskedRest(bytes, bits);
      Exp2Byte(bits - 8);
      LowOfByte(bytes[0], FromLittleEndian(rest), Sums.Exp2(bits - 8));
    } else if 0 < bits {
      MaskedOne(bytes, bits);
    }
  }

  lemma MaskedOne(bytes: seq<Byte>, bits: nat)
    requires |bytes| == NumBytes(bits) && 0 < bits <= 8
    ensures FromLittleEndian(Masked(bytes, bits)) == FromLittleEndian(bytes) % Sums.Exp2(bits)
  {
    var b := bytes[0];
    assert bytes == [b];
    OneByte(b);
    if bits == 8 {
      Exp2Byte(0);
      DivUnique(b, Sums.Exp2(8), 0, b);
      assert Masked(bytes, bits) == bytes;
    } else {
      assert bits % 8 == bits;
      OneByte(LowBits(b, bits));
      assert Masked(bytes, bits) == [LowBits(b, bits)];
    }
  }

  lemma Exp2Byte(n: nat)
    ensures Sums.Exp2(n + 8) == 256 * Sums.Exp2(n)
  {
    Exp2Twice(n);
    Exp2Twice(n + 2);
    Exp2Twice(n + 4);
    Exp2Twice(n + 6);
  }

  lemma Exp2Twice(n: nat)
    ensures Sums.Exp2(n + 2) == 4 * Sums.Exp2(n)
  {
    assert Sums.Exp2(n + 1) == 2 * Sums.Exp2(n);
  }

  lemma LowOfByte(b: Byte, x: nat, m: nat)
    requires m > 0
    ensures (b + 256 * x) % (256 * m) == b + 256 * (x % m)
  {
    var q, r := x / m, x % m;
    assert b + 256 * x == (256 * m) * q + (b + 256 * r);
    DivUnique(b + 256 * x, 256 * m, q, b + 256 * r);
  }

  lemma OneByte(b: Byte)
    ensures FromLittleEndian([b]) == b
  {
    assert [b][1..] == [];
  }

  lemma {:induction false} BytesOfValue(bytes: seq<Byte>)
    ensures LittleEndian(FromLittleEndian(bytes), |bytes|) == bytes
  {
    if |bytes| > 0 {
      var v := FromLittleEndian(bytes[1..]);
      BytesOfValue(bytes[1..]);
      LowByte(bytes[0], v);
      assert bytes == [bytes[0]] + bytes[1..];
    }
  }

  lemma LowByte(b: Byte, v: nat)
    ensures (b + 256 * v) % 256 == b && (b + 256 * v) / 256 == v
  {
  }

  /** So the masked bytes are the encoding of that value. */
  lemma MaskedIsEncoding(bytes: seq<Byte>, bits: nat)
    requires |bytes| == NumBytes(bits)
    ensures Masked(bytes, bits) == LittleEndian(FromLittleEndian(bytes) % Sums.Exp2(bits), |bytes|)
  {
    MaskedIsLow(bytes, bits);
    BytesOfValue(Masked(bytes, bits));
  }

  /** The value of the masked bytes, if it is below max. */
  function Accepted(max: nat, bytes: seq<Byte>): (r: Option<nat>)
    requires max > 0
    ensures r.Some? ==> r.value < max
  {
    if |bytes| != NumBytes(NumBits(max)) then None
    else
      var natural := FromLittleEndian(Masked(bytes, NumBits(max)));
      if natural < max then Some(natural) else None
  }

  function AcceptNatural(max: nat): (accept: seq<Byte> -> Option<nat>)
    requires max > 0
    ensures AcceptsBelow(accept, max)
  {
    bytes => Accepted(max, bytes)
  }

  ghost predicate BelowAt(accept: seq<Byte> -> Option<nat>, max: nat, bytes: seq<Byte>) {
    accept(bytes).Some? ==> accept(bytes).value < max
  }

  ghost predicate AcceptsBelow(accept: seq<Byte> -> Option<nat>, max: nat) {
    forall bytes: seq<Byte> :: BelowAt(accept, max, bytes)
  }

  lemma {:induction false} AcceptedBelow<Key>(P: Primitives<Key>, key: Key, p: nat, max: nat, n: nat,
                                              accept: seq<Byte> -> Option<nat>, attempts: nat)
    requires AcceptsBelow(accept, max) && FirstGood<Key, nat>(P, key, p, n, accept, attempts).Some?
    ensures FirstGood<Key, nat>(P, key, p, n, accept, attempts).value.value < max
    decreases attempts
  {
    var bytes := Stream(P, key, p, n);
    if accept(bytes).None? {
      AcceptedBelow(P, key, p + n, max, n, accept, attempts - 1);
    } else {
      assert BelowAt(accept, max, bytes);
    }
  }

  ghost function NaturalFrom<Key>(P: Primitives<Key>, key: Key, p: nat, max: nat,
                                  attempts: nat): (d: Option<Drawn<nat>>)
    requires max > 0
    ensures d.Some? ==> d.value.value < max
  {
    var n, accept := NumBytes(NumBits(max)), AcceptNatural(max);
    var d := FirstGood<Key, nat>(P, key, p, n, accept, attempts);
    if d.Some? then
      AcceptedBelow(P, key, p, max, n, accept, attempts);
      d
    else None
  }

  // ----- What is drawn -----

  /** Candidate k from position p on: the value of its bytes, least significant first, modulo the power of two. */
  ghost function CandidateAt<Key>(P: Primitives<Key>, key: Key, p: nat, max: nat, k: nat): nat
    requires max > 0
  {
    var n := NumBytes(NumBits(max));
    FromLittleEndian(Stream(P, key, p + k * n, n)) % Sums.Exp2(NumBits(max))
  }

  /** Candidate k is the first one below max. */
  ghost predicate IsFirst<Key>(P: Primitives<Key>, key: Key, p: nat, max: nat, k: nat)
    requires max > 0
  {
    CandidateAt(P, key, p, max, k) < max && NoneBefore(P, key, p, max, k)
  }

  ghost predicate NoneBefore<Key>(P: Primitives<Key>, key: Key, p: nat, max: nat, k: nat)
    requires max > 0
  {
    forall i: nat :: i < k ==> CandidateAt(P, key, p, max, i) >= max
  }

  lemma CandidateNext<Key>(P: Primitives<Key>, key: Key, p: nat, q: nat, max: nat, k: nat)
    requires max > 0 && q == p + NumBytes(NumBits(max))
    ensures CandidateAt(P, key, p, max, k + 1) == CandidateAt(P, key, q, max, k)
  {
    var n := NumBytes(NumBits(max));
    assert p + (k + 1) * n == q + k * n;
  }

  lemma FirstCandidate<Key>(P: Primitives<Key>, key: Key, p: nat, max: nat)
    requires max > 0
    ensures var c := CandidateAt(P, key, p, max, 0);
      Accepted(max, Stream(P, key, p, NumBytes(NumBits(max)))) == if c < max then Some(c) else None
  {
    var n := NumBytes(NumBits(max));
    assert p + 0 * n == p;
    MaskedIsLow(Stream(P, key, p, n), NumBits(max));
  }

  lemma NaturalFromNext<Key>(P: Primitives<Key>, key: Key, p: nat, q: nat, max: nat, rest: nat)
    requires max > 0 && q == p + NumBytes(NumBits(max))
    ensures var c := CandidateAt(P, key, p, max, 0);
      NaturalFrom(P, key, p, max, rest + 1) == if c < max then Some(Drawn(c, q)) else NaturalFrom(P, key, q, max, rest)
  {
    FirstCandidate(P, key, p, max);
  }

  lemma RejectedNext<Key>(P: Primitives<Key>, key: Key, p: nat, q: nat, max: nat, k: nat)
    requires max > 0 && q == p + NumBytes(NumBits(max)) && NoneBefore(P, key, p, max, k + 1)
    ensures CandidateAt(P, key, p, max, 0) >= max && NoneBefore(P, key, q, max, k)
  {
    forall i: nat | i < k ensures CandidateAt(P, key, q, max, i) >= max {
      CandidateNext(P, key, p, q, max, i);
    }
  }

  /** If candidate k is the first below max and k > 0, it is candidate k - 1 from the next position on. */
  lemma FirstNext<Key>(P: Primitives<Key>, key: Key, p: nat, q: nat, max: nat, k: nat, v: nat)
    requires max > 0 && k > 0 && q == p + NumBytes(NumBits(max))
    requires IsFirst(P, key, p, max, k) && v == CandidateAt(P, key, p, max, k)
    ensures CandidateAt(P, key, p, max, 0) >= max
    ensures IsFirst(P, key, q, max, k - 1) && v == CandidateAt(P, key, q, max, k - 1)
  {
    RejectedNext(P, key, p, q, max, k - 1);
    CandidateNext(P, key, p, q, max, k - 1);
  }

  lemma EndsNext(p: nat, q: nat, max: nat, k: nat, end: nat)
    requires max > 0 && k > 0 && q == p + NumBytes(NumBits(max)) && EndsAt(p, max, k, end)
    ensures EndsAt(q, max, k - 1, end)
  {
    PositionAfter(p, NumBytes(NumBits(max)), k - 1);
  }

  lemma FoundFirst<Key>(P: Primitives<Key>, key: Key, p: nat, max: nat, attempts: nat, v: nat, end: nat)
    requires max > 0 && attempts > 0 && v == CandidateAt(P, key, p, max, 0) < max && EndsAt(p, max, 0, end)
    ensures NaturalFrom(P, key, p, max, attempts) == Some(Drawn(v, end))
  {
    assert end == p + 1 * NumBytes(NumBits(max));
    NaturalFromNext(P, key, p, p + NumBytes(NumBits(max)), max, attempts - 1);
  }

  /** The first candidate below max is what is drawn, and the bytes up to its end are used. */
  lemma {:induction false} NaturalFromFirst<Key>(P: Primitives<Key>, key: Key, p: nat, max: nat, attempts: nat, k: nat,
                                                 v: nat, end: nat)
    requires max > 0 && k < attempts && IsFirst(P, key, p, max, k) && v == CandidateAt(P, key, p, max, k)
    requires EndsAt(p, max, k, end)
    ensures NaturalFrom(P, key, p, max, attempts) == Some(Drawn(v, end))
    decreases k
  {
    if k == 0 {
      FoundFirst(P, key, p, max, attempts, v, end);
    } else {
      var q := p + NumBytes(NumBits(max));
      FirstNext(P, key, p, q, max, k, v);
      EndsNext(p, q, max, k, end);
      NaturalFromFirst(P, key, q, max, attempts - 1, k - 1, v, end);
      NaturalFromNext(P, key, p, q, max, attempts - 1);
    }
  }

  lemma PositionAfter(p: nat, n: nat, j: nat)
    ensures p + (j + 2) * n == p + n + (j + 1) * n
  {
  }

  /** Nothing is drawn exactly when none of the candidates is below max. */
  lemma NaturalFromNone<Key>(P: Primitives<Key>, key: Key, p: nat, max: nat, attempts: nat)
    requires max > 0
    ensures NaturalFrom(P, key, p, max, attempts).None? <==> NoneBefore(P, key, p, max, attempts)
  {
    var k: nat := 0;
    while k < attempts && CandidateAt(P, key, p, max, k) >= max
      invariant k <= attempts && NoneBefore(P, key, p, max, k)
    {
      k := k + 1;
    }
    if k < attempts {
      NaturalFromFirst(P, key, p, max, attempts, k, CandidateAt(P, key, p, max, k), EndOfCandidate(p, max, k));
    } else {
      AllRejected(P, key, p, max, attempts);
    }
  }

  lemma {:induction false} AllRejected<Key>(P: Primitives<Key>, key: Key, p: nat, max: nat, attempts: nat)
    requires max > 0 && NoneBefore(P, key, p, max, attempts)
    ensures NaturalFrom(P, key, p, max, attempts) == None
    decreases attempts
  {
    if attempts > 0 {
      var q, rest := p + NumBytes(NumBits(max)), attempts - 1;
      NaturalFromNext(P, key, p, q, max, rest);
      RejectedNext(P, key, p, q, max, rest);
      AllRejected(P, key, q, max, rest);
    }
  }

  /** What is drawn, and the position of the stream after it, in terms of the candidates. */
  ghost predicate IsDrawn<Key>(P: Primitives<Key>, key: Key, p: nat, max: nat, attempts: nat, natural: Option<nat>,
                               end: nat)
    requires max > 0
  {
    && (natural.None? <==> NoneBefore(P, key, p, max, attempts))
    && forall k: nat :: k < attempts && IsFirst(P, key, p, max, k) ==>
         natural == Some(CandidateAt(P, key, p, max, k)) && end == p + (k + 1) * NumBytes(NumBits(max))
  }

  lemma FoundIsDrawn<Key>(P: Primitives<Key>, key: Key, p: nat, max: nat, attempts: nat, natural: Option<nat>, end: nat)
    requires max > 0
    requires match NaturalFrom(P, key, p, max, attempts)
      case None => natural == None
      case Some(d) => natural == Some(d.value) && end == d.position
    ensures IsDrawn(P, key, p, max, attempts, natural, end)
  {
    NaturalFromNone(P, key, p, max, attempts);
    forall k: nat | k < attempts && IsFirst(P, key, p, max, k)
      ensures natural == Some(CandidateAt(P, key, p, max, k)) && end == p + (k + 1) * NumBytes(NumBits(max))
    {
      FirstIsDrawn(P, key, p, max, attempts, natural, end, k, CandidateAt(P, key, p, max, k),
        EndOfCandidate(p, max, k));
    }
  }

  lemma FirstIsDrawn<Key>(P: Primitives<Key>, key: Key, p: nat, max: nat, attempts: nat, natural: Option<nat>, end: nat,
                          k: nat, v: nat, last: nat)
    requires max > 0 && k < attempts && IsFirst(P, key, p, max, k)
    requires v == CandidateAt(P, key, p, max, k) && EndsAt(p, max, k, last)
    requires match NaturalFrom(P, key, p, max, attempts)
      case None => natural == None
      case Some(d) => natural == Some(d.value) && end == d.position
    ensures natural == Some(v) && end == last
  {
    NaturalFromFirst(P, key, p, max, attempts, k, v, last);
  }

  /** Every natural below max is drawn for some bytes of the stream: its own encoding. */
  lemma EveryNaturalIsDrawn<Key>(P: Primitives<Key>, key: Key, p: nat, max: nat, v: nat, attempts: nat)
    requires v < max && attempts > 0
    requires Stream(P, key, p, NumBytes(NumBits(max))) == LittleEndian(v, NumBytes(NumBits(max)))
    ensures NaturalFrom(P, key, p, max, attempts) == Some(Drawn(v, p + NumBytes(NumBits(max))))
  {
    EncodedCandidate(P, key, p, max, v);
    NaturalFromNext(P, key, p, p + NumBytes(NumBits(max)), max, attempts - 1);
  }

  lemma EncodedCandidate<Key>(P: Primitives<Key>, key: Key, p: nat, max: nat, v: nat)
    requires v < max && Stream(P, key, p, NumBytes(NumBits(max))) == LittleEndian(v, NumBytes(NumBits(max)))
    ensures CandidateAt(P, key, p, max, 0) == v
  {
    var bits := NumBits(max);
    BytesHoldBits(bits);
    LittleEndianRoundTrip(v, NumBytes(bits));
    DivUnique(v, Sums.Exp2(bits), 0, v);
    assert p + 0 * NumBytes(bits) == p;
  }

  lemma {:induction false} BytesHoldBits(bits: nat)
    ensures Sums.Exp2(bits) <= Pow256(NumBytes(bits))
    decreases bits
  {
    if bits > 8 {
      BytesHoldBits(bits - 8);
      Exp2Byte(bits - 8);
    } else if bits > 0 {
      Exp2AtMost(bits, 8);
      Exp2Byte(0);
      assert Pow256(1) == 256 * Pow256(0);
    }
  }

  lemma Exp2AtMost(m: nat, n: nat)
    requires m <= n
    ensures Sums.Exp2(m) <= Sums.Exp2(n)
  {
    for i := m to n
      invariant Sums.Exp2(m) <= Sums.Exp2(i)
    {
    }
  }

  /** `generate_natural` */
  method GenerateNatural<Key(!new, 0)>(transcript: Transcript<Key>, max: nat, attempts: nat)
      returns (natural: Option<nat>)
    requires transcript.Valid() && max > 0
    modifies transcript
    ensures transcript.Valid() && transcript.written == old(transcript.written)
    ensures Samples(transcript,
      NaturalFrom(transcript.P, transcript.P.hash(transcript.written), old(transcript.Drawn()), max, attempts), natural)
    ensures natural.Some? ==> natural.value < max
    ensures IsDrawn(transcript.P, transcript.P.hash(transcript.written), old(transcript.Drawn()), max, attempts,
      natural,
      transcript.Drawn())
  {
    ghost var P, key, p := transcript.P, transcript.P.hash(transcript.written), transcript.Drawn();
    natural := SampleGood(transcript, NumBytes(NumBits(max)), AcceptNatural(max), attempts);
    FoundIsDrawn(P, key, p, max, attempts, natural, transcript.Drawn());
  }

  // ----- Naturals without replacement -----

  /** A natural below max from position p of a stream, if one is found. */
  type Draw = (nat, nat) -> Option<Drawn<nat>>

  /** The entries that the drawn positions take out of the list, one after the other. */
  ghost function Sampled(draw: Draw, p: nat, list: seq<nat>, count: nat): Option<Drawn<seq<nat>>>
    requires count < |list|
    decreases count
  {
    if count == 0 then Some(Drawn([], p))
    else
      match draw(p, |list|)
      case None => None
      case Some(d) =>
        if d.value >= |list| then None
        else Prefixed([list[d.value]], Sampled(draw, d.position, Without(list, d.value), count - 1))
  }

  ghost function Prefixed(front: seq<nat>, d: Option<Drawn<seq<nat>>>): Option<Drawn<seq<nat>>> {
    match d
    case None => None
    case Some(d) => Some(Drawn(front + d.value, d.position))
  }

  lemma SwapStep(list: seq<nat>, i: nat, k: nat, next: seq<nat>)
    requires i + k < |list| && next == list[i := list[i + k]][i + k := list[i]]
    ensures next[..i + 1] == list[..i] + [list[i..][k]] && next[i + 1..] == Without(list[i..], k)
  {
  }

  lemma PrefixedTwice(a: seq<nat>, b: seq<nat>, d: Option<Drawn<seq<nat>>>)
    ensures Prefixed(a, Prefixed(b, d)) == Prefixed(a + b, d)
  {
    if d.Some? {
      assert a + (b + d.value.value) == a + b + d.value.value;
    }
  }

  lemma PrefixedNothing(d: Option<Drawn<seq<nat>>>)
    ensures Prefixed([], d) == d
  {
    if d.Some? {
      assert [] + d.value.value == d.value.value;
    }
  }

  /** What is still to come of the selection from position i of the list on. */
  ghost function ToCome(draw: Draw, p: nat, list: seq<nat>, i: nat, count: nat): Option<Drawn<seq<nat>>>
    requires i <= count < |list|
  {
    Prefixed(list[..i], Sampled(draw, p, list[i..], count - i))
  }

  lemma FirstToCome(draw: Draw, p: nat, list: seq<nat>, count: nat)
    requires count < |list|
    ensures ToCome(draw, p, list, 0, count) == Sampled(draw, p, list, count)
  {
    assert list[..0] == [] && list[0..] == list;
    PrefixedNothing(Sampled(draw, p, list, count));
  }

  lemma AllCame(draw: Draw, p: nat, list: seq<nat>, count: nat)
    requires count < |list|
    ensures ToCome(draw, p, list, count, count) == Some(Drawn(list[..count], p))
  {
    assert list[..count] + [] == list[..count];
  }

  lemma NothingToCome(draw: Draw, p: nat, list: seq<nat>, i: nat, count: nat)
    requires i < count < |list| && draw(p, |list| - i) == None
    ensures ToCome(draw, p, list, i, count) == None
  {
    assert |list[i..]| == |list| - i;
  }

  lemma SwapToCome(draw: Draw, p: nat, list: seq<nat>, i: nat, count: nat, next: seq<nat>, k: nat, q: nat)
    requires i < count < |list| && |next| == |list| && i + k < |list|
    requires draw(p, |list| - i) == Some(Drawn(k, q))
    requires next[..i + 1] == list[..i] + [list[i..][k]] && next[i + 1..] == Without(list[i..], k)
    ensures ToCome(draw, p, list, i, count) == ToCome(draw, q, next, i + 1, count)
  {
    ToComeFirst(draw, p, list, i, count, k, q);
    assert count - i - 1 == count - (i + 1);
  }

  lemma ToComeFirst(draw: Draw, p: nat, list: seq<nat>, i: nat, count: nat, k: nat, q: nat)
    requires i < count < |list| && i + k < |list| && draw(p, |list| - i) == Some(Drawn(k, q))
    ensures ToCome(draw, p, list, i, count)
      == Prefixed(list[..i] + [list[i..][k]], Sampled(draw, q, Without(list[i..], k), count - i - 1))
  {
    var rest := list[i..];
    SampledFirst(draw, p, rest, count - i, k, q);
    PrefixedTwice(list[..i], [rest[k]], Sampled(draw, q, Without(rest, k), count - i - 1));
  }

  lemma SampledFirst(draw: Draw, p: nat, list: seq<nat>, count: nat, k: nat, q: nat)
    requires 0 < count < |list| && k < |list| && draw(p, |list|) == Some(Drawn(k, q))
    ensures Sampled(draw, p, list, count) == Prefixed([list[k]], Sampled(draw, q, Without(list, k), count - 1))
  {
  }

  /** The draws from a transcript. */
  ghost function NaturalDraw<Key>(P: Primitives<Key>, key: Key, attempts: nat): Draw {
    (p: nat, max: nat) => if max == 0 then None else NaturalFrom(P, key, p, max, attempts)
  }

  lemma DrawIs<Key>(P: Primitives<Key>, key: Key, attempts: nat, p: nat, max: nat)
    requires max > 0
    ensures NaturalDraw(P, key, attempts)(p, max) == NaturalFrom(P, key, p, max, attempts)
  {
  }

  /** The selection from the naturals below max. */
  ghost function NaturalsFrom<Key>(P: Primitives<Key>, key: Key, p: nat, max: nat, count: nat,
                                   attempts: nat): Option<Drawn<seq<nat>>>
    requires count < max
  {
    Sampled(NaturalDraw(P, key, attempts), p, Naturals(max), count)
  }

  /** Position q comes after candidate k. */
  ghost predicate EndsAt(p: nat, max: nat, k: nat, q: nat)
    requires max > 0
  {
    q == p + (k + 1) * NumBytes(NumBits(max))
  }

  /** Natural v is the first candidate below max, and position q comes after it. */
  ghost predicate Yields<Key>(P: Primitives<Key>, key: Key, p: nat, max: nat, v: nat, q: nat)
    requires max > 0
  {
    exists k: nat :: IsFirst(P, key, p, max, k) && v == CandidateAt(P, key, p, max, k) && EndsAt(p, max, k, q)
  }

  /** The draws are the naturals that the stream yields one after the other, below max, max - 1 and so on. */
  ghost predicate AreDrawn<Key>(P: Primitives<Key>, key: Key, p: nat, max: nat, draws: seq<nat>, end: nat)
    decreases |draws|
  {
    if |draws| == 0 then p == end
    else
      max > 0 && exists q: nat ::
        Yields(P, key, p, max, draws[0], q) && AreDrawn(P, key, q, max - 1, draws[1..], end)
  }

  lemma FoundIsYielded<Key>(P: Primitives<Key>, key: Key, p: nat, max: nat, attempts: nat, v: nat, q: nat)
    requires max > 0 && NaturalFrom(P, key, p, max, attempts) == Some(Drawn(v, q))
    ensures Yields(P, key, p, max, v, q)
  {
    NaturalFromNone(P, key, p, max, attempts);
    var k := LeastCandidate(P, key, p, max, attempts);
    var end := EndOfCandidate(p, max, k);
    NaturalFromFirst(P, key, p, max, attempts, k, CandidateAt(P, key, p, max, k), end);
  }

  ghost function EndOfCandidate(p: nat, max: nat, k: nat): (end: nat)
    requires max > 0
    ensures EndsAt(p, max, k, end)
  {
    p + (k + 1) * NumBytes(NumBits(max))
  }

  lemma LeastCandidate<Key>(P: Primitives<Key>, key: Key, p: nat, max: nat, attempts: nat) returns (k: nat)
    requires max > 0 && !NoneBefore(P, key, p, max, attempts)
    ensures k < attempts && IsFirst(P, key, p, max, k)
  {
    k := 0;
    while CandidateAt(P, key, p, max, k) >= max
      invariant k < attempts && NoneBefore(P, key, p, max, k)
      decreases attempts - k
    {
      k := k + 1;
    }
  }

  lemma SampledHead(draw: Draw, p: nat, list: seq<nat>, count: nat, d: Drawn<seq<nat>>)
      returns (v: nat, q: nat, rest: Drawn<seq<nat>>)
    requires 0 < count < |list| && Sampled(draw, p, list, count) == Some(d)
    ensures draw(p, |list|) == Some(Drawn(v, q)) && v < |list|
    ensures Sampled(draw, q, Without(list, v), count - 1) == Some(rest)
    ensures d == Drawn([list[v]] + rest.value, rest.position)
  {
    var first := draw(p, |list|).value;
    v, q := first.value, first.position;
    rest := Sampled(draw, q, Without(list, v), count - 1).value;
  }

  ghost predicate YieldsAt<Key>(P: Primitives<Key>, key: Key, draw: Draw, p: nat, max: nat) {
    max > 0 && draw(p, max).Some? ==> Yields(P, key, p, max, draw(p, max).value.value, draw(p, max).value.position)
  }

  ghost predicate AlwaysYields<Key>(P: Primitives<Key>, key: Key, draw: Draw) {
    forall p: nat, max: nat :: YieldsAt(P, key, draw, p, max)
  }

  lemma DrawYields<Key>(P: Primitives<Key>, key: Key, attempts: nat)
    ensures AlwaysYields(P, key, NaturalDraw(P, key, attempts))
  {
    var draw := NaturalDraw(P, key, attempts);
    forall p: nat, max: nat ensures YieldsAt(P, key, draw, p, max) {
      if max > 0 && draw(p, max).Some? {
        DrawIs(P, key, attempts, p, max);
        var d := NaturalFrom(P, key, p, max, attempts).value;
        FoundIsYielded(P, key, p, max, attempts, d.value, d.position);
      }
    }
  }

  /** What is sampled is the selection by the naturals that the stream yields. */
  lemma {:induction false} SampledIsDrawn<Key>(P: Primitives<Key>, key: Key, draw: Draw, p: nat, list: seq<nat>,
                                               max: nat,
                                               count: nat, d: Drawn<seq<nat>>)
      returns (draws: seq<nat>)
    requires AlwaysYields(P, key, draw) && count < |list| == max && Sampled(draw, p, list, count) == Some(d)
    ensures |draws| == count && GoodDraws(draws, |list|) && d.value == Picks(list, draws)
    ensures AreDrawn(P, key, p, max, draws, d.position)
    decreases count
  {
    if count == 0 {
      draws := [];
    } else {
      var v, q, later := SampledHead(draw, p, list, count, d);
      assert YieldsAt(P, key, draw, p, max);
      var rest := SampledIsDrawn(P, key, draw, q, Without(list, v), max - 1, count - 1, later);
      draws := [v] + rest;
      PrependDraw(P, key, p, list, max - 1, v, q, rest, d.position);
    }
  }

  lemma PrependDraw<Key>(P: Primitives<Key>, key: Key, p: nat, list: seq<nat>, m: nat, v: nat, q: nat, rest: seq<nat>,
                         end: nat)
    requires v < |list| == m + 1 && Yields(P, key, p, |list|, v, q) && GoodDraws(rest, m)
    requires AreDrawn(P, key, q, m, rest, end)
    ensures GoodDraws([v] + rest, |list|) && AreDrawn(P, key, p, |list|, [v] + rest, end)
    ensures Picks(list, [v] + rest) == [list[v]] + Picks(Without(list, v), rest)
  {
    var draws := [v] + rest;
    DrawsMore(rest, m, v);
    assert draws[1..] == rest;
    PicksHead(list, draws);
    assert Picks(list, draws) == [list[v]] + Picks(list, draws)[1..];
  }

  /** A selection by naturals from the stream. */
  ghost predicate IsSelection<Key>(P: Primitives<Key>, key: Key, p: nat, max: nat, count: nat, s: seq<nat>, end: nat) {
    exists draws ::
      |draws| == count && GoodDraws(draws, max) && AreDrawn(P, key, p, max, draws, end)
        && s == Picks(Naturals(max), draws)
  }

  /** Its first entry is the first natural that the stream yields. */
  lemma FirstSelected<Key>(P: Primitives<Key>, key: Key, p: nat, max: nat, count: nat, s: seq<nat>, end: nat, k: nat)
    requires 0 < count < max && IsSelection(P, key, p, max, count, s, end) && IsFirst(P, key, p, max, k)
    ensures |s| == count && s[0] == CandidateAt(P, key, p, max, k)
  {
    var draws :| |draws| == count && GoodDraws(draws, max) && AreDrawn(P, key, p, max, draws, end)
      && s == Picks(Naturals(max), draws);
    var q: nat :| Yields(P, key, p, max, draws[0], q);
    var i: nat :| IsFirst(P, key, p, max, i) && draws[0] == CandidateAt(P, key, p, max, i) && EndsAt(p, max, i, q);
    PicksHead(Naturals(max), draws);
    OneFirst(P, key, p, max, i, k);
  }

  lemma OneFirst<Key>(P: Primitives<Key>, key: Key, p: nat, max: nat, i: nat, k: nat)
    requires max > 0 && IsFirst(P, key, p, max, i) && IsFirst(P, key, p, max, k)
    ensures i == k
  {
  }

  lemma NaturalsAreDistinct<Key>(P: Primitives<Key>, key: Key, p: nat, max: nat, count: nat, attempts: nat)
    requires count < max && NaturalsFrom(P, key, p, max, count, attempts).Some?
    ensures var s := NaturalsFrom(P, key, p, max, count, attempts).value.value;
      |s| == count && NoRepeats(s) && Below(s, max)
    ensures var d := NaturalsFrom(P, key, p, max, count, attempts).value;
      IsSelection(P, key, p, max, count, d.value, d.position)
  {
    var d := NaturalsFrom(P, key, p, max, count, attempts).value;
    DrawYields(P, key, attempts);
    var draws := SampledIsDrawn(P, key, NaturalDraw(P, key, attempts), p, Naturals(max), max, count, d);
    NaturalsPicked(max, draws);
  }

  /**
   `generate_naturals_without_replacement`: the in-place swaps take one remaining natural after the other. The result
   has no repeats, whatever the stream is.
   */
  method GenerateNaturalsWithoutReplacement<Key(!new, 0)>(transcript: Transcript<Key>, max: nat, count: nat,
                                                          attempts: nat)
      returns (r: Option<seq<nat>>)
    requires transcript.Valid() && max > count
    modifies transcript
    ensures transcript.Valid() && transcript.written == old(transcript.written)
    ensures Samples(transcript,
      NaturalsFrom(transcript.P, transcript.P.hash(transcript.written), old(transcript.Drawn()), max, count, attempts),
      r)
    ensures r.Some? ==> |r.value| == count && NoRepeats(r.value) && Below(r.value, max)
    ensures r.Some? ==>
      IsSelection(transcript.P, transcript.P.hash(transcript.written), old(transcript.Drawn()), max, count, r.value,
        transcript.Drawn())
  {
    ghost var P, key, start := transcript.P, transcript.P.hash(transcript.written), transcript.Drawn();
    ghost var draw := NaturalDraw(P, key, attempts);
    var list := Naturals(max);
    FirstToCome(draw, start, list, count);
    for i := 0 to count
      invariant transcript.Valid() && transcript.written == old(transcript.written) && |list| == max
      invariant NaturalsFrom(P, key, start, max, count, attempts) == ToCome(draw, transcript.Drawn(), list, i, count)
    {
      var next := SampleOne(transcript, draw, list, i, count, attempts);
      if next.None? {
        return None;
      }
      list := next.value;
    }
    r := Some(list[..count]);
    AllCame(draw, transcript.Drawn(), list, count);
    NaturalsAreDistinct(P, key, start, max, count, attempts);
  }

  /** The next natural, as the draw that it is. */
  method NextDraw<Key(!new, 0)>(transcript: Transcript<Key>, ghost draw: Draw, max: nat, attempts: nat)
      returns (k: Option<nat>)
    requires transcript.Valid() && max > 0
    requires draw == NaturalDraw(transcript.P, transcript.P.hash(transcript.written), attempts)
    modifies transcript
    ensures transcript.Valid() && transcript.written == old(transcript.written)
    ensures k.None? ==> draw(old(transcript.Drawn()), max) == None
    ensures k.Some? ==> k.value < max && draw(old(transcript.Drawn()), max) == Some(Drawn(k.value, transcript.Drawn()))
  {
    DrawIs(transcript.P, transcript.P.hash(transcript.written), attempts, transcript.Drawn(), max);
    k := GenerateNatural(transcript, max, attempts);
  }

  /** One turn of the loop. */
  method SampleOne<Key(!new, 0)>(transcript: Transcript<Key>, ghost draw: Draw, list: seq<nat>, i: nat,
                                 ghost count: nat, attempts: nat)
      returns (next: Option<seq<nat>>)
    requires transcript.Valid() && i < count < |list|
    requires draw == NaturalDraw(transcript.P, transcript.P.hash(transcript.written), attempts)
    modifies transcript
    ensures transcript.Valid() && transcript.written == old(transcript.written)
    ensures next.None? ==> ToCome(draw, old(transcript.Drawn()), list, i, count) == None
    ensures next.Some? ==>
      |next.value| == |list|
      && ToCome(draw, old(transcript.Drawn()), list, i, count)
        == ToCome(draw, transcript.Drawn(), next.value, i + 1, count)
  {
    ghost var p := transcript.Drawn();
    var k := NextDraw(transcript, draw, |list| - i, attempts);
    if k.None? {
      NothingToCome(draw, p, list, i, count);
      return None;
    }
    var j := i + k.value;
    var swapped := list[i := list[j]][j := list[i]];
    SwapStep(list, i, k.value, swapped);
    SwapToCome(draw, p, list, i, count, swapped, k.value, transcript.Drawn());
    next := Some(swapped);
  }
}
