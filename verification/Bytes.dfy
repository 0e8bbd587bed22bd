/** Bytes, and the few operations on byte strings that several formats share. */
module Bytes {

  type Byte = b: int | 0 <= b < 256

  function Concat(parts: seq<seq<Byte>>): seq<Byte> {
    if |parts| == 0 then [] else parts[0] + Concat(parts[1..])
  }

  function Zeros(n: nat): (s: seq<Byte>)
    ensures |s| == n && forall i :: 0 <= i < n ==> s[i] == 0
  {
    seq(n, (i: nat) => 0)
  }

  lemma ZerosAdd(head: seq<Byte>, m: nat, n: nat)
    ensures head + Zeros(m) + Zeros(n) == head + Zeros(m + n)
  {
    assert Zeros(m) + Zeros(n) == Zeros(m + n);
  }

  lemma {:induction false} ConcatAppend(parts: seq<seq<Byte>>, last: seq<Byte>)
    ensures Concat(parts + [last]) == Concat(parts) + last
  {
    if |parts| == 0 {
      assert parts + [last] == [last];
      assert [last][1..] == [];
    } else {
      ConcatAppend(parts[1..], last);
      assert (parts + [last])[1..] == parts[1..] + [last];
    }
  }

  lemma ConcatNext(parts: seq<seq<Byte>>, i: nat)
    requires i < |parts|
    ensures Concat(parts[..i + 1]) == Concat(parts[..i]) + parts[i]
  {
    assert parts[..i + 1] == parts[..i] + [parts[i]];
    ConcatAppend(parts[..i], parts[i]);
  }

  /** n bytes, least significant first. */
  function LittleEndian(value: nat, n: nat): (bytes: seq<Byte>)
    ensures |bytes| == n
  {
    if n == 0 then [] else [value % 256] + LittleEndian(value / 256, n - 1)
  }

  function FromLittleEndian(bytes: seq<Byte>): nat {
    if |bytes| == 0 then 0 else bytes[0] + 256 * FromLittleEndian(bytes[1..])
  }

  ghost function Pow256(n: nat): (p: nat)
    ensures p > 0
  {
    if n == 0 then 1 else 256 * Pow256(n - 1)
  }

  lemma {:induction false} LittleEndianRoundTrip(value: nat, n: nat)
    requires value < Pow256(n)
    ensures FromLittleEndian(LittleEndian(value, n)) == value
  {
    if n > 0 {
      var q := value / 256;
      assert value == 256 * q + value % 256;
      assert q < Pow256(n - 1);
      LittleEndianRoundTrip(q, n - 1);
      assert LittleEndian(value, n)[1..] == LittleEndian(q, n - 1);
    }
  }

  lemma {:induction false} Pow256Grows(m: nat, n: nat)
    requires m <= n
    ensures Pow256(m) <= Pow256(n)
  {
    if m < n {
      Pow256Grows(m, n - 1);
    }
  }

  lemma {:induction false} SmallLittleEndian(value: nat, n: nat)
    requires value < 256 && n > 0
    ensures LittleEndian(value, n) == [value] + Zeros(n - 1)
  {
    if n > 1 {
      SmallLittleEndian(0, n - 1);
      assert [0] + Zeros(n - 2) == Zeros(n - 1);
    }
  }

  ghost predicate ElementsOfSize(elements: seq<seq<Byte>>, size: nat) {
    forall i :: 0 <= i < |elements| ==> |elements[i]| == size
  }

  lemma {:induction false} ConcatLength(elements: seq<seq<Byte>>, size: nat)
    requires ElementsOfSize(elements, size)
    ensures |Concat(elements)| == |elements| * size
  {
    if |elements| > 0 {
      ConcatLength(elements[1..], size);
      SizeNext(|elements| - 1, size);
    } else {
      assert |elements| * size == 0;
    }
  }

  /** n parts of `size` bytes. */
  function Cut(bytes: seq<Byte>, size: nat, n: nat): (parts: seq<seq<Byte>>)
    ensures |parts| == n
    decreases n
  {
    if n == 0 then [] else if |bytes| < size then [[]] + Cut([], size, n - 1)
      else [bytes[..size]] + Cut(bytes[size..], size, n - 1)
  }

  lemma SizeNext(m: nat, size: nat)
    ensures (m + 1) * size == size + m * size && m * size >= 0
  {
  }

  lemma {:induction false} CutConcat(bytes: seq<Byte>, size: nat, n: nat)
    requires |bytes| == n * size
    ensures Concat(Cut(bytes, size, n)) == bytes && ElementsOfSize(Cut(bytes, size, n), size)
  {
    if n > 0 {
      var m := n - 1;
      SizeNext(m, size);
      CutConcat(bytes[size..], size, m);
      assert Cut(bytes, size, n)[1..] == Cut(bytes[size..], size, m);
      assert bytes[..size] + bytes[size..] == bytes;
    } else {
      assert n * size == 0;
    }
  }

  // ----- Where bytes stand -----

  /** The bytes stand in b from position p up to position q. */
  ghost predicate Stands(b: seq<Byte>, p: nat, q: nat, part: seq<Byte>) {
    q == p + |part| <= |b| && forall i {:trigger part[i]} :: 0 <= i < |part| ==> b[p + i] == part[i]
  }

  lemma StandsApart(b: seq<Byte>, p: nat, q: nat, x: seq<Byte>, y: seq<Byte>) returns (m: nat)
    requires Stands(b, p, q, x + y)
    ensures Stands(b, p, m, x) && Stands(b, m, q, y)
  {
    m := p + |x|;
    forall i {:trigger x[i]} | 0 <= i < |x| ensures b[p + i] == x[i] {
      assert (x + y)[i] == x[i];
    }
    forall i {:trigger y[i]} | 0 <= i < |y| ensures b[m + i] == y[i] {
      assert (x + y)[|x| + i] == y[i];
    }
  }

  lemma StandsFirst(x: seq<Byte>, tail: seq<Byte>)
    ensures Stands(x + tail, 0, |x|, x)
  {
  }

  lemma StandsSlice(b: seq<Byte>, p: nat, q: nat, part: seq<Byte>)
    requires Stands(b, p, q, part)
    ensures b[p..q] == part && b[p..] == part + b[q..] && q == p + |part|
  {
  }
}
