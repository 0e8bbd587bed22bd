/**
 Sparse sumcheck arrays (src/sumcheck/bind/sparse.rs): the quads of one circuit layer, sorted by the interleaved bits of
 their wire indices, bound in place over the gate and then alternately over the left and right wires.
 */
module Sparse {
  import opened Fields
  import opened Sums
  import opened Dots
  import opened Bind

  datatype Hand = Left | Right

  function Opposite(hand: Hand): Hand {
    if hand.Left? then Right else Left
  }

  datatype QuadElement<F> = QuadElement(gate: nat, left: nat, right: nat, coefficient: F)
  {
    function HandWire(hand: Hand): nat {
      if hand.Left? then left else right
    }
  }

  function SameWires<F>(a: QuadElement<F>, b: QuadElement<F>): bool {
    a.left == b.left && a.right == b.right
  }

  // ----- Order -----

  /** The bits of a and b interleaved, bit 0 of b lowest. */
  ghost function Interleave(a: nat, b: nat): nat
    decreases 3 * a + 2 * b
  {
    if a == 0 && b == 0 then 0 else b % 2 + 2 * Interleave(b / 2, a)
  }

  lemma {:induction false} InterleaveInjective(a: nat, b: nat, c: nat, d: nat)
    requires Interleave(a, b) == Interleave(c, d)
    ensures a == c && b == d
    decreases 3 * a + 2 * b + 3 * c + 2 * d
  {
    InterleaveHalf(a, b);
    InterleaveHalf(c, d);
    if (a, b) != (0, 0) || (c, d) != (0, 0) {
      InterleaveInjective(b / 2, a, d / 2, c);
    }
  }

  lemma InterleaveHalf(a: nat, b: nat)
    ensures Interleave(a, b) % 2 == b % 2 && Interleave(a, b) / 2 == Interleave(b / 2, a)
  {
  }

  /** The key by which an array is sorted when it is about to be bound over `hand`. */
  ghost function Key<F>(hand: Hand, e: QuadElement<F>): nat {
    Interleave(e.HandWire(Opposite(hand)), e.HandWire(hand))
  }

  ghost predicate Increasing<F>(hand: Hand, q: seq<QuadElement<F>>) {
    forall i, j :: 0 <= i < j < |q| && j == i + 1 ==> Key(hand, q[i]) < Key(hand, q[j])
  }

  ghost predicate NonDecreasing<F>(hand: Hand, q: seq<QuadElement<F>>) {
    forall i, j :: 0 <= i < j < |q| && j == i + 1 ==> Key(hand, q[i]) <= Key(hand, q[j])
  }

  // ----- Merging neighbours -----

  function Merged<F>(R: Field<F>, a: QuadElement<F>, b: QuadElement<F>): QuadElement<F> {
    a.(coefficient := R.add(a.coefficient, b.coefficient))
  }

  /** The first n entries, with neighbours that have the same wires added up. */
  ghost function Compact<F>(R: Field<F>, q: seq<QuadElement<F>>, n: nat): (p: seq<QuadElement<F>>)
    requires n <= |q|
    ensures n > 0 ==> |p| > 0 && SameWires(p[|p| - 1], q[n - 1])
    ensures |p| <= n
  {
    if n == 0 then []
    else
      var p := Compact(R, q, n - 1);
      if n > 1 && SameWires(q[n - 2], q[n - 1]) then p[|p| - 1 := Merged(R, p[|p| - 1], q[n - 1])] else p + [q[n - 1]]
  }

  lemma CompactNext<F>(R: Field<F>, q: seq<QuadElement<F>>, n: nat)
    requires n < |q|
    ensures var p := Compact(R, q, n);
      Compact(R, q, n + 1) == if n > 0 && SameWires(q[n - 1], q[n]) then p[|p| - 1 := Merged(R, p[|p| - 1], q[n])]
        else p + [q[n]]
  {
  }

  /** Merging neighbours of a sorted array leaves strictly increasing keys. */
  lemma CompactIncreasing<F>(R: Field<F>, hand: Hand, q: seq<QuadElement<F>>)
    requires NonDecreasing(hand, q)
    ensures Increasing(hand, Compact(R, q, |q|))
  {
    for n := 0 to |q|
      invariant Increasing(hand, Compact(R, q, n))
    {
      CompactNext(R, q, n);
      if n > 0 && !SameWires(q[n - 1], q[n]) {
        assert Key(hand, q[n - 1]) <= Key(hand, q[n]);
        KeysDiffer(hand, q[n - 1], q[n]);
      }
    }
  }

  lemma KeysDiffer<F>(hand: Hand, a: QuadElement<F>, b: QuadElement<F>)
    ensures Key(hand, a) == Key(hand, b) <==> SameWires(a, b)
  {
    if Key(hand, a) == Key(hand, b) {
      InterleaveInjective(a.HandWire(Opposite(hand)), a.HandWire(hand), b.HandWire(Opposite(hand)), b.HandWire(hand));
    }
  }

  // ----- Sums over an array -----

  ghost function Term<F>(R: Field<F>, e: QuadElement<F>, hand: Hand, own: seq<F>, other: seq<F>): F {
    R.mul(R.mul(e.coefficient, At(R, other, e.HandWire(Opposite(hand)))), At(R, own, e.HandWire(hand)))
  }

  /** The sum over the first n entries of coefficient times the two wires; `own` holds the wires of `hand`. */
  ghost function Total<F>(R: Field<F>, q: seq<QuadElement<F>>, n: nat, hand: Hand, own: seq<F>, other: seq<F>): F
    requires n <= |q|
  {
    if n == 0 then R.zero else R.add(Total(R, q, n - 1, hand, own, other), Term(R, q[n - 1], hand, own, other))
  }

  lemma {:induction false} TotalPrefix<F>(R: Field<F>, q: seq<QuadElement<F>>, p: seq<QuadElement<F>>, n: nat,
                                          hand: Hand, own: seq<F>, other: seq<F>)
    requires n <= |q| && n <= |p| && forall i :: 0 <= i < n ==> q[i] == p[i]
    ensures Total(R, q, n, hand, own, other) == Total(R, p, n, hand, own, other)
  {
    if n > 0 {
      TotalPrefix(R, q, p, n - 1, hand, own, other);
    }
  }

  lemma TotalSwap<F(!new)>(R: Field<F>, q: seq<QuadElement<F>>, n: nat, hand: Hand, own: seq<F>, other: seq<F>)
    requires IsRing(R) && n <= |q|
    ensures Total(R, q, n, hand, own, other) == Total(R, q, n, Opposite(hand), other, own)
  {
    for i := 0 to n
      invariant Total(R, q, i, hand, own, other) == Total(R, q, i, Opposite(hand), other, own)
    {
      SwapFactors(R, q[i].coefficient, At(R, other, q[i].HandWire(Opposite(hand))), At(R, own, q[i].HandWire(hand)));
    }
  }

  lemma SwapFactors<F(!new)>(R: Field<F>, a: F, b: F, c: F)
    requires IsRing(R)
    ensures R.mul(R.mul(a, b), c) == R.mul(R.mul(a, c), b)
  {
    assert Laws3(R, a, b, c) && Laws3(R, a, c, b) && Laws2(R, b, c);
  }

  lemma MergedTerm<F(!new)>(R: Field<F>, a: QuadElement<F>, b: QuadElement<F>, hand: Hand, own: seq<F>, other: seq<F>)
    requires IsRing(R) && SameWires(a, b)
    ensures Term(R, Merged(R, a, b), hand, own, other)
      == R.add(Term(R, a, hand, own, other), Term(R, b, hand, own, other))
  {
    var o, v := At(R, other, a.HandWire(Opposite(hand))), At(R, own, a.HandWire(hand));
    Ring(R, M(M(A(V(0), V(1)), V(2)), V(3)), A(M(M(V(0), V(2)), V(3)), M(M(V(1), V(2)), V(3))),
      [a.coefficient, b.coefficient, o, v]);
  }

  lemma TotalAppend<F>(R: Field<F>, p: seq<QuadElement<F>>, e: QuadElement<F>, hand: Hand, own: seq<F>, other: seq<F>)
    ensures Total(R, p + [e], |p| + 1, hand, own, other)
      == R.add(Total(R, p, |p|, hand, own, other), Term(R, e, hand, own, other))
  {
    TotalPrefix(R, p + [e], p, |p|, hand, own, other);
  }

  lemma TotalMerge<F(!new)>(R: Field<F>, p: seq<QuadElement<F>>, e: QuadElement<F>, hand: Hand, own: seq<F>,
                            other: seq<F>)
    requires IsRing(R) && |p| > 0 && SameWires(p[|p| - 1], e)
    ensures Total(R, p[|p| - 1 := Merged(R, p[|p| - 1], e)], |p|, hand, own, other)
      == R.add(Total(R, p, |p|, hand, own, other), Term(R, e, hand, own, other))
  {
    var last := |p| - 1;
    TotalPrefix(R, p[last := Merged(R, p[last], e)], p, last, hand, own, other);
    MergedTerm(R, p[last], e, hand, own, other);
    assert Laws3(R, Total(R, p, last, hand, own, other), Term(R, p[last], hand, own, other),
      Term(R, e, hand, own, other));
  }

  lemma CompactTotalNext<F(!new)>(R: Field<F>, q: seq<QuadElement<F>>, n: nat, hand: Hand, own: seq<F>, other: seq<F>)
    requires IsRing(R) && n < |q|
    ensures var p, r := Compact(R, q, n), Compact(R, q, n + 1);
      Total(R, r, |r|, hand, own, other) == R.add(Total(R, p, |p|, hand, own, other), Term(R, q[n], hand, own, other))
  {
    var p := Compact(R, q, n);
    CompactNext(R, q, n);
    if n > 0 && SameWires(q[n - 1], q[n]) {
      TotalMerge(R, p, q[n], hand, own, other);
    } else {
      TotalAppend(R, p, q[n], hand, own, other);
    }
  }

  /** Merging neighbours keeps the sum. */
  lemma CompactTotal<F(!new)>(R: Field<F>, q: seq<QuadElement<F>>, hand: Hand, own: seq<F>, other: seq<F>)
    requires IsRing(R)
    ensures var p := Compact(R, q, |q|);
      Total(R, p, |p|, hand, own, other) == Total(R, q, |q|, hand, own, other)
  {
    var p := Compact(R, q, 0);
    for n := 0 to |q|
      invariant p == Compact(R, q, n) && Total(R, p, |p|, hand, own, other) == Total(R, q, n, hand, own, other)
    {
      CompactTotalNext(R, q, n, hand, own, other);
      p := Compact(R, q, n + 1);
    }
  }

  // ----- Binding the gate -----

  function GateEntry<F>(R: Field<F>, e: QuadElement<F>, table: seq<F>): QuadElement<F> {
    e.(gate := 0, coefficient := R.mul(e.coefficient, At(R, table, e.gate)))
  }

  ghost function GateEntries<F>(R: Field<F>, q: seq<QuadElement<F>>, table: seq<F>): (r: seq<QuadElement<F>>)
    ensures |r| == |q| && forall i :: 0 <= i < |q| ==> r[i] == GateEntry(R, q[i], table)
  {
    seq(|q|, (i: nat) requires i < |q| => GateEntry(R, q[i], table))
  }

  ghost function GateBound<F>(R: Field<F>, q: seq<QuadElement<F>>, table: seq<F>): seq<QuadElement<F>> {
    Compact(R, GateEntries(R, q, table), |q|)
  }

  /** `bindv_gate`, given the combined table of `bindeq`. */
  method BindGate<F(!new)>(R: Field<F>, q: seq<QuadElement<F>>, table: seq<F>) returns (r: seq<QuadElement<F>>)
    requires |q| > 0 && forall i :: 0 <= i < |q| ==> q[i].gate < |table|
    ensures r == GateBound(R, q, table)
  {
    ghost var entries := GateEntries(R, q, table);
    r := q;
    for i := 0 to |q|
      invariant |r| == |q| && forall j :: 0 <= j < i ==> r[j] == entries[j]
      invariant forall j :: i <= j < |q| ==> r[j] == q[j]
    {
      r := r[i := r[i].(gate := 0, coefficient := R.mul(r[i].coefficient, table[r[i].gate]))];
    }
    assert r == entries;
    r := CompactInPlace(R, r);
  }

  /** Add up neighbours with the same wires, writing behind the position that is read. */
  method CompactInPlace<F(!new)>(R: Field<F>, q: seq<QuadElement<F>>) returns (r: seq<QuadElement<F>>)
    requires |q| > 0
    ensures r == Compact(R, q, |q|)
  {
    r := q;
    CompactNext(R, q, 0);
    var write := 1;
    ghost var done := Compact(R, q, 1);
    for read := 1 to |r|
      invariant 0 < write <= read <= |q| == |r|
      invariant done == Compact(R, q, read) && r[..write] == done && r[read..] == q[read..]
    {
      CompactNext(R, q, read);
      var item := r[read];
      assert item == r[read..][0] && r[write - 1] == r[..write][write - 1];
      done := Compact(R, q, read + 1);
      ghost var before := r;
      if item.left == r[write - 1].left && item.right == r[write - 1].right {
        r := r[write - 1 := Merged(R, r[write - 1], item)];
        assert r[..write] == before[..write][write - 1 := Merged(R, before[write - 1], item)];
      } else {
        r := r[write := item];
        assert r[..write + 1] == before[..write] + [item];
        write := write + 1;
      }
      assert r[read + 1..] == before[read..][1..];
    }
    r := r[..write];
  }

  // ----- Binding a hand -----

  function Weight<F>(R: Field<F>, x: F, k: nat): F {
    if k % 2 == 0 then R.sub(R.one, x) else x
  }

  function WithHand<F>(hand: Hand, own: nat, other: nat, coefficient: F): QuadElement<F> {
    if hand.Left? then QuadElement(0, own, other, coefficient) else QuadElement(0, other, own, coefficient)
  }

  /** What entry e contributes to the array bound over `hand`. */
  function HandEntry<F>(R: Field<F>, e: QuadElement<F>, hand: Hand, x: F): QuadElement<F> {
    WithHand(hand, e.HandWire(hand) / 2, e.HandWire(Opposite(hand)),
      R.mul(Weight(R, x, e.HandWire(hand)), e.coefficient))
  }

  ghost function HandEntries<F>(R: Field<F>, q: seq<QuadElement<F>>, hand: Hand, x: F): (r: seq<QuadElement<F>>)
    ensures |r| == |q| && forall i :: 0 <= i < |q| ==> r[i] == HandEntry(R, q[i], hand, x)
  {
    seq(|q|, (i: nat) requires i < |q| => HandEntry(R, q[i], hand, x))
  }

  ghost function HandBound<F>(R: Field<F>, q: seq<QuadElement<F>>, hand: Hand, x: F): seq<QuadElement<F>> {
    Compact(R, HandEntries(R, q, hand, x), |q|)
  }

  /** Binding a hand halves its key for the other hand. */
  lemma HandKey<F>(R: Field<F>, e: QuadElement<F>, hand: Hand, x: F)
    ensures Key(Opposite(hand), HandEntry(R, e, hand, x)) == Key(hand, e) / 2
      && Key(hand, e) % 2 == e.HandWire(hand) % 2
  {
    InterleaveHalf(e.HandWire(Opposite(hand)), e.HandWire(hand));
  }

  /** So an array that is sorted for one hand is, once bound, sorted for the other. */
  lemma HandBoundIncreasing<F>(R: Field<F>, q: seq<QuadElement<F>>, hand: Hand, x: F)
    requires Increasing(hand, q)
    ensures Increasing(Opposite(hand), HandBound(R, q, hand, x))
  {
    var r := HandEntries(R, q, hand, x);
    forall i, j | 0 <= i < j < |r| && j == i + 1 ensures Key(Opposite(hand), r[i]) <= Key(Opposite(hand), r[j]) {
      assert Key(hand, q[i]) < Key(hand, q[j]);
      HandKey(R, q[i], hand, x);
      HandKey(R, q[j], hand, x);
    }
    CompactIncreasing(R, Opposite(hand), r);
  }

  /** `is_next_wire` */
  function IsNextWire<F>(a: QuadElement<F>, hand: Hand, b: QuadElement<F>): bool {
    a.gate == b.gate && b.HandWire(hand) == a.HandWire(hand) + 1
      && b.HandWire(Opposite(hand)) == a.HandWire(Opposite(hand))
  }

  /** In a sorted array, two neighbours contribute to the same entry exactly when they are entries 2i and 2i + 1. */
  lemma Mates<F>(R: Field<F>, a: QuadElement<F>, b: QuadElement<F>, hand: Hand, x: F)
    requires Key(hand, a) < Key(hand, b) && a.gate == b.gate
    ensures SameWires(HandEntry(R, a, hand, x), HandEntry(R, b, hand, x))
      <==> a.HandWire(hand) % 2 == 0 && IsNextWire(a, hand, b)
  {
    HandKey(R, a, hand, x);
    HandKey(R, b, hand, x);
    KeysDiffer(Opposite(hand), HandEntry(R, a, hand, x), HandEntry(R, b, hand, x));
  }

  lemma MergedMates<F(!new)>(R: Field<F>, a: QuadElement<F>, b: QuadElement<F>, hand: Hand, x: F)
    requires IsRing(R) && a.HandWire(hand) % 2 == 0 && IsNextWire(a, hand, b)
    ensures Merged(R, HandEntry(R, a, hand, x), HandEntry(R, b, hand, x))
      == WithHand(hand, a.HandWire(hand) / 2, a.HandWire(Opposite(hand)),
        R.add(a.coefficient, R.mul(x, R.sub(b.coefficient, a.coefficient))))
  {
    Ring(R, A(V(0), M(V(1), S(V(2), V(0)))), A(M(S(O, V(1)), V(0)), M(V(1), V(2))), [a.coefficient, x, b.coefficient]);
  }

  ghost predicate GateIsBound<F>(q: seq<QuadElement<F>>) {
    forall i :: 0 <= i < |q| ==> q[i].gate == 0
  }

  /** An entry without a mate. */
  lemma HandSingle<F>(R: Field<F>, q: seq<QuadElement<F>>, hand: Hand, x: F, i: nat)
    requires Increasing(hand, q) && GateIsBound(q) && i < |q|
    requires i > 0 ==> !SameWires(HandEntry(R, q[i - 1], hand, x), HandEntry(R, q[i], hand, x))
    requires i + 1 < |q| ==> !(q[i].HandWire(hand) % 2 == 0 && IsNextWire(q[i], hand, q[i + 1]))
    ensures Compact(R, HandEntries(R, q, hand, x), i + 1)
      == Compact(R, HandEntries(R, q, hand, x), i) + [HandEntry(R, q[i], hand, x)]
    ensures i + 1 < |q| ==> !SameWires(HandEntry(R, q[i], hand, x), HandEntry(R, q[i + 1], hand, x))
  {
    CompactNext(R, HandEntries(R, q, hand, x), i);
    if i + 1 < |q| {
      assert Key(hand, q[i]) < Key(hand, q[i + 1]);
      Mates(R, q[i], q[i + 1], hand, x);
    }
  }

  /** An entry and its mate. */
  lemma HandPair<F(!new)>(R: Field<F>, q: seq<QuadElement<F>>, hand: Hand, x: F, i: nat)
    requires IsRing(R) && Increasing(hand, q) && GateIsBound(q) && i + 1 < |q|
    requires i > 0 ==> !SameWires(HandEntry(R, q[i - 1], hand, x), HandEntry(R, q[i], hand, x))
    requires q[i].HandWire(hand) % 2 == 0 && IsNextWire(q[i], hand, q[i + 1])
    ensures Compact(R, HandEntries(R, q, hand, x), i + 2) == Compact(R, HandEntries(R, q, hand, x), i)
      + [WithHand(hand, q[i].HandWire(hand) / 2, q[i].HandWire(Opposite(hand)),
        R.add(q[i].coefficient, R.mul(x, R.sub(q[i + 1].coefficient, q[i].coefficient))))]
    ensures i + 2 < |q| ==> !SameWires(HandEntry(R, q[i + 1], hand, x), HandEntry(R, q[i + 2], hand, x))
  {
    var entries := HandEntries(R, q, hand, x);
    CompactNext(R, entries, i);
    CompactNext(R, entries, i + 1);
    assert Key(hand, q[i]) < Key(hand, q[i + 1]);
    Mates(R, q[i], q[i + 1], hand, x);
    MergedMates(R, q[i], q[i + 1], hand, x);
    PastMates(R, q, hand, x, i);
  }

  /** No entry before `read` contributes to the same bound entry as the one at `read`. */
  ghost predicate Fresh<F>(R: Field<F>, q: seq<QuadElement<F>>, hand: Hand, x: F, read: nat) {
    0 < read < |q| ==> !SameWires(HandEntry(R, q[read - 1], hand, x), HandEntry(R, q[read], hand, x))
  }

  /** One turn of the loop of `bind_hand`: the entry to write and the position to read next. */
  method BoundEntry<F(!new)>(R: Field<F>, r: seq<QuadElement<F>>, hand: Hand, x: F, read: nat,
                             ghost q: seq<QuadElement<F>>)
      returns (entry: QuadElement<F>, next: nat)
    requires IsRing(R) && Increasing(hand, q) && GateIsBound(q) && read < |q| == |r|
    requires forall i :: read <= i < |q| ==> r[i] == q[i]
    requires Fresh(R, q, hand, x, read)
    ensures read < next <= |q| && Fresh(R, q, hand, x, next)
    ensures Compact(R, HandEntries(R, q, hand, x), next) == Compact(R, HandEntries(R, q, hand, x), read) + [entry]
  {
    var curr, coefficient := r[read], R.zero;
    next := read + 1;
    if curr.HandWire(hand) % 2 == 0 {
      if next < |r| && IsNextWire(curr, hand, r[next]) {
        HandPair(R, q, hand, x, read);
        coefficient := R.add(curr.coefficient, R.mul(x, R.sub(r[next].coefficient, curr.coefficient)));
        next := next + 1;
      } else {
        HandSingle(R, q, hand, x, read);
        coefficient := R.mul(R.sub(R.one, x), curr.coefficient);
      }
    } else {
      HandSingle(R, q, hand, x, read);
      coefficient := R.mul(x, curr.coefficient);
    }
    entry := WithHand(hand, curr.HandWire(hand) / 2, curr.HandWire(Opposite(hand)), coefficient);
  }

  /** `bind_hand` */
  method BindHand<F(!new)>(R: Field<F>, q: seq<QuadElement<F>>, hand: Hand, x: F) returns (r: seq<QuadElement<F>>)
    requires IsRing(R) && Increasing(hand, q) && GateIsBound(q)
    ensures r == HandBound(R, q, hand, x)
  {
    ghost var done := Compact(R, HandEntries(R, q, hand, x), 0);
    r := q;
    var write, read := 0, 0;
    while read < |r|
      invariant 0 <= write <= read <= |q| == |r| && Fresh(R, q, hand, x, read)
      invariant done == Compact(R, HandEntries(R, q, hand, x), read)
      invariant WrittenBehind(r, q, done, write, read)
    {
      var entry, next := BoundEntry(R, r, hand, x, read, q);
      WriteBehind(r, q, done, write, read, entry, next);
      r := r[write := entry];
      write, read := write + 1, next;
      done := done + [entry];
    }
    r := r[..write];
  }

  /** The part written so far and the part not yet read of an array that is compacted in place. */
  ghost predicate WrittenBehind<E>(r: seq<E>, q: seq<E>, done: seq<E>, write: nat, read: nat) {
    write <= read <= |q| == |r| && r[..write] == done && forall i :: read <= i < |q| ==> r[i] == q[i]
  }

  lemma WriteBehind<E>(r: seq<E>, q: seq<E>, done: seq<E>, write: nat, read: nat, entry: E, next: nat)
    requires WrittenBehind(r, q, done, write, read) && read < next <= |q|
    ensures WrittenBehind(r[write := entry], q, done + [entry], write + 1, next)
  {
    assert r[write := entry][..write + 1] == r[..write] + [entry];
  }

  lemma PastMates<F>(R: Field<F>, q: seq<QuadElement<F>>, hand: Hand, x: F, i: nat)
    requires Increasing(hand, q) && GateIsBound(q) && i + 1 < |q| && IsNextWire(q[i], hand, q[i + 1])
      && q[i].HandWire(hand) % 2 == 0
    ensures i + 2 < |q| ==> !SameWires(HandEntry(R, q[i + 1], hand, x), HandEntry(R, q[i + 2], hand, x))
  {
    if i + 2 < |q| {
      assert Key(hand, q[i + 1]) < Key(hand, q[i + 2]);
      Mates(R, q[i + 1], q[i + 2], hand, x);
    }
  }

  // ----- The intermediate array of a round -----

  ghost function ArrayA<F>(R: Field<F>, q: seq<QuadElement<F>>, n: nat, hand: Hand, other: seq<F>,
                           len: nat): (a: seq<F>)
    requires n <= |q|
    ensures |a| == len
  {
    if n == 0 then Zeros(R, len)
    else
      var e := q[n - 1];
      AddAt(R, ArrayA(R, q, n - 1, hand, other, len), e.HandWire(hand),
        R.mul(e.coefficient, At(R, other, e.HandWire(Opposite(hand)))))
  }

  ghost predicate WiresBelow<F>(q: seq<QuadElement<F>>, hand: Hand, len: nat) {
    forall i :: 0 <= i < |q| ==> q[i].HandWire(hand) < len
  }

  /** `compute_a` */
  method ComputeA<F(!new)>(R: Field<F>, q: seq<QuadElement<F>>, hand: Hand, own: seq<F>, other: seq<F>)
      returns (a: seq<F>)
    requires WiresBelow(q, hand, |own|) && WiresBelow(q, Opposite(hand), |other|)
    ensures a == ArrayA(R, q, |q|, hand, other, |own|)
  {
    a := Zeros(R, |own|);
    for n := 0 to |q|
      invariant a == ArrayA(R, q, n, hand, other, |own|)
    {
      var index, oppositeIndex := q[n].HandWire(hand), q[n].HandWire(Opposite(hand));
      a := a[index := R.add(a[index], R.mul(q[n].coefficient, other[oppositeIndex]))];
    }
  }

  lemma ArrayATotal<F(!new)>(R: Field<F>, q: seq<QuadElement<F>>, hand: Hand, own: seq<F>, other: seq<F>)
    requires IsRing(R) && WiresBelow(q, hand, |own|)
    ensures Dot(R, ArrayA(R, q, |q|, hand, other, |own|), own, |own|) == Total(R, q, |q|, hand, own, other)
  {
    DotZeros(R, |own|, own, |own|);
    for n := 0 to |q|
      invariant Dot(R, ArrayA(R, q, n, hand, other, |own|), own, |own|) == Total(R, q, n, hand, own, other)
    {
      var e := q[n];
      DotAddAt(R, ArrayA(R, q, n, hand, other, |own|), own, e.HandWire(hand),
        R.mul(e.coefficient, At(R, other, e.HandWire(Opposite(hand)))), |own|);
    }
  }

  /** Binding is linear: one entry of the array contributes its weight to one bound entry. */
  lemma BindAddAt<F(!new)>(R: Field<F>, a: seq<F>, x: F, k: nat, d: F)
    requires IsRing(R) && k < |a|
    ensures BindSeq(R, AddAt(R, a, k, d), x) == AddAt(R, BindSeq(R, a, x), k / 2, R.mul(Weight(R, x, k), d))
  {
    var b, c := AddAt(R, a, k, d), BindSeq(R, a, x);
    forall i | 0 <= i < |c| ensures BindSeq(R, b, x)[i] == AddAt(R, c, k / 2, R.mul(Weight(R, x, k), d))[i] {
      BindAddAtOne(R, a, x, k, d, i);
    }
  }

  lemma BindAddAtOne<F(!new)>(R: Field<F>, a: seq<F>, x: F, k: nat, d: F, i: nat)
    requires IsRing(R) && k < |a|
    ensures BoundAt(R, AddAt(R, a, k, d), x, i)
      == if i == k / 2 then R.add(BoundAt(R, a, x, i), R.mul(Weight(R, x, k), d)) else BoundAt(R, a, x, i)
  {
    var b := AddAt(R, a, k, d);
    if i == k / 2 {
      var v, w := At(R, a, 2 * i), At(R, a, 2 * i + 1);
      if k % 2 == 0 {
        assert k == 2 * i;
        EvenChange(R, v, w, x, d);
      } else {
        assert k == 2 * i + 1;
        OddChange(R, v, w, x, d);
      }
    } else {
      assert At(R, b, 2 * i) == At(R, a, 2 * i) && At(R, b, 2 * i + 1) == At(R, a, 2 * i + 1);
    }
  }

  lemma EvenChange<F(!new)>(R: Field<F>, v: F, w: F, x: F, d: F)
    requires IsRing(R)
    ensures R.add(R.add(v, d), R.mul(x, R.sub(w, R.add(v, d))))
      == R.add(R.add(v, R.mul(x, R.sub(w, v))), R.mul(R.sub(R.one, x), d))
  {
    Ring(R, A(A(V(0), V(1)), M(V(2), S(V(3), A(V(0), V(1))))), A(A(V(0), M(V(2), S(V(3), V(0)))), M(S(O, V(2)), V(1))),
      [v, d, x, w]);
  }

  lemma OddChange<F(!new)>(R: Field<F>, v: F, w: F, x: F, d: F)
    requires IsRing(R)
    ensures R.add(v, R.mul(x, R.sub(R.add(w, d), v))) == R.add(R.add(v, R.mul(x, R.sub(w, v))), R.mul(x, d))
  {
    Ring(R, A(V(0), M(V(1), S(A(V(2), V(3)), V(0)))), A(A(V(0), M(V(1), S(V(2), V(0)))), M(V(1), V(3))), [v, x, w, d]);
  }

  lemma BindZeros<F(!new)>(R: Field<F>, len: nat, x: F)
    requires IsRing(R)
    ensures BindSeq(R, Zeros(R, len), x) == Zeros(R, HalfLength(len))
  {
    assert Laws1(R, R.zero);
    MulZero(R, x);
  }

  lemma ArrayABoundNext<F(!new)>(R: Field<F>, q: seq<QuadElement<F>>, n: nat, hand: Hand, x: F, len: nat, wires: seq<F>,
                                 other: seq<F>, m: nat)
    requires IsRing(R) && n < |q| && WiresBelow(q, hand, len) && m == HalfLength(len)
    requires Dot(R, BindSeq(R, ArrayA(R, q, n, hand, other, len), x), wires, m)
      == Total(R, HandEntries(R, q, hand, x), n, hand, wires, other)
    ensures Dot(R, BindSeq(R, ArrayA(R, q, n + 1, hand, other, len), x), wires, m)
      == Total(R, HandEntries(R, q, hand, x), n + 1, hand, wires, other)
  {
    var e := q[n];
    var k, o := e.HandWire(hand), At(R, other, e.HandWire(Opposite(hand)));
    var a := ArrayA(R, q, n, hand, other, len);
    BindAddAt(R, a, x, k, R.mul(e.coefficient, o));
    DotAddAt(R, BindSeq(R, a, x), wires, k / 2, R.mul(Weight(R, x, k), R.mul(e.coefficient, o)), m);
    assert Laws3(R, Weight(R, x, k), e.coefficient, o);
  }

  lemma ArrayABound<F(!new)>(R: Field<F>, q: seq<QuadElement<F>>, hand: Hand, x: F, len: nat, wires: seq<F>,
                             other: seq<F>)
    requires IsRing(R) && WiresBelow(q, hand, len)
    ensures Dot(R, BindSeq(R, ArrayA(R, q, |q|, hand, other, len), x), wires, HalfLength(len))
      == Total(R, HandEntries(R, q, hand, x), |q|, hand, wires, other)
  {
    BindZeros(R, len, x);
    DotZeros(R, HalfLength(len), wires, HalfLength(len));
    for n := 0 to |q|
      invariant Dot(R, BindSeq(R, ArrayA(R, q, n, hand, other, len), x), wires, HalfLength(len))
        == Total(R, HandEntries(R, q, hand, x), n, hand, wires, other)
    {
      ArrayABoundNext(R, q, n, hand, x, len, wires, other, HalfLength(len));
    }
  }

  // ----- The polynomial of a round -----

  /** p(x) as the prover computes it: the sum over i of the products of the bound entries of A and of the wires. */
  ghost function RoundPolynomial<F>(R: Field<F>, q: seq<QuadElement<F>>, hand: Hand, own: seq<F>, other: seq<F>,
                                    x: F): F {
    PairDot(R, ArrayA(R, q, |q|, hand, other, |own|), own, x, HalfLength(|own|))
  }

  /** p(0) + p(1) is the sum before the round. */
  lemma RoundSum<F(!new)>(R: Field<F>, K: SumcheckConstants<F>, q: seq<QuadElement<F>>, hand: Hand, own: seq<F>,
                          other: seq<F>)
    requires IsRing(R) && WiresBelow(q, hand, |own|)
    ensures R.add(RoundPolynomial(R, q, hand, own, other, R.zero), RoundPolynomial(R, q, hand, own, other, R.one))
      == Total(R, q, |q|, hand, own, other)
  {
    var a, m := ArrayA(R, q, |q|, hand, other, |own|), HalfLength(|own|);
    PairDotSum(R, K, a, own, m);
    DotPastEnd(R, a, own, |own|, 2 * m);
    ArrayATotal(R, q, hand, own, other);
  }

  /** p(x) is the sum after the quad and the wires are bound to x. */
  lemma RoundBinds<F(!new)>(R: Field<F>, q: seq<QuadElement<F>>, hand: Hand, own: seq<F>, other: seq<F>, x: F)
    requires IsRing(R) && WiresBelow(q, hand, |own|)
    ensures var p := HandBound(R, q, hand, x);
      RoundPolynomial(R, q, hand, own, other, x) == Total(R, p, |p|, hand, BindSeq(R, own, x), other)
  {
    var a, m := ArrayA(R, q, |q|, hand, other, |own|), HalfLength(|own|);
    PairDotIsDot(R, a, own, x, m);
    ArrayABound(R, q, hand, x, |own|, BindSeq(R, own, x), other);
    CompactTotal(R, HandEntries(R, q, hand, x), hand, BindSeq(R, own, x), other);
  }

  /** p is quadratic, so the claim for the next round follows from the claim for this one, p(0) and p(p2). */
  lemma RoundClaim<F(!new)>(R: Field<F>, K: SumcheckConstants<F>, q: seq<QuadElement<F>>, hand: Hand, own: seq<F>,
                            other: seq<F>, x: F, claim: F)
    requires IsRing(R) && GoodConstants(R, K) && WiresBelow(q, hand, |own|)
      && claim == Total(R, q, |q|, hand, own, other)
    ensures var p := HandBound(R, q, hand, x);
      var p0, p2 := RoundPolynomial(R, q, hand, own, other, R.zero), RoundPolynomial(R, q, hand, own, other, K.p2);
      R.add(R.add(R.mul(claim, Lagrange1(R, K, x)), R.mul(p0, R.sub(Lagrange0(R, K, x), Lagrange1(R, K, x)))),
        R.mul(p2, Lagrange2(R, K, x)))
      == Total(R, p, |p|, hand, BindSeq(R, own, x), other)
  {
    var a, m := ArrayA(R, q, |q|, hand, other, |own|), HalfLength(|own|);
    RoundSum(R, K, q, hand, own, other);
    RoundBinds(R, q, hand, own, other, x);
    PairDotLagrange(R, K, a, own, x, m);
    ClaimUpdate(R, Lagrange0(R, K, x), Lagrange1(R, K, x), Lagrange2(R, K, x), PairDot(R, a, own, R.zero, m),
                PairDot(R, a, own, R.one, m), PairDot(R, a, own, K.p2, m));
  }

  lemma ClaimUpdate<F(!new)>(R: Field<F>, l: F, m: F, n: F, p0: F, p1: F, p2: F)
    requires IsRing(R)
    ensures R.add(R.add(R.mul(R.add(p0, p1), m), R.mul(p0, R.sub(l, m))), R.mul(p2, n))
      == R.add(R.add(R.mul(l, p0), R.mul(m, p1)), R.mul(n, p2))
  {
    Ring(R, A(A(M(A(V(0), V(1)), V(2)), M(V(0), S(V(3), V(2)))), M(V(4), V(5))),
      A(A(M(V(3), V(0)), M(V(2), V(1))), M(V(5), V(4))), [p0, p1, m, l, p2, n]);
  }
}
