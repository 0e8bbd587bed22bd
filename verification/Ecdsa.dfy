/**
 The interleaved ladder that both ECDSA witness generators run (src/nymauth/ecdsa.rs, src/mdoc_zk/ec.rs), in a group
 given by its operations. Coordinates are abstract: `add` stands for the complete formulas.
 */
module Ecdsa {
  import opened Options
  import opened Arithmetic
  import opened Bytes

  datatype Group<!P> = Group(identity: P, add: (P, P) -> P, neg: P -> P)

  ghost predicate Laws1<P>(G: Group<P>, a: P) {
    G.add(a, G.identity) == a && G.add(a, G.neg(a)) == G.identity
  }

  ghost predicate Laws2<P>(G: Group<P>, a: P, b: P) {
    G.add(a, b) == G.add(b, a)
  }

  ghost predicate Laws3<P>(G: Group<P>, a: P, b: P, c: P) {
    G.add(G.add(a, b), c) == G.add(a, G.add(b, c))
  }

  /** Commutative group, one instance of each law at a time. */
  ghost predicate IsGroup<P(!new)>(G: Group<P>) {
    && (forall a: P :: Laws1(G, a))
    && (forall a: P, b: P :: Laws2(G, a, b))
    && (forall a: P, b: P, c: P :: Laws3(G, a, b, c))
  }

  // ----- Multiples -----

  /** k * p, by repeated addition. */
  ghost function Times<P>(G: Group<P>, k: nat, p: P): P {
    if k == 0 then G.identity else G.add(Times(G, k - 1, p), p)
  }

  lemma {:induction false} TimesAdd<P(!new)>(G: Group<P>, a: nat, b: nat, p: P)
    requires IsGroup(G)
    ensures Times(G, a + b, p) == G.add(Times(G, a, p), Times(G, b, p))
    decreases b
  {
    if b == 0 {
      assert Laws1(G, Times(G, a, p));
    } else {
      var c := b - 1;
      TimesAdd(G, a, c, p);
      assert Laws3(G, Times(G, a, p), Times(G, c, p), p);
      assert a + b - 1 == a + c;
    }
  }

  lemma {:induction false} TimesTimes<P(!new)>(G: Group<P>, a: nat, b: nat, p: P)
    requires IsGroup(G)
    ensures Times(G, a * b, p) == Times(G, a, Times(G, b, p))
    decreases a
  {
    if a == 0 {
      assert a * b == 0;
    } else {
      var c := a - 1;
      TimesTimes(G, c, b, p);
      assert a * b == c * b + b;
      TimesAdd(G, c * b, b, p);
    }
  }

  lemma Exchange<P(!new)>(G: Group<P>, a: P, b: P, c: P, d: P)
    requires IsGroup(G)
    ensures G.add(G.add(a, b), G.add(c, d)) == G.add(G.add(a, c), G.add(b, d))
  {
    assert Laws3(G, a, b, G.add(c, d)) && Laws3(G, b, c, d) && Laws2(G, b, c);
    assert Laws3(G, c, b, d) && Laws3(G, a, c, G.add(b, d));
  }

  lemma {:induction false} TimesSum<P(!new)>(G: Group<P>, k: nat, p: P, q: P)
    requires IsGroup(G)
    ensures Times(G, k, G.add(p, q)) == G.add(Times(G, k, p), Times(G, k, q))
    decreases k
  {
    if k == 0 {
      assert Laws1(G, G.identity);
    } else {
      TimesSum(G, k - 1, p, q);
      Exchange(G, Times(G, k - 1, p), Times(G, k - 1, q), p, q);
    }
  }

  lemma {:induction false} TimesIdentity<P(!new)>(G: Group<P>, k: nat)
    requires IsGroup(G)
    ensures Times(G, k, G.identity) == G.identity
  {
    if k > 0 {
      TimesIdentity(G, k - 1);
      assert Laws1(G, G.identity);
    }
  }

  /** In a group of order n, multiples only depend on the residue. */
  lemma TimesModulo<P(!new)>(G: Group<P>, n: nat, k: nat, p: P)
    requires IsGroup(G) && n > 0 && Times(G, n, p) == G.identity
    ensures Times(G, k, p) == Times(G, k % n, p)
  {
    var q, r := k / n, k % n;
    assert k == q * n + r;
    TimesAdd(G, q * n, r, p);
    TimesTimes(G, q, n, p);
    TimesIdentity(G, q);
    assert Laws2(G, G.identity, Times(G, r, p)) && Laws1(G, Times(G, r, p));
  }

  // ----- BITS of big-endian scalars -----

  const BITS: nat := 256

  /** The value of big-endian bytes. */
  function Value(bytes: seq<Byte>): nat {
    if |bytes| == 0 then 0 else 256 * Value(bytes[..|bytes| - 1]) + bytes[|bytes| - 1]
  }

  /** v without its lowest i bits. */
  function Prefix(v: nat, i: nat): nat {
    if i == 0 then v else Prefix(v, i - 1) / 2
  }

  function ValueBit(v: nat, i: nat): (b: nat)
    ensures b < 2
  {
    Prefix(v, i) % 2
  }

  /** v has at most 256 bits. */
  ghost predicate Fits(v: nat) {
    Prefix(v, BITS) == 0
  }

  /** `bit`: bit i, counted from the least significant end. */
  function BitAt(bytes: seq<Byte>, i: nat): nat
    requires i / 8 < |bytes|
  {
    Prefix(bytes[|bytes| - 1 - i / 8], i % 8) % 2
  }

  lemma {:induction false} PrefixPrefix(v: nat, a: nat, b: nat)
    ensures Prefix(v, a + b) == Prefix(Prefix(v, a), b)
    decreases b
  {
    if b > 0 {
      var c := b - 1;
      PrefixPrefix(v, a, c);
      assert a + b - 1 == a + c;
    }
  }

  lemma {:induction false} PrefixMonotone(u: nat, v: nat, i: nat)
    requires u <= v
    ensures Prefix(u, i) <= Prefix(v, i)
  {
    if i > 0 {
      PrefixMonotone(u, v, i - 1);
    }
  }

  /** h times 2^(8 - i) */
  ghost function Scaled(h: nat, i: nat): nat
    requires i <= 8
    decreases 8 - i
  {
    if i == 8 then h else 2 * Scaled(h, i + 1)
  }

  /** Shifting out up to eight bits of 256 * h + l. */
  lemma {:induction false} PrefixByte(h: nat, l: nat, i: nat)
    requires l < 256 && i <= 8
    ensures Prefix(Scaled(h, 0) + l, i) == Scaled(h, i) + Prefix(l, i)
  {
    if i > 0 {
      PrefixByte(h, l, i - 1);
    }
  }

  lemma ScaledAll(h: nat)
    ensures Scaled(h, 0) == 256 * h
  {
    assert Scaled(h, 7) == 2 * h;
    assert Scaled(h, 6) == 4 * h;
    assert Scaled(h, 5) == 8 * h;
    assert Scaled(h, 4) == 16 * h;
    assert Scaled(h, 3) == 32 * h;
    assert Scaled(h, 2) == 64 * h;
    assert Scaled(h, 1) == 128 * h;
  }

  lemma ByteEnds(l: nat)
    requires l < 256
    ensures Prefix(l, 8) == 0
  {
    assert Prefix(l, 1) <= 127;
    assert Prefix(l, 2) <= 63;
    assert Prefix(l, 3) <= 31;
    assert Prefix(l, 4) <= 15;
    assert Prefix(l, 5) <= 7;
    assert Prefix(l, 6) <= 3;
    assert Prefix(l, 7) <= 1;
  }

  lemma DropByte(bytes: seq<Byte>)
    requires |bytes| > 0
    ensures Prefix(Value(bytes), 8) == Value(bytes[..|bytes| - 1])
  {
    var h, l := Value(bytes[..|bytes| - 1]), bytes[|bytes| - 1];
    ScaledAll(h);
    PrefixByte(h, l, 8);
    ByteEnds(l);
  }

  /** Byte arithmetic and integer arithmetic give the same bits. */
  lemma {:induction false} BitIsValueBit(bytes: seq<Byte>, i: nat)
    requires i / 8 < |bytes|
    ensures BitAt(bytes, i) == ValueBit(Value(bytes), i)
  {
    if i < 8 {
      LowBit(Value(bytes[..|bytes| - 1]), bytes[|bytes| - 1], i);
    } else {
      var k := i - 8;
      BitIsValueBit(bytes[..|bytes| - 1], k);
      HighBit(bytes, k);
    }
  }

  lemma LowBit(h: nat, l: nat, i: nat)
    requires l < 256 && i < 8
    ensures Prefix(256 * h + l, i) % 2 == Prefix(l, i) % 2
  {
    ScaledAll(h);
    PrefixByte(h, l, i);
    EvenSum(Scaled(h, i + 1), Prefix(l, i));
  }

  lemma EvenSum(a: nat, b: nat)
    ensures (2 * a + b) % 2 == b % 2
  {
  }

  lemma HighBit(bytes: seq<Byte>, k: nat)
    requires |bytes| > 0 && k / 8 < |bytes| - 1
    ensures BitAt(bytes, k + 8) == BitAt(bytes[..|bytes| - 1], k)
    ensures ValueBit(Value(bytes), k + 8) == ValueBit(Value(bytes[..|bytes| - 1]), k)
  {
    assert (k + 8) / 8 == k / 8 + 1 && (k + 8) % 8 == k % 8;
    PrefixPrefix(Value(bytes), 8, k);
    DropByte(bytes);
  }

  lemma {:induction false} ValueFits(bytes: seq<Byte>)
    ensures Prefix(Value(bytes), 8 * |bytes|) == 0
  {
    if |bytes| > 0 {
      var last := |bytes| - 1;
      ValueFits(bytes[..last]);
      PrefixPrefix(Value(bytes), 8, 8 * last);
      DropByte(bytes);
    }
  }

  // ----- Double and add -----

  /** `scalar_mul`, over the `bits` lowest bits of k. */
  method ScalarMul<P(!new)>(G: Group<P>, p: P, k: nat, bits: nat) returns (acc: P)
    requires IsGroup(G) && Prefix(k, bits) == 0
    ensures acc == Times(G, k, p)
  {
    acc := G.identity;
    var i := bits;
    while i > 0
      invariant 0 <= i <= bits && acc == Times(G, Prefix(k, i), p)
    {
      DoubleStep(G, p, k, i - 1, acc);
      i := i - 1;
      acc := G.add(acc, acc);
      if ValueBit(k, i) == 1 {
        acc := G.add(acc, p);
      }
    }
  }

  lemma DoubleStep<P(!new)>(G: Group<P>, p: P, k: nat, i: nat, acc: P)
    requires IsGroup(G) && acc == Times(G, Prefix(k, i + 1), p)
    ensures Times(G, Prefix(k, i), p) == if ValueBit(k, i) == 1 then G.add(G.add(acc, acc), p) else G.add(acc, acc)
  {
    var half := Prefix(k, i + 1);
    assert Prefix(k, i) == half + half + ValueBit(k, i);
    TimesAdd(G, half, half, p);
    TimesAdd(G, half + half, 1, p);
    TimesOne(G, p);
  }

  lemma TimesOne<P(!new)>(G: Group<P>, p: P)
    requires IsGroup(G)
    ensures Times(G, 1, p) == p
  {
    assert Times(G, 1, p) == G.add(Times(G, 0, p), p);
    assert Laws2(G, G.identity, p) && Laws1(G, p);
  }

  /** a * g + b * q + c * r */
  ghost function Combination<P>(G: Group<P>, a: nat, g: P, b: nat, q: P, c: nat, r: P): P {
    G.add(G.add(Times(G, a, g), Times(G, b, q)), Times(G, c, r))
  }

  /** Entry e + 2 * x + 4 * m of the table is e * g + x * q + m * r. */
  function Table<P>(G: Group<P>, g: P, q: P, r: P): (t: seq<P>)
    ensures |t| == 8
  {
    [G.identity, g, q, G.add(g, q), r, G.add(g, r), G.add(r, q), G.add(g, G.add(r, q))]
  }

  lemma TableEntry<P(!new)>(G: Group<P>, g: P, q: P, r: P, e: nat, x: nat, m: nat)
    requires IsGroup(G) && e < 2 && x < 2 && m < 2
    ensures Table(G, g, q, r)[e + 2 * x + 4 * m] == Combination(G, e, g, x, q, m, r)
  {
    var o := G.identity;
    SmallTimes(G, e, g);
    SmallTimes(G, x, q);
    SmallTimes(G, m, r);
    assert Laws1(G, o) && Laws1(G, g) && Laws1(G, q) && Laws1(G, r) && Laws1(G, G.add(g, q));
    assert Laws2(G, o, q) && Laws2(G, o, r) && Laws2(G, r, q) && Laws3(G, g, q, r);
  }

  lemma SmallTimes<P(!new)>(G: Group<P>, k: nat, p: P)
    requires IsGroup(G) && k < 2
    ensures Times(G, k, p) == if k == 1 then p else G.identity
  {
    TimesOne(G, p);
  }

  lemma CombinationDouble<P(!new)>(G: Group<P>, a: nat, g: P, b: nat, q: P, c: nat, r: P)
    requires IsGroup(G)
    ensures var acc := Combination(G, a, g, b, q, c, r); G.add(acc, acc) == Combination(G, 2 * a, g, 2 * b, q, 2 * c, r)
  {
    TimesAdd(G, a, a, g);
    TimesAdd(G, b, b, q);
    TimesAdd(G, c, c, r);
    CombinationSum(G, Times(G, a, g), Times(G, b, q), Times(G, c, r), Times(G, a, g), Times(G, b, q), Times(G, c, r));
  }

  lemma CombinationSum<P(!new)>(G: Group<P>, a: P, b: P, c: P, d: P, e: P, f: P)
    requires IsGroup(G)
    ensures G.add(G.add(G.add(a, b), c), G.add(G.add(d, e), f)) == G.add(G.add(G.add(a, d), G.add(b, e)), G.add(c, f))
  {
    Exchange(G, G.add(a, b), c, G.add(d, e), f);
    Exchange(G, a, b, d, e);
  }

  lemma CombinationAdd<P(!new)>(G: Group<P>, g: P, q: P, r: P, a: nat, b: nat, c: nat, d: nat, e: nat, f: nat)
    requires IsGroup(G)
    ensures G.add(Combination(G, a, g, b, q, c, r), Combination(G, d, g, e, q, f, r))
      == Combination(G, a + d, g, b + e, q, c + f, r)
  {
    TimesAdd(G, a, d, g);
    TimesAdd(G, b, e, q);
    TimesAdd(G, c, f, r);
    CombinationSum(G, Times(G, a, g), Times(G, b, q), Times(G, c, r), Times(G, d, g), Times(G, e, q), Times(G, f, r));
  }

  /** What the accumulator holds when the bits from position pos up have been used. */
  ghost function Accumulated<P>(G: Group<P>, g: P, q: P, r: P, e: nat, x: nat, m: nat, pos: nat): P {
    Combination(G, Prefix(e, pos), g, Prefix(x, pos), q, Prefix(m, pos), r)
  }

  lemma LadderStep<P(!new)>(G: Group<P>, g: P, q: P, r: P, e: nat, x: nat, m: nat, pos: nat, acc: P, idx: nat)
    requires IsGroup(G) && idx == ValueBit(e, pos) + 2 * ValueBit(x, pos) + 4 * ValueBit(m, pos)
    requires acc == Accumulated(G, g, q, r, e, x, m, pos + 1)
    ensures idx < 8 && G.add(G.add(acc, acc), Table(G, g, q, r)[idx]) == Accumulated(G, g, q, r, e, x, m, pos)
  {
    var a, b, c := Prefix(e, pos + 1), Prefix(x, pos + 1), Prefix(m, pos + 1);
    assert Prefix(e, pos) == 2 * a + ValueBit(e, pos);
    assert Prefix(x, pos) == 2 * b + ValueBit(x, pos);
    assert Prefix(m, pos) == 2 * c + ValueBit(m, pos);
    CombinationDouble(G, a, g, b, q, c, r);
    TableEntry(G, g, q, r, ValueBit(e, pos), ValueBit(x, pos), ValueBit(m, pos));
    CombinationAdd(G, g, q, r, 2 * a, 2 * b, 2 * c, ValueBit(e, pos), ValueBit(x, pos), ValueBit(m, pos));
  }

  /** What a step of the ladder records: an odd index between -7 and 7, and the accumulator after the step. */
  datatype Step<P> = Step(index: int, acc: P)

  function OddIndex(idx: nat): int {
    2 * idx - 7
  }

  /** The step for the bits at position pos: the accumulator is the combination of the prefixes of the scalars. */
  ghost predicate IsStep<P>(G: Group<P>, g: P, q: P, r: P, e: nat, x: nat, m: nat, step: Step<P>, pos: nat) {
    && step.index == OddIndex(ValueBit(e, pos) + 2 * ValueBit(x, pos) + 4 * ValueBit(m, pos))
    && step.acc == Accumulated(G, g, q, r, e, x, m, pos)
  }

  /** The records of the steps from the highest bit down. */
  ghost predicate IsTrace<P>(G: Group<P>, g: P, q: P, r: P, e: nat, x: nat, m: nat, steps: seq<Step<P>>) {
    |steps| <= BITS && forall j :: 0 <= j < |steps| ==> IsStep(G, g, q, r, e, x, m, steps[j], BITS - 1 - j)
  }

  lemma FirstStep<P(!new)>(G: Group<P>, t: P)
    requires IsGroup(G)
    ensures G.add(G.add(G.identity, G.identity), t) == t
  {
    assert Laws1(G, G.identity) && Laws2(G, G.identity, t) && Laws1(G, t);
  }

  /**
   The ladder of src/nymauth/ecdsa.rs: after each step the accumulator is the combination of the prefixes of the three
   scalars, so that it ends at e * G + x * Q + m * R for any three 256-bit scalars.
   */
  method Ladder<P(!new)>(G: Group<P>, g: P, q: P, r: P, e: seq<Byte>, x: seq<Byte>, m: seq<Byte>)
      returns (steps: seq<Step<P>>, acc: P)
    requires IsGroup(G) && 8 * |e| == 8 * |x| == 8 * |m| == BITS
    ensures |steps| == BITS && IsTrace(G, g, q, r, Value(e), Value(x), Value(m), steps)
    ensures acc == Combination(G, Value(e), g, Value(x), q, Value(m), r)
  {
    var table := Table(G, g, q, r);
    acc := table[0];
    steps := [];
    LadderStart(G, g, q, r, e, x, m);
    ghost var ev, xv, mv := Value(e), Value(x), Value(m);
    for j := 0 to BITS
      invariant |steps| == j && IsTrace(G, g, q, r, ev, xv, mv, steps)
      invariant acc == Accumulated(G, g, q, r, ev, xv, mv, BITS - j) && (j == 0 ==> acc == G.identity)
    {
      var pos := BITS - 1 - j;
      var idx := TableIndex(e, x, m, pos);
      var index := OddIndex(idx);
      ghost var before := acc;
      acc := if j == 0 then table[idx] else G.add(G.add(acc, acc), table[idx]);
      StepTaken(G, g, q, r, ev, xv, mv, pos, before, idx, acc);
      TraceNext(G, g, q, r, ev, xv, mv, steps, Step(index, acc));
      steps := steps + [Step(index, acc)];
    }
  }

  lemma StepTaken<P(!new)>(G: Group<P>, g: P, q: P, r: P, e: nat, x: nat, m: nat, pos: nat, before: P, idx: nat, acc: P)
    requires IsGroup(G) && idx == ValueBit(e, pos) + 2 * ValueBit(x, pos) + 4 * ValueBit(m, pos)
    requires before == Accumulated(G, g, q, r, e, x, m, pos + 1)
    requires idx < 8 && var t :=
      Table(G, g, q, r)[idx]; acc == G.add(G.add(before, before), t) || (before == G.identity && acc == t)
    ensures IsStep(G, g, q, r, e, x, m, Step(OddIndex(idx), acc), pos)
  {
    LadderStep(G, g, q, r, e, x, m, pos, before, idx);
    FirstStep(G, Table(G, g, q, r)[idx]);
  }

  lemma TraceNext<P>(G: Group<P>, g: P, q: P, r: P, e: nat, x: nat, m: nat, steps: seq<Step<P>>, step: Step<P>)
    requires |steps| < BITS && IsTrace(G, g, q, r, e, x, m, steps)
      && IsStep(G, g, q, r, e, x, m, step, BITS - 1 - |steps|)
    ensures IsTrace(G, g, q, r, e, x, m, steps + [step])
  {
  }

  method TableIndex(e: seq<Byte>, x: seq<Byte>, m: seq<Byte>, pos: nat) returns (idx: nat)
    requires 8 * |e| == 8 * |x| == 8 * |m| == BITS && pos < BITS
    ensures idx == ValueBit(Value(e), pos) + 2 * ValueBit(Value(x), pos) + 4 * ValueBit(Value(m), pos)
  {
    idx := BitAt(e, pos) + 2 * BitAt(x, pos) + 4 * BitAt(m, pos);
    BitIsValueBit(e, pos);
    BitIsValueBit(x, pos);
    BitIsValueBit(m, pos);
  }

  lemma LadderStart<P(!new)>(G: Group<P>, g: P, q: P, r: P, e: seq<Byte>, x: seq<Byte>, m: seq<Byte>)
    requires IsGroup(G) && 8 * |e| == 8 * |x| == 8 * |m| == BITS
    ensures G.identity == Accumulated(G, g, q, r, Value(e), Value(x), Value(m), BITS)
  {
    ValueFits(e);
    ValueFits(x);
    ValueFits(m);
    assert Laws1(G, G.identity);
  }

  /**
   The table lookup of src/mdoc_zk/ec.rs, as a chain of conditional assignments, takes the same entry, and the chain
   that computes the index gives the same odd number.
   */
  function Select<P>(G: Group<P>, g: P, q: P, r: P, e: bool, x: bool, m: bool): (step: (int, P))
    ensures var idx := (if e then 1 else 0) + 2 * (if x then 1 else 0) + 4 * (if m then 1 else 0);
      step == (OddIndex(idx), [G.identity, g, q, G.add(g, q), r, G.add(g, r), G.add(q, r), G.add(G.add(g, q), r)][idx])
  {
    var t := if e && !x && !m then g else G.identity;
    var t := if !e && x && !m then q else t;
    var t := if e && x && !m then G.add(g, q) else t;
    var t := if !e && !x && m then r else t;
    var t := if e && !x && m then G.add(g, r) else t;
    var t := if !e && x && m then G.add(q, r) else t;
    var t := if e && x && m then G.add(G.add(g, q), r) else t;
    var index := -7;
    var index := if e then index + 2 else index;
    var index := if x then index + 4 else index;
    var index := if m then index + 8 else index;
    (index, t)
  }

  /** Both tables hold the same points. */
  lemma SameTable<P(!new)>(G: Group<P>, g: P, q: P, r: P)
    requires IsGroup(G)
    ensures [G.identity, g, q, G.add(g, q), r, G.add(g, r), G.add(q, r), G.add(G.add(g, q), r)] == Table(G, g, q, r)
  {
    assert Laws2(G, q, r) && Laws3(G, g, q, r);
  }

  /** The ladder of src/mdoc_zk/ec.rs, over the bits of three 256-bit scalars. */
  method SelectLadder<P(!new)>(G: Group<P>, g: P, q: P, r: P, e: nat, x: nat, m: nat)
      returns (steps: seq<Step<P>>, acc: P)
    requires IsGroup(G) && Fits(e) && Fits(x) && Fits(m)
    ensures |steps| == BITS && IsTrace(G, g, q, r, e, x, m, steps)
    ensures acc == Combination(G, e, g, x, q, m, r)
  {
    acc := G.identity;
    steps := [];
    assert Laws1(G, G.identity);
    SameTable(G, g, q, r);
    for j := 0 to BITS
      invariant |steps| == j && IsTrace(G, g, q, r, e, x, m, steps)
      invariant acc == Accumulated(G, g, q, r, e, x, m, BITS - j)
    {
      var pos := BITS - 1 - j;
      var (index, toAdd) := Select(G, g, q, r, ValueBit(e, pos) == 1, ValueBit(x, pos) == 1, ValueBit(m, pos) == 1);
      ghost var before := acc;
      acc := G.add(G.add(acc, acc), toAdd);
      StepTaken(G, g, q, r, e, x, m, pos, before, ValueBit(e, pos) + 2 * ValueBit(x, pos) + 4 * ValueBit(m, pos), acc);
      TraceNext(G, g, q, r, e, x, m, steps, Step(index, acc));
      steps := steps + [Step(index, acc)];
    }
  }

  // ----- The signature equation -----

  lemma ModMul(a: nat, b: nat, n: nat)
    requires n > 0
    ensures (a % n) * b % n == a * b % n
  {
    var q, r := a / n, a % n;
    assert a == q * n + r;
    assert a * b
      == (q * b) * n + r * b by { assert (q * n + r) * b == q * n * b + r * b; assert q * n * b == (q * b) * n; }
    ModAddMultiple(r * b, q * b, n);
  }


  lemma ModAddMultiple(a: nat, k: nat, n: nat)
    requires n > 0
    ensures (k * n + a) % n == a % n
  {
    var q, r := a / n, a % n;
    assert a == n * q + r;
    assert k * n + a == n * (k + q) + r;
    DivUnique(k * n + a, n, k + q, r);
    DivUnique(a, n, q, r);
  }

  /** s * ((e * w) % n) is e modulo n when w is the inverse of s. */
  lemma InverseCancels(s: nat, w: nat, e: nat, n: nat)
    requires n > 1 && (s * w) % n == 1
    ensures s * ((e * w) % n) % n == e % n
  {
    ModMul(e * w, s, n);
    assert ((e * w) % n) * s == s * ((e * w) % n);
    assert e * w * s == (s * w) * e;
    ModMul(s * w, e, n);
  }

  /** If R = u1 * G + u2 * Q with u1 = e / s and u2 = r / s, then s * R = e * G + r * Q. */
  lemma SignatureEquation<P(!new)>(G: Group<P>, n: nat, g: P, q: P, e: nat, r: nat, s: nat, w: nat)
    requires IsGroup(G) && n > 1 && Times(G, n, g) == Times(G, n, q) == G.identity && (s * w) % n == 1
    ensures var point := G.add(Times(G, (e * w) % n, g), Times(G, (r * w) % n, q));
      Times(G, s, point) == G.add(Times(G, e, g), Times(G, r, q))
  {
    var u1, u2 := (e * w) % n, (r * w) % n;
    TimesSum(G, s, Times(G, u1, g), Times(G, u2, q));
    TimesTimes(G, s, u1, g);
    TimesTimes(G, s, u2, q);
    InverseCancels(s, w, e, n);
    InverseCancels(s, w, r, n);
    TimesModulo(G, n, s * u1, g);
    TimesModulo(G, n, e, g);
    TimesModulo(G, n, s * u2, q);
    TimesModulo(G, n, r, q);
  }

  /**
   The final identity check never rejects: once R is recovered from the signature, any e and x that agree with the
   digest and with r modulo n give e * G + x * Q + (n - s) * R = 0.
   */
  lemma LadderEndsAtIdentity<P(!new)>(G: Group<P>, n: nat, g: P, q: P, point: P, digest: nat, r: nat, s: nat, w: nat,
                                      e: nat, x: nat)
    requires IsGroup(G) && n > 1 && Times(G, n, g) == Times(G, n, q) == Times(G, n, point) == G.identity
    requires 0 < s < n && (s * w) % n == 1 && e % n == digest % n && x % n == r % n
    requires point == G.add(Times(G, (digest * w) % n, g), Times(G, (r * w) % n, q))
    ensures Combination(G, e, g, x, q, n - s, point) == G.identity
  {
    SignatureEquation(G, n, g, q, digest, r, s, w);
    TimesModulo(G, n, e, g);
    TimesModulo(G, n, digest, g);
    TimesModulo(G, n, x, q);
    TimesModulo(G, n, r, q);
    var sum := G.add(Times(G, e, g), Times(G, x, q));
    assert sum == Times(G, s, point);
    TimesAdd(G, s, n - s, point);
  }

  // ----- Verification -----

  datatype Verdict =
    | Accepted
    | ScalarOutOfRange
    | PointAtInfinity
    | SignatureDoesNotVerify
    | TablePointAtInfinity
    | ZeroCoordinate
    | LadderDoesNotEnd

  /** x-coordinates of points other than the identity; `bytes` is the 32-byte big-endian encoding. */
  datatype Curve<!P> = Curve(group: Group<P>, n: nat, generator: P, coordinate: P -> nat, bytes: nat -> seq<Byte>)

  ghost predicate EncodesAt<P>(C: Curve<P>, v: nat) {
    Fits(v) ==> 8 * |C.bytes(v)| == BITS && Value(C.bytes(v)) == v
  }

  ghost predicate Encodes<P>(C: Curve<P>) {
    forall v: nat :: EncodesAt(C, v)
  }

  ghost predicate HasOrder<P>(C: Curve<P>, p: P) {
    Times(C.group, C.n, p) == C.group.identity && Fits(C.coordinate(p))
  }

  /** A group in which every point has order n, as on P-256. */
  ghost predicate IsCurve<P(!new)>(C: Curve<P>) {
    IsGroup(C.group) && 1 < C.n && Fits(C.n) && Encodes(C) && forall p: P :: HasOrder(C, p)
  }

  /** R = (e / s) * G + (r / s) * Q, where w is the inverse of s. */
  method RecoverPoint<P(!new)>(C: Curve<P>, q: P, e: nat, r: nat, w: nat) returns (point: P)
    requires IsCurve(C)
    ensures point == C.group.add(Times(C.group, (e * w) % C.n, C.generator), Times(C.group, (r * w) % C.n, q))
  {
    var u1, u2 := (e * w) % C.n, (r * w) % C.n;
    PrefixMonotone(u1, C.n, BITS);
    PrefixMonotone(u2, C.n, BITS);
    var a := ScalarMul(C.group, C.generator, u1, BITS);
    var b := ScalarMul(C.group, q, u2, BITS);
    point := C.group.add(a, b);
  }

  /** The point that a signature determines. */
  ghost function Recovered<P>(C: Curve<P>, q: P, digest: nat, r: nat, w: nat): P
    requires C.n > 0
  {
    C.group.add(Times(C.group, (digest * w) % C.n, C.generator), Times(C.group, (r * w) % C.n, q))
  }

  /** A sum in the table of the ladder is the identity, which both implementations refuse. */
  predicate Degenerate<P(==)>(C: Curve<P>, q: P, point: P) {
    var G, g := C.group, C.generator;
    G.add(g, q) == G.identity || G.add(g, point) == G.identity || G.add(point, q) == G.identity
    || G.add(g, G.add(point, q)) == G.identity
  }

  /** What an accepted signature records: the trace of the ladder over e, x and n - s, which ends at the identity. */
  ghost predicate IsWitness<P>(C: Curve<P>, q: P, point: P, e: nat, x: nat, s: nat, steps: seq<Step<P>>) {
    && s <= C.n && |steps| == BITS && IsTrace(C.group, C.generator, q, point, e, x, C.n - s, steps)
    && steps[BITS - 1].acc == C.group.identity
  }

  lemma LastStep<P(!new)>(G: Group<P>, g: P, q: P, r: P, e: nat, x: nat, m: nat, steps: seq<Step<P>>)
    requires |steps| == BITS && IsTrace(G, g, q, r, e, x, m, steps)
    ensures steps[BITS - 1].acc == Combination(G, e, g, x, q, m, r)
  {
    assert IsStep(G, g, q, r, e, x, m, steps[BITS - 1], BITS - 1 - (BITS - 1));
  }

  /**
   `verification` of src/nymauth/ecdsa.rs: its checks, in order. `w` is the inverse of s. The digest is reduced modulo n
   and the ladder runs over the whole x-coordinate of R, which equals r modulo n only. The final check never rejects.
   */
  method Verification<P(!new, ==)>(C: Curve<P>, q: P, d: nat, r: nat, s: nat, w: nat)
      returns (verdict: Verdict, steps: seq<Step<P>>)
    requires IsCurve(C) && (0 < s < C.n ==> (s * w) % C.n == 1)
    ensures verdict != LadderDoesNotEnd
    ensures verdict == ScalarOutOfRange <==> r == 0 || r >= C.n || s == 0 || s >= C.n
    ensures verdict != ScalarOutOfRange ==>
      var point := Recovered(C, q, d % C.n, r, w);
      var x := C.coordinate(point);
      && (verdict == PointAtInfinity <==> point == C.group.identity)
      && (verdict == SignatureDoesNotVerify <==> point != C.group.identity && x % C.n != r)
      && (verdict == Accepted <==>
            point != C.group.identity && x % C.n == r && !Degenerate(C, q, point) && x != 0 && C.coordinate(q) != 0)
      && (verdict == Accepted ==> IsWitness(C, q, point, d % C.n, x, s, steps))
  {
    var G, n := C.group, C.n;
    steps := [];
    if r == 0 || r >= n || s == 0 || s >= n {
      return ScalarOutOfRange, steps;
    }
    var e := d % n;
    var point := RecoverPoint(C, q, e, r, w);
    if point == G.identity {
      return PointAtInfinity, steps;
    }
    assert HasOrder(C, point);
    var x := C.coordinate(point);
    if x % n != r {
      return SignatureDoesNotVerify, steps;
    }
    if Degenerate(C, q, point) {
      return TablePointAtInfinity, steps;
    }
    if x == 0 || C.coordinate(q) == 0 {
      return ZeroCoordinate, steps;
    }
    DivUnique(r, n, 0, r);
    verdict, steps := RunLadder(C, q, point, e, x, r, s, w);
  }

  /** On the curve, the combination that the ladder computes is the identity. */
  lemma LadderEnds<P(!new)>(C: Curve<P>, q: P, point: P, digest: nat, e: nat, x: nat, r: nat, s: nat, w: nat)
    requires IsCurve(C) && e % C.n == digest % C.n && x % C.n == r % C.n && 0 < s < C.n && (s * w) % C.n == 1
    requires point == Recovered(C, q, digest, r, w)
    ensures Fits(C.n - s) && Combination(C.group, e, C.generator, x, q, C.n - s, point) == C.group.identity
  {
    assert HasOrder(C, C.generator) && HasOrder(C, q) && HasOrder(C, point);
    PrefixMonotone(C.n - s, C.n, BITS);
    LadderEndsAtIdentity(C.group, C.n, C.generator, q, point, digest, r, s, w, e, x);
  }

  /** The ladder over the encodings of e, x and n - s, and the check that it ends at the identity. */
  method RunLadder<P(!new, ==)>(C: Curve<P>, q: P, point: P, e: nat, x: nat, ghost r: nat, s: nat, ghost w: nat)
      returns (verdict: Verdict, steps: seq<Step<P>>)
    requires IsCurve(C) && e < C.n && Fits(x) && x % C.n == r % C.n && 0 < s < C.n && (s * w) % C.n == 1
    requires point == Recovered(C, q, e, r, w)
    ensures verdict == Accepted && IsWitness(C, q, point, e, x, s, steps)
  {
    LadderEnds(C, q, point, e, e, x, r, s, w);
    PrefixMonotone(e, C.n, BITS);
    var acc;
    steps, acc := EncodedLadder(C, q, point, e, x, C.n - s);
    if acc != C.group.identity {
      return LadderDoesNotEnd, steps;
    }
    LastStep(C.group, C.generator, q, point, e, x, C.n - s, steps);
    verdict := Accepted;
  }

  method EncodedLadder<P(!new)>(C: Curve<P>, q: P, point: P, e: nat, x: nat, m: nat)
      returns (steps: seq<Step<P>>, acc: P)
    requires IsCurve(C) && Fits(e) && Fits(x) && Fits(m)
    ensures |steps| == BITS && IsTrace(C.group, C.generator, q, point, e, x, m, steps)
    ensures acc == Combination(C.group, e, C.generator, x, q, m, point)
  {
    assert EncodesAt(C, e) && EncodesAt(C, x) && EncodesAt(C, m);
    steps, acc := Ladder(C.group, C.generator, q, point, C.bytes(e), C.bytes(x), C.bytes(m));
  }

  /**
   `fill_ecdsa_witness` and `multi_scalar_multiplication` of src/mdoc_zk/ec.rs, for a signature whose scalars are in
   range as `Signature::decode` ensures: the ladder runs over the bits of the hash itself, of r and of n - s. The hash
   is reduced only to recover R, whose x-coordinate has to be r itself. The final check never rejects here either.
   */
  method FillEcdsaWitness<P(!new, ==)>(C: Curve<P>, q: P, hash: nat, r: nat, s: nat, w: nat)
      returns (verdict: Verdict, steps: seq<Step<P>>)
    requires IsCurve(C) && Fits(hash) && 0 < r < C.n && 0 < s < C.n && (s * w) % C.n == 1
    ensures verdict != LadderDoesNotEnd
    ensures var point := Recovered(C, q, hash % C.n, r, w);
      && (verdict == PointAtInfinity <==> q == C.group.identity || point == C.group.identity)
      && (verdict == SignatureDoesNotVerify
        <==> q != C.group.identity && point != C.group.identity && C.coordinate(point) != r)
      && (verdict == Accepted <==>
            q != C.group.identity && point != C.group.identity && C.coordinate(point) == r && !Degenerate(C, q, point))
      && (verdict == Accepted ==> IsWitness(C, q, point, hash, r, s, steps))
  {
    steps := [];
    if q == C.group.identity {
      return PointAtInfinity, steps;
    }
    var point := RecoverPoint(C, q, hash % C.n, r, w);
    if point == C.group.identity {
      return PointAtInfinity, steps;
    }
    if C.coordinate(point) != r {
      return SignatureDoesNotVerify, steps;
    }
    verdict, steps := MultiScalarMultiplication(C, q, point, hash, r, s, w);
  }

  lemma SameDegenerate<P(!new)>(C: Curve<P>, q: P, point: P)
    requires IsGroup(C.group)
    ensures var G, g :=
      C.group, C.generator; G.add(point, q) == G.add(q, point) && G.add(g, G.add(point, q)) == G.add(G.add(g, q), point)
  {
    assert Laws2(C.group, q, point) && Laws3(C.group, C.generator, q, point);
  }

  method MultiScalarMultiplication<P(!new, ==)>(C: Curve<P>, q: P, point: P, hash: nat, r: nat, s: nat, ghost w: nat)
      returns (verdict: Verdict, steps: seq<Step<P>>)
    requires IsCurve(C) && Fits(hash) && 0 < r < C.n && 0 < s < C.n && (s * w) % C.n == 1
    requires point == Recovered(C, q, hash % C.n, r, w)
    ensures verdict == if Degenerate(C, q, point) then TablePointAtInfinity else Accepted
    ensures verdict == Accepted ==> IsWitness(C, q, point, hash, r, s, steps)
  {
    var G, g, m := C.group, C.generator, C.n - s;
    steps := [];
    SameDegenerate(C, q, point);
    if G.add(g, q) == G.identity || G.add(g, point) == G.identity || G.add(q, point) == G.identity
        || G.add(G.add(g, q), point) == G.identity {
      return TablePointAtInfinity, steps;
    }
    DivUnique(hash % C.n, C.n, 0, hash % C.n);
    LadderEnds(C, q, point, hash % C.n, hash, r, r, s, w);
    PrefixMonotone(r, C.n, BITS);
    var acc;
    steps, acc := SelectLadder(G, g, q, point, hash, r, m);
    if acc != G.identity {
      return LadderDoesNotEnd, steps;
    }
    LastStep(G, g, q, point, hash, r, m, steps);
    verdict := Accepted;
  }
}
