/**
 The number theoretic transform of src/fields/ntt.rs: an in-place decimation-in-frequency transform with
 its output in bit-reversed order, and the scaled inverse that undoes its stages in the opposite order.
 */
module Ntt {
  import opened Fields
  import opened Sums
  import opened Polynomials

  /** Entry i is a 2^i-th root of unity and the square of entry i + 1; entry 1 is not 1. */
  ghost predicate RootTable<F>(R: Field<F>, roots: seq<F>) {
    && (|roots| > 0 ==> roots[0] == R.one)
    && (|roots| > 1 ==> roots[1] != R.one)
    && (forall i :: 0 < i < |roots| ==> R.mul(roots[i], roots[i]) == roots[i - 1])
  }

  ghost predicate InverseTable<F>(R: Field<F>, roots: seq<F>, inverses: seq<F>) {
    && |roots| == |inverses|
    && (forall i :: 0 <= i < |roots| ==> R.mul(roots[i], inverses[i]) == R.one)
  }

  // ----- Positions -----

  /** Offset of position t in its half block of s positions. */
  ghost function Off(t: nat, s: nat): nat
    requires s > 0
    decreases t
  {
    if t < s then t else Off(t - s, s)
  }

  /** Half blocks alternate between low and high, starting with a low one. */
  ghost predicate Low(t: nat, s: nat)
    requires s > 0
    decreases t
  {
    t < s || !Low(t - s, s)
  }

  /** n is a whole number of blocks of d. */
  ghost predicate Whole(n: nat, d: nat)
    requires d > 0
    decreases n
  {
    n == 0 || (n >= d && Whole(n - d, d))
  }

  /** A position in a low half has its partner inside the array. */
  lemma {:induction false} PartnerInside(t: nat, s: nat, n: nat)
    requires s > 0 && t < n && Whole(n, 2 * s) && Low(t, s)
    ensures t + s < n
    decreases t
  {
    if t >= 2 * s {
      PartnerInside(t - 2 * s, s, n - 2 * s);
    }
  }

  /** Positions with the same offset are whole strides apart. */
  lemma {:induction false} SameOffset(t: nat, j: nat, s: nat)
    requires s > 0 && Off(t, s) == Off(j, s) && j <= t < j + 2 * s
    ensures t == j || t == j + s
    decreases t
  {
    if t >= 2 * s {
      OffTwice(t - 2 * s, s);
    }
    if j >= s {
      SameOffset(t - s, j - s, s);
    }
  }

  lemma OffTwice(t: nat, s: nat)
    requires s > 0
    ensures Off(t + 2 * s, s) == Off(t, s)
  {
    assert Off(t + s, s) == Off(t, s);
  }

  lemma {:induction false} OffBound(t: nat, s: nat)
    requires s > 0
    ensures Off(t, s) < s
    decreases t
  {
    if t >= s {
      OffBound(t - s, s);
    }
  }

  // ----- One stage -----

  datatype Direction = Forward | Inverse

  /** The two results of a butterfly on x and y with the root power p. */
  function Butterfly<F>(R: Field<F>, d: Direction, x: F, y: F, p: F): (F, F) {
    match d
    case Forward => (R.add(x, y), R.mul(R.sub(x, y), p))
    case Inverse => (R.add(x, R.mul(y, p)), R.sub(x, R.mul(y, p)))
  }

  /** Value at position t after a stage with stride s. */
  ghost function StageAt<F>(R: Field<F>, d: Direction, v: seq<F>, s: nat, w: F, t: nat): F
    requires s > 0
  {
    var p := Pow(R, w, Off(t, s));
    if Low(t, s) then Butterfly(R, d, At(R, v, t), At(R, v, t + s), p).0
    else Butterfly(R, d, At(R, v, t - s), At(R, v, t), p).1
  }

  ghost function Stage<F>(R: Field<F>, d: Direction, v: seq<F>, s: nat, w: F): (r: seq<F>)
    requires s > 0
    ensures |r| == |v|
  {
    seq(|v|, (t: nat) => StageAt(R, d, v, s, w, t))
  }

  /** A stage applied to the positions of offset i that lie below j, and to no others. */
  ghost function StageColumn<F>(R: Field<F>, d: Direction, v: seq<F>, s: nat, w: F, i: nat, j: nat): (r: seq<F>)
    requires s > 0
    ensures |r| == |v|
  {
    seq(|v|, (t: nat) requires t < |v| => if Off(t, s) == i && t < j then StageAt(R, d, v, s, w, t) else v[t])
  }

  lemma StageColumnStep<F(!new)>(R: Field<F>, d: Direction, v: seq<F>, s: nat, w: F, i: nat, j: nat)
    requires IsRing(R) && s > 0 && Off(j, s) == i && Low(j, s) && j + s < |v|
    ensures Off(j + s, s) == i && !Low(j + s, s)
    ensures StageColumn(R, d, v, s, w, i, j)[j] == v[j] && StageColumn(R, d, v, s, w, i, j)[j + s] == v[j + s]
    ensures var b := Butterfly(R, d, v[j], v[j + s], Pow(R, w, i));
      StageColumn(R, d, v, s, w, i, j)[j := b.0][j + s := b.1] == StageColumn(R, d, v, s, w, i, j + 2 * s)
  {
    var b := Butterfly(R, d, v[j], v[j + s], Pow(R, w, i));
    var l := StageColumn(R, d, v, s, w, i, j)[j := b.0][j + s := b.1];
    var r := StageColumn(R, d, v, s, w, i, j + 2 * s);
    forall t | 0 <= t < |v| ensures l[t] == r[t] {
      StageColumnAt(R, d, v, s, w, i, j, t);
    }
  }

  lemma StageColumnAt<F(!new)>(R: Field<F>, d: Direction, v: seq<F>, s: nat, w: F, i: nat, j: nat, t: nat)
    requires s > 0 && Off(j, s) == i && Low(j, s) && j + s < |v| && t < |v|
    requires Off(j + s, s) == i && !Low(j + s, s)
    ensures var b := Butterfly(R, d, v[j], v[j + s], Pow(R, w, i));
      StageColumn(R, d, v, s, w, i, j + 2 * s)[t] == if t == j then b.0 else if t == j + s then b.1
        else StageColumn(R, d, v, s, w, i, j)[t]
  {
    if Off(t, s) == i && j <= t < j + 2 * s {
      SameOffset(t, j, s);
    }
  }

  /** A butterfly only reads positions of its own offset. */
  lemma ColumnReads<F>(R: Field<F>, d: Direction, u: seq<F>, v: seq<F>, s: nat, w: F, i: nat, t: nat)
    requires s > 0 && |u| == |v| && t < |u| && Off(t, s) == i
    requires forall p :: 0 <= p < |u| && Off(p, s) == i ==> u[p] == v[p]
    ensures StageAt(R, d, u, s, w, t) == StageAt(R, d, v, s, w, t)
  {
    assert Off(t + s, s) == i;
    if t >= s {
      assert Off(t - s, s) == i;
    }
  }

  /** One butterfly in place; without `multiply` the root power is one. */
  method ApplyButterfly<F(!new)>(R: Field<F>, d: Direction, values: array<F>, j: nat, s: nat, power: F, multiply: bool)
    requires IsRing(R) && s > 0 && j + s < values.Length && (!multiply ==> power == R.one)
    modifies values
    ensures var b := Butterfly(R, d, old(values[j]), old(values[j + s]), power);
      values[..] == old(values[..])[j := b.0][j + s := b.1]
  {
    var low, high := values[j], values[j + s];
    var (x, y) := if multiply then Butterfly(R, d, low, high, power) else (R.add(low, high), R.sub(low, high));
    assert Laws1(R, R.sub(low, high)) && Laws1(R, high);
    values[j], values[j + s] := x, y;
  }

  /**
   The inner loop of a stage: every butterfly whose offset in its half block is i. The source leaves
   the multiplication by the root power out for i = 0, where `multiply` is false.
   */
  method Column<F(!new)>(R: Field<F>, d: Direction, values: array<F>, s: nat, i: nat, ghost w: F, power: F,
                         multiply: bool)
    requires IsRing(R) && i < s && Whole(values.Length, 2 * s)
    requires power == Pow(R, w, i) && (!multiply ==> i == 0)
    modifies values
    ensures values[..] == StageColumn(R, d, old(values[..]), s, w, i, values.Length)
  {
    ghost var v := values[..];
    var j := i;
    while j < values.Length
      invariant i <= j && Off(j, s) == i && Low(j, s)
      invariant values[..] == StageColumn(R, d, v, s, w, i, j)
    {
      PartnerInside(j, s, values.Length);
      StageColumnStep(R, d, v, s, w, i, j);
      ghost var before := values[..];
      ApplyButterfly(R, d, values, j, s, power, multiply);
      j := j + s * 2;
    }
    assert StageColumn(R, d, v, s, w, i, j) == StageColumn(R, d, v, s, w, i, |v|);
  }

  method RunStage<F(!new)>(R: Field<F>, d: Direction, values: array<F>, s: nat, w: F)
    requires IsRing(R) && s > 0 && Whole(values.Length, 2 * s)
    modifies values
    ensures values[..] == Stage(R, d, old(values[..]), s, w)
  {
    ghost var v := values[..];
    Column(R, d, values, s, 0, w, R.one, false);
    var power := w;
    assert Laws1(R, w);
    for i := 1 to s
      invariant power == Pow(R, w, i)
      invariant forall t :: 0 <= t < values.Length ==>
        values[..][t] == if Off(t, s) < i then StageAt(R, d, v, s, w, t) else v[t]
    {
      ghost var before := values[..];
      Column(R, d, values, s, i, w, power, true);
      forall t | 0 <= t < values.Length && Off(t, s) == i ensures values[..][t] == StageAt(R, d, v, s, w, t) {
        ColumnReads(R, d, before, v, s, w, i, t);
      }
      power := R.mul(power, w);
      assert Laws2(R, w, Pow(R, w, i));
    }
    forall t | 0 <= t < values.Length ensures values[..][t] == StageAt(R, d, v, s, w, t) {
      OffBound(t, s);
    }
    assert values[..] == Stage(R, d, v, s, w);
  }

  // ----- All stages -----

  /** The forward stages k, k - 1, ..., 1; stage k has stride 2^(k - 1) and uses root k. */
  ghost function Stages<F>(R: Field<F>, roots: seq<F>, v: seq<F>, k: nat): (r: seq<F>)
    requires k < |roots|
    ensures |r| == |v|
    decreases k
  {
    if k == 0 then v else Stages(R, roots, Stage(R, Forward, v, Exp2(k - 1), roots[k]), k - 1)
  }

  /** The inverse stages 1, 2, ..., k. */
  ghost function Unstages<F>(R: Field<F>, inverses: seq<F>, v: seq<F>, k: nat): (r: seq<F>)
    requires k < |inverses|
    ensures |r| == |v|
  {
    if k == 0 then v else Stage(R, Inverse, Unstages(R, inverses, v, k - 1), Exp2(k - 1), inverses[k])
  }

  lemma {:induction false} WholeTwice(n: nat, d: nat)
    requires d > 0 && Whole(n, d)
    ensures Whole(2 * n, d) && Whole(2 * n, 2 * d)
  {
    if n > 0 {
      WholeTwice(n - d, d);
      assert 2 * n - d - d == 2 * (n - d);
      assert Whole(2 * n - d, d);
    }
  }

  lemma {:induction false} WholeBlocks(n: nat, k: nat)
    requires k <= n
    ensures Whole(Exp2(n), Exp2(k))
  {
    if k == n {
      assert Whole(Exp2(n) - Exp2(k), Exp2(k));
    } else {
      WholeBlocks(n - 1, k);
      WholeTwice(Exp2(n - 1), Exp2(k));
    }
  }

  /** `ntt_bit_reversed`, for a length 2^logN as the source requires. */
  method NttBitReversed<F(!new)>(R: Field<F>, roots: seq<F>, values: array<F>, logN: nat)
    requires IsRing(R) && logN < |roots| && values.Length == Exp2(logN)
    modifies values
    ensures values[..] == Stages(R, roots, old(values[..]), logN)
  {
    var k := logN;
    var stride := if logN == 0 then 0 else Exp2(logN - 1);
    while k > 0
      invariant 0 <= k <= logN && (k > 0 ==> stride == Exp2(k - 1))
      invariant Stages(R, roots, values[..], k) == Stages(R, roots, old(values[..]), logN)
    {
      WholeBlocks(logN, k);
      RunStage(R, Forward, values, stride, roots[k]);
      stride, k := stride / 2, k - 1;
    }
  }

  /** `scaled_inverse_ntt_bit_reversed`. */
  method ScaledInverseNttBitReversed<F(!new)>(R: Field<F>, inverses: seq<F>, values: array<F>, logN: nat)
    requires IsRing(R) && logN < |inverses| && values.Length == Exp2(logN)
    modifies values
    ensures values[..] == Unstages(R, inverses, old(values[..]), logN)
  {
    var stride := 1;
    for k := 1 to logN + 1
      invariant stride == Exp2(k - 1)
      invariant values[..] == Unstages(R, inverses, old(values[..]), k - 1)
    {
      WholeBlocks(logN, k);
      RunStage(R, Inverse, values, stride, inverses[k]);
      stride := stride * 2;
    }
  }

  // ----- The forward transform is the discrete Fourier transform in bit-reversed order -----

  /** The k low bits of j in the opposite order. */
  function BitRev(j: nat, k: nat): nat
    decreases k
  {
    if k == 0 then 0 else (j % 2) * Exp2(k - 1) + BitRev(j / 2, k - 1)
  }

  lemma {:induction false} BitRevBound(j: nat, k: nat)
    ensures BitRev(j, k) < Exp2(k)
    decreases k
  {
    if k > 0 {
      BitRevBound(j / 2, k - 1);
      assert j % 2 == 0 || j % 2 == 1;
    }
  }

  lemma {:induction false} BitRevTop(b: nat, l: nat, k: nat)
    requires b < 2 && l < Exp2(k)
    ensures BitRev(b * Exp2(k) + l, k + 1) == 2 * BitRev(l, k) + b
    decreases k
  {
    var j := b * Exp2(k) + l;
    if k == 0 {
      assert BitRev(j, 1) == (j % 2) * 1 + BitRev(j / 2, 0);
    } else {
      assert b * Exp2(k) == 2 * (b * Exp2(k - 1));
      assert j % 2 == l % 2 && j / 2 == b * Exp2(k - 1) + l / 2;
      BitRevTop(b, l / 2, k - 1);
      assert 2 * ((l % 2) * Exp2(k - 1)) == (l % 2) * Exp2(k);
    }
  }

  lemma {:induction false} BitRevInvolution(j: nat, k: nat)
    requires j < Exp2(k)
    ensures BitRev(BitRev(j, k), k) == j
    decreases k
  {
    if k > 0 {
      var m, low := k - 1, BitRev(j / 2, k - 1);
      assert j / 2 < Exp2(m);
      BitRevInvolution(j / 2, m);
      BitRevBound(j / 2, m);
      BitRevTop(j % 2, low, m);
      assert BitRev(j, k) == (j % 2) * Exp2(m) + low && k == m + 1;
    }
  }

  /** a_0 + a_1 w^j + a_2 w^(2j) + ... */
  ghost function Dft<F>(R: Field<F>, a: seq<F>, w: F, j: nat): F {
    Sum(R, |a|, DftTerms(R, a, w, j))
  }

  ghost function DftTerms<F>(R: Field<F>, a: seq<F>, w: F, j: nat): int -> F {
    (i: int) => R.mul(At(R, a, i), PowAt(R, w, i * j))
  }

  lemma DftIsEvaluation<F(!new)>(R: Field<F>, a: seq<F>, w: F, j: nat)
    requires IsRing(R)
    ensures Dft(R, a, w, j) == Ev(R, a, Pow(R, w, j))
  {
    var x := Pow(R, w, j);
    forall i | 0 <= i < |a| ensures DftTerms(R, a, w, j)(i) == Monomials(R, a, x)(i) {
      MonomialAt(R, a, x, i);
      assert At(R, a, i) == a[i] && PowAt(R, w, i * j) == Pow(R, w, i * j);
      PowMul(R, w, j, i);
      assert i * j == j * i;
    }
    SumCong(R, |a|, DftTerms(R, a, w, j), Monomials(R, a, x));
    EvIsSum(R, a, x);
  }

  lemma PowCommute<F(!new)>(R: Field<F>, x: F, m: nat, n: nat)
    requires IsRing(R)
    ensures Pow(R, Pow(R, x, m), n) == Pow(R, Pow(R, x, n), m)
  {
    PowMul(R, x, m, n);
    PowMul(R, x, n, m);
    assert m * n == n * m;
  }

  lemma SquarePower<F(!new)>(R: Field<F>, x: F, j: nat)
    requires IsRing(R)
    ensures j % 2 == 0 ==> Pow(R, R.mul(x, x), j / 2) == Pow(R, x, j)
    ensures j % 2 == 1 ==> R.mul(x, Pow(R, R.mul(x, x), j / 2)) == Pow(R, x, j)
  {
    SquareIsPow(R, x);
    PowMul(R, x, 2, j / 2);
    assert j % 2 == 0 ==> 2 * (j / 2) == j;
    assert j % 2 == 1 ==> 2 * (j / 2) == j - 1;
  }

  /** Half-way round the unit circle is minus one. */
  lemma {:induction false} HalfTurn<F(!new)>(R: Field<F>, roots: seq<F>, k: nat)
    requires IsField(R) && RootTable(R, roots) && 0 < k < |roots|
    ensures Pow(R, roots[k], Exp2(k - 1)) == R.neg(R.one)
    decreases k
  {
    if k == 1 {
      SquareIsPow(R, roots[1]);
      SquareRootOfOne(R, roots[1]);
    } else {
      HalfTurn(R, roots, k - 1);
      PowMul(R, roots[k], 2, Exp2(k - 2));
      SquareIsPow(R, roots[k]);
    }
  }

  lemma SquareRootOfOne<F(!new)>(R: Field<F>, w: F)
    requires IsField(R) && R.mul(w, w) == R.one && w != R.one
    ensures w == R.neg(R.one)
  {
    Ring(R, S(M(V(0), V(0)), O), M(S(V(0), O), A(V(0), O)), [w]);
    SubZero(R, R.mul(w, w), R.one);
    SubZero(R, w, R.one);
    NoZeroDivisors(R, R.sub(w, R.one), R.add(w, R.one));
    assert Laws1(R, R.one) && Laws2(R, R.one, R.neg(R.one));
    Cancel(R, w, R.neg(R.one), R.one);
  }

  lemma SquareIsPow<F(!new)>(R: Field<F>, x: F)
    requires IsRing(R)
    ensures Pow(R, x, 2) == R.mul(x, x) && Pow(R, x, 1) == x
  {
    assert Pow(R, x, 1) == R.mul(x, Pow(R, x, 0));
    assert Laws1(R, x);
  }

  /** (w^j)^h for the half turn h: 1 or -1 by the parity of j. */
  lemma {:induction false} SignOfHalfTurn<F(!new)>(R: Field<F>, j: nat)
    requires IsRing(R)
    ensures Pow(R, R.neg(R.one), j) == if j % 2 == 0 then R.one else R.neg(R.one)
  {
    if j > 0 {
      SignOfHalfTurn(R, j - 1);
      MulNeg(R, R.neg(R.one), R.one);
      assert Laws1(R, R.neg(R.one));
      NegNeg(R, R.one);
    }
  }

  /** Later stages treat two blocks independently. */
  lemma {:induction false} StageConcat<F>(R: Field<F>, d: Direction, u: seq<F>, v: seq<F>, s: nat, w: F)
    requires s > 0 && Whole(|u|, 2 * s) && Whole(|v|, 2 * s)
    ensures Stage(R, d, u + v, s, w) == Stage(R, d, u, s, w) + Stage(R, d, v, s, w)
  {
    var l, r := Stage(R, d, u + v, s, w), Stage(R, d, u, s, w) + Stage(R, d, v, s, w);
    forall t | 0 <= t < |u + v| ensures l[t] == r[t] {
      if t < |u| {
        StageAtLeft(R, d, u, v, s, w, t);
      } else {
        StageAtRight(R, d, u, v, s, w, t);
      }
    }
  }

  lemma StageAtLeft<F>(R: Field<F>, d: Direction, u: seq<F>, v: seq<F>, s: nat, w: F, t: nat)
    requires s > 0 && Whole(|u|, 2 * s) && t < |u|
    ensures StageAt(R, d, u + v, s, w, t) == StageAt(R, d, u, s, w, t)
  {
    if Low(t, s) {
      PartnerInside(t, s, |u|);
    }
  }

  lemma StageAtRight<F>(R: Field<F>, d: Direction, u: seq<F>, v: seq<F>, s: nat, w: F, t: nat)
    requires s > 0 && Whole(|u|, 2 * s) && Whole(|v|, 2 * s) && |u| <= t < |u + v|
    ensures StageAt(R, d, u + v, s, w, t) == StageAt(R, d, v, s, w, t - |u|)
  {
    BlockShift(t - |u|, s, |u|);
    if Low(t, s) {
      PartnerInside(t - |u|, s, |v|);
    }
  }

  lemma {:induction false} BlockShift(t: nat, s: nat, n: nat)
    requires s > 0 && Whole(n, 2 * s)
    ensures Off(t + n, s) == Off(t, s) && (Low(t + n, s) <==> Low(t, s))
    ensures !Low(t, s) ==> t >= s
    decreases n
  {
    if n > 0 {
      BlockShift(t, s, n - 2 * s);
      OffTwice(t + n - 2 * s, s);
      assert Low(t + n, s) <==> !Low(t + n - s, s);
    }
  }

  lemma {:induction false} StagesConcat<F>(R: Field<F>, roots: seq<F>, u: seq<F>, v: seq<F>, k: nat)
    requires k < |roots| && Whole(|u|, Exp2(k)) && Whole(|v|, Exp2(k))
    ensures Stages(R, roots, u + v, k) == Stages(R, roots, u, k) + Stages(R, roots, v, k)
    decreases k
  {
    if k > 0 {
      var s, w := Exp2(k - 1), roots[k];
      StageConcat(R, Forward, u, v, s, w);
      WholeHalf(|u|, s);
      WholeHalf(|v|, s);
      StagesConcat(R, roots, Stage(R, Forward, u, s, w), Stage(R, Forward, v, s, w), k - 1);
    }
  }

  lemma {:induction false} WholeHalf(n: nat, d: nat)
    requires d > 0 && Whole(n, 2 * d)
    ensures Whole(n, d)
  {
    if n > 0 {
      WholeHalf(n - 2 * d, d);
      assert Whole(n - d, d);
    }
  }

  lemma EvHalves<F(!new)>(R: Field<F>, v: seq<F>, h: nat, x: F)
    requires IsRing(R) && h <= |v|
    ensures Ev(R, v, x) == R.add(Ev(R, v[..h], x), R.mul(Pow(R, x, h), Ev(R, v[h..], x)))
  {
    assert v == v[..h] + v[h..];
    EvConcat(R, v[..h], v[h..], x);
  }

  /** At an even power of the root the two halves add up. */
  lemma EvenOutput<F(!new)>(R: Field<F>, v: seq<F>, h: nat, w: F, x: F)
    requires IsRing(R) && h > 0 && |v| == 2 * h && Pow(R, x, h) == R.one
    ensures Ev(R, Stage(R, Forward, v, h, w)[..h], x) == Ev(R, v, x)
  {
    var u := Stage(R, Forward, v, h, w)[..h];
    EvHalves(R, v, h, x);
    forall i | 0 <= i < h ensures u[i] == R.add(v[..h][i], v[h..][i]) {
      assert Low(i, h);
    }
    assert u == AddSeq(R, v[..h], v[h..]);
    EvAdd(R, v[..h], v[h..], x);
    assert Laws2(R, R.one, Ev(R, v[h..], x)) && Laws1(R, Ev(R, v[h..], x));
  }

  /** At an odd power the twisted difference of the halves remains. */
  lemma OddOutput<F(!new)>(R: Field<F>, v: seq<F>, h: nat, w: F, y: F)
    requires IsRing(R) && h > 0 && |v| == 2 * h && Pow(R, R.mul(w, y), h) == R.neg(R.one)
    ensures Ev(R, Stage(R, Forward, v, h, w)[h..], y) == Ev(R, v, R.mul(w, y))
  {
    var u, x := Stage(R, Forward, v, h, w)[h..], R.mul(w, y);
    var c := SubSeq(R, v[..h], v[h..]);
    forall i {:trigger u[i]} | 0 <= i < h ensures u[i] == R.mul(c[i], Pow(R, w, i)) {
      assert Off(i + h, h) == Off(i, h) == i && !Low(i + h, h);
      assert At(R, v, i + h) == v[i + h] && At(R, v, i) == v[i];
    }
    EvTwist(R, c, u, w, y);
    EvHalves(R, v, h, x);
    EvSub(R, v[..h], v[h..], x);
    MinusIsTimes(R, Ev(R, v[..h], x), Ev(R, v[h..], x));
  }

  lemma MinusIsTimes<F(!new)>(R: Field<F>, a: F, b: F)
    requires IsRing(R)
    ensures R.add(a, R.mul(R.neg(R.one), b)) == R.sub(a, b)
  {
    Ring(R, S(V(0), V(1)), A(V(0), M(N(O), V(1))), [a, b]);
  }

  lemma RootPowers<F(!new)>(R: Field<F>, roots: seq<F>, k: nat, j: nat)
    requires IsField(R) && RootTable(R, roots) && 0 < k < |roots|
    ensures Pow(R, Pow(R, roots[k], j), Exp2(k - 1)) == if j % 2 == 0 then R.one else R.neg(R.one)
    ensures j % 2 == 0 ==> Pow(R, roots[k - 1], j / 2) == Pow(R, roots[k], j)
    ensures j % 2 == 1 ==> R.mul(roots[k], Pow(R, roots[k - 1], j / 2)) == Pow(R, roots[k], j)
  {
    var w, h := roots[k], Exp2(k - 1);
    HalfTurn(R, roots, k);
    PowCommute(R, w, j, h);
    SignOfHalfTurn(R, j);
    SquarePower(R, w, j);
  }

  /** The first stage splits the transform into transforms of the two halves. */
  lemma StagesHalves<F>(R: Field<F>, roots: seq<F>, v: seq<F>, k: nat)
    requires 0 < k < |roots| && |v| == Exp2(k)
    ensures var h, u := Exp2(k - 1), Stage(R, Forward, v, Exp2(k - 1), roots[k]);
      Stages(R, roots, v, k) == Stages(R, roots, u[..h], k - 1) + Stages(R, roots, u[h..], k - 1)
  {
    var h, u := Exp2(k - 1), Stage(R, Forward, v, Exp2(k - 1), roots[k]);
    assert u == u[..h] + u[h..];
    WholeBlocks(k - 1, k - 1);
    StagesConcat(R, roots, u[..h], u[h..], k - 1);
  }

  lemma BitRevStep(j: nat, k: nat)
    requires k > 0
    ensures BitRev(j, k) == (if j % 2 == 0 then 0 else Exp2(k - 1)) + BitRev(j / 2, k - 1)
    ensures BitRev(j, k) < Exp2(k) && BitRev(j / 2, k - 1) < Exp2(k - 1)
  {
    BitRevBound(j, k);
    BitRevBound(j / 2, k - 1);
    assert j % 2 == 0 || j % 2 == 1;
  }

  /** After all forward stages, the value at the bit reversal of j is the evaluation at the j-th power of the root. */
  lemma {:induction false} StagesEvaluate<F(!new)>(R: Field<F>, roots: seq<F>, v: seq<F>, k: nat, j: nat)
    requires IsField(R) && RootTable(R, roots) && k < |roots| && |v| == Exp2(k) && j < Exp2(k)
    ensures BitRev(j, k) < Exp2(k)
    ensures Stages(R, roots, v, k)[BitRev(j, k)] == Ev(R, v, Pow(R, roots[k], j))
    decreases k
  {
    if k == 0 {
      assert v[1..] == [];
      MulZero(R, Pow(R, roots[0], j));
      assert Laws1(R, v[0]);
    } else {
      var h, w := Exp2(k - 1), roots[k];
      var u := Stage(R, Forward, v, h, w);
      StagesHalves(R, roots, v, k);
      BitRevStep(j, k);
      RootPowers(R, roots, k, j);
      if j % 2 == 0 {
        StagesEvaluate(R, roots, u[..h], k - 1, j / 2);
        EvenOutput(R, v, h, w, Pow(R, w, j));
        assert Stages(R, roots, v, k)[BitRev(j, k)] == Stages(R, roots, u[..h], k - 1)[BitRev(j / 2, k - 1)];
      } else {
        StagesEvaluate(R, roots, u[h..], k - 1, j / 2);
        OddOutput(R, v, h, w, Pow(R, roots[k - 1], j / 2));
        assert Stages(R, roots, v, k)[BitRev(j, k)] == Stages(R, roots, u[h..], k - 1)[BitRev(j / 2, k - 1)];
      }
    }
  }

  /** The forward transform computes the discrete Fourier transform, in bit-reversed order. */
  lemma NttIsDft<F(!new)>(R: Field<F>, roots: seq<F>, v: seq<F>, k: nat)
    requires IsField(R) && RootTable(R, roots) && k < |roots| && |v| == Exp2(k)
    ensures forall j: nat :: j < Exp2(k) ==>
      BitRev(j, k) < Exp2(k) && Stages(R, roots, v, k)[BitRev(j, k)] == Dft(R, v, roots[k], j)
  {
    forall j: nat | j < Exp2(k)
      ensures BitRev(j, k) < Exp2(k) && Stages(R, roots, v, k)[BitRev(j, k)] == Dft(R, v, roots[k], j)
    {
      StagesEvaluate(R, roots, v, k, j);
      DftIsEvaluation(R, v, roots[k], j);
    }
  }

  // ----- The inverse undoes the forward transform, up to the length -----

  lemma StageScaled<F(!new)>(R: Field<F>, v: seq<F>, s: nat, w: F, c: F)
    requires IsRing(R) && s > 0
    ensures Stage(R, Inverse, Scaled(R, c, v), s, w) == Scaled(R, c, Stage(R, Inverse, v, s, w))
  {
    var u := Scaled(R, c, v);
    forall t | 0 <= t < |v|
      ensures Stage(R, Inverse, u, s, w)[t] == R.mul(c, StageAt(R, Inverse, v, s, w, t))
    {
      var lo := if Low(t, s) then t else t - s;
      var x, y, p := At(R, v, lo), At(R, v, lo + s), Pow(R, w, Off(t, s));
      AtScaled(R, c, v, lo);
      AtScaled(R, c, v, lo + s);
      ScaledButterfly(R, c, x, y, p);
    }
  }

  lemma AtScaled<F(!new)>(R: Field<F>, c: F, v: seq<F>, i: int)
    requires IsRing(R)
    ensures At(R, Scaled(R, c, v), i) == R.mul(c, At(R, v, i))
  {
    MulZero(R, c);
  }

  lemma ScaledButterfly<F(!new)>(R: Field<F>, c: F, x: F, y: F, p: F)
    requires IsRing(R)
    ensures R.add(R.mul(c, x), R.mul(R.mul(c, y), p)) == R.mul(c, R.add(x, R.mul(y, p)))
    ensures R.sub(R.mul(c, x), R.mul(R.mul(c, y), p)) == R.mul(c, R.sub(x, R.mul(y, p)))
  {
    Ring(R, A(M(V(0), V(1)), M(M(V(0), V(2)), V(3))), M(V(0), A(V(1), M(V(2), V(3)))), [c, x, y, p]);
    Ring(R, S(M(V(0), V(1)), M(M(V(0), V(2)), V(3))), M(V(0), S(V(1), M(V(2), V(3)))), [c, x, y, p]);
  }

  lemma ButterflyUndone<F(!new)>(R: Field<F>, x: F, y: F, p: F, q: F)
    requires IsRing(R) && R.mul(p, q) == R.one
    ensures R.add(R.add(x, y), R.mul(R.mul(R.sub(x, y), p), q)) == R.mul(R.add(R.one, R.one), x)
    ensures R.sub(R.add(x, y), R.mul(R.mul(R.sub(x, y), p), q)) == R.mul(R.add(R.one, R.one), y)
  {
    assert Laws3(R, R.sub(x, y), p, q) && Laws1(R, R.sub(x, y));
    Ring(R, A(A(V(0), V(1)), S(V(0), V(1))), M(A(O, O), V(0)), [x, y]);
    Ring(R, S(A(V(0), V(1)), S(V(0), V(1))), M(A(O, O), V(1)), [x, y]);
  }

  /** Each inverse stage undoes its forward stage and doubles every value. */
  lemma StageUndone<F(!new)>(R: Field<F>, v: seq<F>, s: nat, w: F, winv: F)
    requires IsRing(R) && s > 0 && Whole(|v|, 2 * s) && R.mul(w, winv) == R.one
    ensures Stage(R, Inverse, Stage(R, Forward, v, s, w), s, winv) == Scaled(R, R.add(R.one, R.one), v)
  {
    var u := Stage(R, Forward, v, s, w);
    forall t | 0 <= t < |v| ensures StageAt(R, Inverse, u, s, winv, t) == R.mul(R.add(R.one, R.one), v[t]) {
      EntryUndone(R, v, s, w, winv, t);
    }
  }

  lemma EntryUndone<F(!new)>(R: Field<F>, v: seq<F>, s: nat, w: F, winv: F, t: nat)
    requires IsRing(R) && s > 0 && Whole(|v|, 2 * s) && R.mul(w, winv) == R.one && t < |v|
    ensures StageAt(R, Inverse, Stage(R, Forward, v, s, w), s, winv, t) == R.mul(R.add(R.one, R.one), v[t])
  {
    var lo := if Low(t, s) then t else t - s;
    LowPartner(t, s, |v|);
    PairUndone(R, v, s, w, winv, lo);
  }

  lemma LowPartner(t: nat, s: nat, n: nat)
    requires s > 0 && t < n && Whole(n, 2 * s)
    ensures var lo := if Low(t, s) then t else t - s;
      0 <= lo && lo + s < n && Low(lo, s) && !Low(lo + s, s) && Off(lo + s, s) == Off(lo, s)
  {
    var lo := if Low(t, s) then t else t - s;
    assert Low(lo, s) && Off(lo, s) == Off(t, s);
    PartnerInside(lo, s, n);
  }

  lemma PairUndone<F(!new)>(R: Field<F>, v: seq<F>, s: nat, w: F, winv: F, lo: nat)
    requires IsRing(R) && s > 0 && R.mul(w, winv) == R.one
    requires Low(lo, s) && !Low(lo + s, s) && Off(lo + s, s) == Off(lo, s) && lo + s < |v|
    ensures StageAt(R, Inverse, Stage(R, Forward, v, s, w), s, winv, lo) == R.mul(R.add(R.one, R.one), v[lo])
    ensures StageAt(R, Inverse, Stage(R, Forward, v, s, w), s, winv, lo + s) == R.mul(R.add(R.one, R.one), v[lo + s])
  {
    var u, o := Stage(R, Forward, v, s, w), Off(lo, s);
    var p, q := Pow(R, w, o), Pow(R, winv, o);
    assert u[lo] == R.add(v[lo], v[lo + s]) && u[lo + s] == R.mul(R.sub(v[lo], v[lo + s]), p);
    PowProduct(R, w, winv, o);
    PowOne(R, o);
    ButterflyUndone(R, v[lo], v[lo + s], p, q);
  }

  /** The scaled inverse of the forward transform is the input times its length, for every array. */
  lemma {:induction false} InverseOfNtt<F(!new)>(R: Field<F>, roots: seq<F>, inverses: seq<F>, v: seq<F>, k: nat)
    requires IsRing(R) && InverseTable(R, roots, inverses) && k < |roots| && Whole(|v|, Exp2(k))
    ensures Unstages(R, inverses, Stages(R, roots, v, k), k) == Scaled(R, Pow(R, R.add(R.one, R.one), k), v)
    decreases k
  {
    if k == 0 {
      forall i | 0 <= i < |v| ensures R.mul(R.one, v[i]) == v[i] {
        assert Laws2(R, R.one, v[i]) && Laws1(R, v[i]);
      }
    } else {
      var s, two := Exp2(k - 1), R.add(R.one, R.one);
      var u := Stage(R, Forward, v, s, roots[k]);
      WholeHalf(|v|, s);
      InverseOfNtt(R, roots, inverses, u, k - 1);
      var c := Pow(R, two, k - 1);
      StageScaled(R, u, s, inverses[k], c);
      StageUndone(R, v, s, roots[k], inverses[k]);
      forall i | 0 <= i < |v| ensures R.mul(c, R.mul(two, v[i])) == R.mul(R.mul(two, c), v[i]) {
        assert Laws3(R, c, two, v[i]) && Laws2(R, c, two);
      }
    }
  }

  // ----- Pointwise products are cyclic convolutions -----

  /** Entry d of a cyclic array of length |b|, for -|b| < d < |b|. */
  ghost function Cyclic<F>(R: Field<F>, b: seq<F>, d: int): F {
    if d < 0 then At(R, b, d + |b|) else At(R, b, d)
  }

  ghost function ConvTerms<F>(R: Field<F>, a: seq<F>, b: seq<F>, m: int): int -> F {
    (i: int) => R.mul(At(R, a, i), Cyclic(R, b, m - i))
  }

  /** Entry m is the sum of a_i * b_(m - i), with indices taken modulo the length. */
  ghost function Convolution<F>(R: Field<F>, a: seq<F>, b: seq<F>): (r: seq<F>)
    ensures |r| == |a|
  {
    seq(|a|, (m: nat) => Sum(R, |a|, ConvTerms(R, a, b, m)))
  }

  ghost function ShiftTerms<F>(R: Field<F>, b: seq<F>, i: nat, x: F): int -> F {
    (m: int) => R.mul(Cyclic(R, b, m - i), PowAt(R, x, m))
  }

  lemma ShiftTerm<F>(R: Field<F>, b: seq<F>, i: nat, x: F, m: nat)
    requires i <= |b| && m < |b|
    ensures ShiftTerms(R, b, i, x)(m) == R.mul(if m < i then b[m - i + |b|] else b[m - i], Pow(R, x, m))
  {
    assert Cyclic(R, b, m - i) == if m < i then b[m - i + |b|] else b[m - i];
  }

  /** Positions from i on hold b from its start. */
  lemma ShiftUnwrapped<F(!new)>(R: Field<F>, b: seq<F>, i: nat, x: F, m: nat)
    requires IsRing(R) && i + m < |b|
    ensures ShiftTerms(R, b, i, x)(i + m) == R.mul(Pow(R, x, i), Monomials(R, b, x)(m))
  {
    ShiftTerm(R, b, i, x, i + m);
    MonomialAt(R, b, x, m);
    ShiftedTerm(R, b[m], x, i, m);
  }

  /** Positions below i hold the end of b, wrapped around. */
  lemma ShiftWrapped<F(!new)>(R: Field<F>, b: seq<F>, i: nat, x: F, m: nat)
    requires IsRing(R) && m < i <= |b| && Pow(R, x, |b|) == R.one
    ensures ShiftTerms(R, b, i, x)(m) == R.mul(Pow(R, x, i), Monomials(R, b, x)(|b| - i + m))
  {
    ShiftTerm(R, b, i, x, m);
    MonomialAt(R, b, x, |b| - i + m);
    WrappedTerm(R, b[|b| - i + m], x, |b|, i, m);
  }

  lemma ShiftUnwrappedSum<F(!new)>(R: Field<F>, b: seq<F>, i: nat, x: F)
    requires IsRing(R) && i <= |b|
    ensures Sum(R, |b| - i, From(ShiftTerms(R, b, i, x), i)) == R.mul(Pow(R, x, i), Sum(R, |b| - i, Monomials(R, b, x)))
  {
    ScaledSum(R, |b| - i, b, i, x, Pow(R, x, i), Monomials(R, b, x), From(ShiftTerms(R, b, i, x), i));
  }

  lemma ScaledSum<F(!new)>(R: Field<F>, n: nat, b: seq<F>, i: nat, x: F, c: F, mono: int -> F, rest: int -> F)
    requires IsRing(R) && n + i == |b| && c == Pow(R, x, i)
    requires mono == Monomials(R, b, x) && rest == From(ShiftTerms(R, b, i, x), i)
    ensures Sum(R, n, rest) == R.mul(c, Sum(R, n, mono))
  {
    forall m {:trigger rest(m)} | 0 <= m < n ensures rest(m) == R.mul(c, mono(m)) {
      ShiftUnwrapped(R, b, i, x, m);
    }
    SumScale(R, n, c, mono, rest);
  }

  lemma ShiftWrappedSum<F(!new)>(R: Field<F>, b: seq<F>, i: nat, x: F)
    requires IsRing(R) && i <= |b| && Pow(R, x, |b|) == R.one
    ensures Sum(R, i, ShiftTerms(R, b, i, x)) == R.mul(Pow(R, x, i), Sum(R, i, From(Monomials(R, b, x), |b| - i)))
  {
    var g, upper := ShiftTerms(R, b, i, x), From(Monomials(R, b, x), |b| - i);
    forall m {:trigger g(m)} | 0 <= m < i ensures g(m) == R.mul(Pow(R, x, i), upper(m)) {
      ShiftWrapped(R, b, i, x, m);
    }
    SumScale(R, i, Pow(R, x, i), upper, g);
  }

  /** A cyclic shift by i multiplies the evaluation at a root of unity by its i-th power. */
  lemma CyclicShift<F(!new)>(R: Field<F>, b: seq<F>, i: nat, x: F)
    requires IsRing(R) && i < |b| && Pow(R, x, |b|) == R.one
    ensures Sum(R, |b|, ShiftTerms(R, b, i, x)) == R.mul(Pow(R, x, i), Ev(R, b, x))
  {
    ShiftUnwrappedSum(R, b, i, x);
    ShiftWrappedSum(R, b, i, x);
    EvIsSum(R, b, x);
    ShiftFromParts(R, |b|, i, Pow(R, x, i), ShiftTerms(R, b, i, x), Monomials(R, b, x));
  }

  lemma ShiftFromParts<F(!new)>(R: Field<F>, n: nat, i: nat, c: F, g: int -> F, mono: int -> F)
    requires IsRing(R) && i < n
    requires Sum(R, n - i, From(g, i)) == R.mul(c, Sum(R, n - i, mono))
    requires Sum(R, i, g) == R.mul(c, Sum(R, i, From(mono, n - i)))
    ensures Sum(R, n, g) == R.mul(c, Sum(R, n, mono))
  {
    SumSplitAt(R, n, i, g);
    SumSplitAt(R, n, n - i, mono);
    Regroup(R, c, Sum(R, n - i, mono), Sum(R, i, From(mono, n - i)));
  }

  lemma SumSplitAt<F(!new)>(R: Field<F>, n: nat, i: nat, g: int -> F)
    requires IsRing(R) && i <= n
    ensures Sum(R, n, g) == R.add(Sum(R, i, g), Sum(R, n - i, From(g, i)))
  {
    SumFrom(R, i, n - i, g);
  }

  ghost function From<F>(g: int -> F, start: int): int -> F {
    (m: int) => g(start + m)
  }

  lemma SumFrom<F(!new)>(R: Field<F>, m: nat, n: nat, g: int -> F)
    requires IsRing(R)
    ensures Sum(R, m + n, g) == R.add(Sum(R, m, g), Sum(R, n, From(g, m)))
  {
    SumSplit(R, m, n, g, From(g, m));
  }

  lemma Regroup<F(!new)>(R: Field<F>, x: F, p: F, q: F)
    requires IsRing(R)
    ensures R.add(R.mul(x, q), R.mul(x, p)) == R.mul(x, R.add(p, q))
  {
    assert Laws3(R, x, q, p) && Laws2(R, p, q);
  }

  lemma ConvTerm<F>(R: Field<F>, a: seq<F>, b: seq<F>, m: int, i: nat)
    requires i < |a| && -|b| <= m - i < |b|
    ensures ConvTerms(R, a, b, m)(i) == R.mul(a[i], Cyclic(R, b, m - i))
    ensures Cyclic(R, b, m - i) == if m < i then b[m - i + |b|] else b[m - i]
  {
    assert At(R, a, i) == a[i];
    assert Cyclic(R, b, m - i) == if m < i then b[m - i + |b|] else b[m - i];
  }

  lemma ShiftedTerm<F(!new)>(R: Field<F>, c: F, x: F, i: nat, m: nat)
    requires IsRing(R)
    ensures R.mul(c, Pow(R, x, i + m)) == R.mul(Pow(R, x, i), R.mul(c, Pow(R, x, m)))
  {
    PowAdd(R, x, i, m);
    MulSwap(R, c, Pow(R, x, i), Pow(R, x, m));
  }

  lemma WrappedTerm<F(!new)>(R: Field<F>, c: F, x: F, n: nat, i: nat, m: nat)
    requires IsRing(R) && i <= n && Pow(R, x, n) == R.one
    ensures R.mul(c, Pow(R, x, m)) == R.mul(Pow(R, x, i), R.mul(c, Pow(R, x, n - i + m)))
  {
    PowAdd(R, x, n, m);
    assert Laws2(R, R.one, Pow(R, x, m)) && Laws1(R, Pow(R, x, m));
    assert n + m == i + (n - i + m);
    ShiftedTerm(R, c, x, i, n - i + m);
  }

  /** The products x^m * (a_i * b_(m - i)), for a fixed m and for a fixed i. */
  ghost function Row<F>(R: Field<F>, a: seq<F>, b: seq<F>, x: F, m: int): int -> F {
    (i: int) => R.mul(PowAt(R, x, m), ConvTerms(R, a, b, m)(i))
  }

  ghost function Col<F>(R: Field<F>, a: seq<F>, b: seq<F>, x: F, i: int): int -> F {
    (m: int) => R.mul(PowAt(R, x, m), ConvTerms(R, a, b, m)(i))
  }

  /** Evaluation at an n-th root of unity turns cyclic convolution into a product. */
  lemma ConvolutionTheorem<F(!new)>(R: Field<F>, a: seq<F>, b: seq<F>, x: F)
    requires IsRing(R) && |a| == |b| && Pow(R, x, |a|) == R.one
    ensures Ev(R, Convolution(R, a, b), x) == R.mul(Ev(R, a, x), Ev(R, b, x))
  {
    var n, c := |a|, Convolution(R, a, b);
    var eb := Ev(R, b, x);
    var byOutput := (m: int) => Row(R, a, b, x, m);
    var byInput := (i: int) => Col(R, a, b, x, i);
    var outputs := Monomials(R, c, x);
    var inputs := (i: int) => R.mul(Monomials(R, a, x)(i), eb);
    EvIsSum(R, c, x);
    EvIsSum(R, a, x);
    forall m | 0 <= m < n ensures outputs(m) == Sum(R, n, byOutput(m)) {
      MonomialAt(R, c, x, m);
      SumScale(R, n, Pow(R, x, m), ConvTerms(R, a, b, m), Row(R, a, b, x, m));
      assert Laws2(R, c[m], Pow(R, x, m));
    }
    forall i | 0 <= i < n ensures inputs(i) == Sum(R, n, byInput(i)) {
      InputTerm(R, a, b, x, i);
    }
    SumSwap(R, n, n, byOutput, byInput, outputs, inputs);
    forall i | 0 <= i < n ensures inputs(i) == R.mul(eb, Monomials(R, a, x)(i)) {
      assert Laws2(R, eb, Monomials(R, a, x)(i));
    }
    SumScale(R, n, eb, Monomials(R, a, x), inputs);
    assert Laws2(R, eb, Ev(R, a, x));
  }

  lemma ColTerm<F(!new)>(R: Field<F>, a: seq<F>, b: seq<F>, x: F, i: nat, m: nat)
    requires IsRing(R) && |a| == |b| && i < |a| && m < |a|
    ensures Col(R, a, b, x, i)(m) == R.mul(a[i], ShiftTerms(R, b, i, x)(m))
  {
    ConvTerm(R, a, b, m, i);
    ShiftTerm(R, b, i, x, m);
    MulRotate(R, Pow(R, x, m), a[i], Cyclic(R, b, m - i));
  }

  lemma InputTerm<F(!new)>(R: Field<F>, a: seq<F>, b: seq<F>, x: F, i: nat)
    requires IsRing(R) && |a| == |b| && i < |a| && Pow(R, x, |a|) == R.one
    ensures Sum(R, |a|, Col(R, a, b, x, i)) == R.mul(Monomials(R, a, x)(i), Ev(R, b, x))
  {
    var g, shifted := Col(R, a, b, x, i), ShiftTerms(R, b, i, x);
    forall m {:trigger g(m)} | 0 <= m < |a| ensures g(m) == R.mul(a[i], shifted(m)) {
      ColTerm(R, a, b, x, i, m);
    }
    SumScale(R, |a|, a[i], shifted, g);
    CyclicShift(R, b, i, x);
    MonomialAt(R, a, x, i);
    assert Laws3(R, a[i], Pow(R, x, i), Ev(R, b, x));
  }

  lemma MulRotate<F(!new)>(R: Field<F>, p: F, a: F, b: F)
    requires IsRing(R)
    ensures R.mul(p, R.mul(a, b)) == R.mul(a, R.mul(b, p))
  {
    Ring(R, M(V(0), M(V(1), V(2))), M(V(1), M(V(2), V(0))), [p, a, b]);
  }

  /** A product in the transform domain is the transform of the cyclic convolution. */
  lemma PointwiseIsConvolution<F(!new)>(R: Field<F>, roots: seq<F>, a: seq<F>, b: seq<F>, k: nat)
    requires IsField(R) && RootTable(R, roots) && k < |roots| && |a| == |b| == Exp2(k)
    ensures MulSeq(R, Stages(R, roots, a, k), Stages(R, roots, b, k)) == Stages(R, roots, Convolution(R, a, b), k)
  {
    var c := Convolution(R, a, b);
    forall t | 0 <= t < Exp2(k)
      ensures R.mul(Stages(R, roots, a, k)[t], Stages(R, roots, b, k)[t]) == Stages(R, roots, c, k)[t]
    {
      var j := BitRev(t, k);
      BitRevBound(t, k);
      BitRevInvolution(t, k);
      StagesEvaluate(R, roots, a, k, j);
      StagesEvaluate(R, roots, b, k, j);
      StagesEvaluate(R, roots, c, k, j);
      FullTurn(R, roots, k, j);
      ConvolutionTheorem(R, a, b, Pow(R, roots[k], j));
    }
  }

  lemma FullTurn<F(!new)>(R: Field<F>, roots: seq<F>, k: nat, j: nat)
    requires IsField(R) && RootTable(R, roots) && k < |roots|
    ensures Pow(R, Pow(R, roots[k], j), Exp2(k)) == R.one
  {
    var x := Pow(R, roots[k], j);
    if k == 0 {
      PowOne(R, j);
      SquareIsPow(R, x);
    } else {
      RootPowers(R, roots, k, j);
      var y := Pow(R, x, Exp2(k - 1));
      PowMul(R, x, Exp2(k - 1), 2);
      SquareIsPow(R, y);
      MulNeg(R, R.neg(R.one), R.one);
      NegNeg(R, R.one);
      assert Laws1(R, R.one) && Laws1(R, R.neg(R.one));
    }
  }
}
