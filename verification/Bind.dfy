/**
 Dense sumcheck arrays (src/sumcheck/bind/mod.rs): binding one variable of a multilinear function given by its
 values, the table of `bindeq`, and the quadratic polynomial of one sumcheck round.
 */
module Bind {
  import opened Fields
  import opened Sums
  import opened Dots

  // ----- Constants of the field -----

  /** The third evaluation point and the inverses that the Lagrange basis uses. */
  datatype SumcheckConstants<F> = SumcheckConstants(
    largeCharacteristic: bool,
    p2: F,
    p2Inverse: F,
    oneMinusP2Inverse: F,
    p2SquaredMinusP2Inverse: F)

  ghost predicate GoodConstants<F>(R: Field<F>, K: SumcheckConstants<F>) {
    && R.mul(K.p2, K.p2Inverse) == R.one
    && R.mul(R.sub(R.one, K.p2), K.oneMinusP2Inverse) == R.one
    && R.mul(R.sub(R.mul(K.p2, K.p2), K.p2), K.p2SquaredMinusP2Inverse) == R.one
    && (K.largeCharacteristic ==> K.p2 == R.add(R.one, R.one))
  }

  function Lagrange0<F>(R: Field<F>, K: SumcheckConstants<F>, x: F): F {
    R.mul(R.mul(R.sub(x, R.one), R.sub(x, K.p2)), K.p2Inverse)
  }

  function Lagrange1<F>(R: Field<F>, K: SumcheckConstants<F>, x: F): F {
    R.mul(R.mul(R.sub(x, R.zero), R.sub(x, K.p2)), K.oneMinusP2Inverse)
  }

  function Lagrange2<F>(R: Field<F>, K: SumcheckConstants<F>, x: F): F {
    R.mul(R.mul(R.sub(x, R.zero), R.sub(x, R.one)), K.p2SquaredMinusP2Inverse)
  }

  // ----- Binding -----

  datatype Binding<F> = Zero | SumcheckP2 | Other(x: F)

  function Point<F>(R: Field<F>, K: SumcheckConstants<F>, b: Binding<F>): F {
    match b
    case Zero => R.zero
    case SumcheckP2 => K.p2
    case Other(x) => x
  }

  /** (1 - x) * A[2 * i] + x * A[2 * i + 1] */
  function BoundAt<F>(R: Field<F>, a: seq<F>, x: F, i: int): F {
    R.add(At(R, a, 2 * i), R.mul(x, R.sub(At(R, a, 2 * i + 1), At(R, a, 2 * i))))
  }

  function HalfLength(n: nat): nat {
    (n + 1) / 2
  }

  function BindSeq<F>(R: Field<F>, a: seq<F>, x: F): (b: seq<F>)
    ensures |b| == HalfLength(|a|) && forall i :: 0 <= i < |b| ==> b[i] == BoundAt(R, a, x, i)
  {
    seq(HalfLength(|a|), (i: nat) => BoundAt(R, a, x, i))
  }

  lemma BoundPastEnd<F(!new)>(R: Field<F>, a: seq<F>, x: F, i: int)
    requires IsRing(R)
    ensures At(R, BindSeq(R, a, x), i) == if i < 0 then R.zero else BoundAt(R, a, x, i)
  {
    if i >= HalfLength(|a|) {
      assert Laws1(R, R.zero);
      MulZero(R, x);
    }
  }

  lemma BoundAtPoints<F(!new)>(R: Field<F>, K: SumcheckConstants<F>, a: F, b: F)
    requires IsRing(R)
    ensures R.add(a, R.mul(R.zero, R.sub(b, a))) == a
    ensures R.add(a, R.mul(R.one, R.sub(b, a))) == b
    ensures R.add(a, R.mul(R.add(R.one, R.one), R.sub(b, a))) == R.sub(R.add(b, b), a)
  {
    Ring(R, A(V(0), M(Z, S(V(1), V(0)))), V(0), [a, b]);
    Ring(R, A(V(0), M(O, S(V(1), V(0)))), V(1), [a, b]);
    Ring(R, A(V(0), M(A(O, O), S(V(1), V(0)))), S(A(V(1), V(1)), V(0)), [a, b]);
  }

  /** `bound_element_at`: the three code paths all compute the bound element. */
  function BoundElementAt<F(!new)>(R: Field<F>, K: SumcheckConstants<F>, a: seq<F>, b: Binding<F>, i: nat): (v: F)
    ensures IsRing(R) && GoodConstants(R, K) ==> v == BoundAt(R, a, Point(R, K, b), i)
  {
    ghost var _ := BoundPaths(R, K, a, b, i);
    match b
    case Zero => At(R, a, 2 * i)
    case SumcheckP2 =>
      if K.largeCharacteristic then R.sub(R.add(At(R, a, 2 * i + 1), At(R, a, 2 * i + 1)), At(R, a, 2 * i))
        else BoundAt(R, a, K.p2, i)
    case Other(x) => BoundAt(R, a, x, i)
  }

  ghost function BoundPaths<F(!new)>(R: Field<F>, K: SumcheckConstants<F>, a: seq<F>, b: Binding<F>, i: nat): (u: ())
    ensures IsRing(R) && GoodConstants(R, K) && b.Zero? ==> At(R, a, 2 * i) == BoundAt(R, a, R.zero, i)
    ensures IsRing(R) && GoodConstants(R, K) && K.largeCharacteristic ==>
      R.sub(R.add(At(R, a, 2 * i + 1), At(R, a, 2 * i + 1)), At(R, a, 2 * i)) == BoundAt(R, a, K.p2, i)
  {
    if IsRing(R) then BoundAtPoints(R, K, At(R, a, 2 * i), At(R, a, 2 * i + 1)); () else ()
  }

  /** `bind`, which overwrites the front of the array with entries computed further back. */
  method BindInPlace<F(!new)>(R: Field<F>, K: SumcheckConstants<F>, a: seq<F>, b: Binding<F>) returns (r: seq<F>)
    requires IsRing(R) && GoodConstants(R, K) && |a| > 1
    ensures r == BindSeq(R, a, Point(R, K, b))
  {
    ghost var x := Point(R, K, b);
    r := a;
    var newLen := HalfLength(|a|);
    for index := 0 to newLen
      invariant |r| == |a| && forall i :: 0 <= i < index ==> r[i] == BoundAt(R, a, x, i)
      invariant forall i :: index <= i < |a| ==> r[i] == a[i]
    {
      assert At(R, r, 2 * index) == At(R, a, 2 * index) && At(R, r, 2 * index + 1) == At(R, a, 2 * index + 1);
      r := r[index := BoundElementAt(R, K, r, b, index)];
    }
    r := r[..newLen];
  }

  // ----- The table of bindeq -----

  /** Entry j is the product over the bits of j of x_i or 1 - x_i; bit 0 of j goes with the first x. */
  ghost function Eq<F>(R: Field<F>, xs: seq<F>): (t: seq<F>)
    ensures |t| == Exp2(|xs|)
  {
    if |xs| == 0 then [R.one] else Doubled(R, Eq(R, xs[1..]), xs[0])
  }

  ghost function DoubledAt<F>(R: Field<F>, t: seq<F>, x: F, j: int): F {
    if j % 2 == 0 then R.sub(At(R, t, j / 2), R.mul(x, At(R, t, j / 2))) else R.mul(x, At(R, t, j / 2))
  }

  ghost function Doubled<F>(R: Field<F>, t: seq<F>, x: F): (d: seq<F>)
    ensures |d| == 2 * |t| && forall j :: 0 <= j < |d| ==> d[j] == DoubledAt(R, t, x, j)
  {
    seq(2 * |t|, (j: nat) => DoubledAt(R, t, x, j))
  }

  /** One round of `bindeq_inner`: doubles the first n entries, from the last one down. */
  method DoubleInPlace<F(!new)>(R: Field<F>, bound: seq<F>, n: nat, x: F) returns (r: seq<F>)
    requires 2 * n <= |bound|
    ensures |r| == |bound| && r[..2 * n] == Doubled(R, bound[..n], x) && r[2 * n..] == bound[2 * n..]
  {
    r := bound;
    var j := n;
    while j > 0
      invariant 0 <= j <= n && |r| == |bound| && r[2 * n..] == bound[2 * n..]
      invariant forall i :: 0 <= i < j ==> r[i] == bound[i]
      invariant forall i :: 2 * j <= i < 2 * n ==> r[i] == DoubledAt(R, bound[..n], x, i)
    {
      j := j - 1;
      var t := R.mul(x, r[j]);
      r := r[2 * j := R.sub(r[j], t)];
      r := r[2 * j + 1 := t];
    }
  }

  /** `bindeq_inner` */
  method BindEqInner<F(!new)>(R: Field<F>, input: seq<F>) returns (bound: seq<F>)
    ensures bound == Eq(R, input)
  {
    bound := Zeros(R, Exp2(|input|))[0 := R.one];
    var n, i := 1, 0;
    assert input[|input|..] == [];
    assert bound[..n] == [R.one];
    while i < |input|
      invariant 0 <= i <= |input| && n == Exp2(i) <= Exp2(|input|) == |bound|
      invariant bound[..n] == Eq(R, input[|input| - i..])
    {
      ghost var rest := input[|input| - i..];
      var x := input[|input| - 1 - i];
      assert input[|input| - i - 1..] == [x] + rest;
      Exp2Grows(i + 1, |input|);
      bound := DoubleInPlace(R, bound, n, x);
      n, i := 2 * n, i + 1;
      assert ([x] + rest)[1..] == rest;
    }
    assert input[0..] == input;
  }

  lemma {:induction false} Exp2Grows(k: nat, n: nat)
    requires k <= n
    ensures Exp2(k) <= Exp2(n)
  {
    if k < n {
      Exp2Grows(k, n - 1);
    }
  }

  /** `bindeq`: the combined table for two bindings. */
  ghost function EqBoth<F>(R: Field<F>, xs: seq<F>, ys: seq<F>, scale: F): (t: seq<F>)
    requires |xs| == |ys|
    ensures |t| == Exp2(|xs|)
  {
    AddScaled(R, Eq(R, xs), scale, Eq(R, ys))
  }

  method BindEq<F(!new)>(R: Field<F>, xs: seq<F>, ys: seq<F>, scale: F) returns (t: seq<F>)
    requires |xs| == |ys|
    ensures t == EqBoth(R, xs, ys, scale)
  {
    t := BindEqInner(R, xs);
    var u := BindEqInner(R, ys);
    ghost var first := t;
    for i := 0 to |t|
      invariant |t| == |first| && forall j :: 0 <= j < i ==> t[j] == R.add(first[j], R.mul(scale, u[j]))
      invariant forall j :: i <= j < |t| ==> t[j] == first[j]
    {
      t := t[i := R.add(t[i], R.mul(scale, u[i]))];
    }
  }

  // ----- Binding all variables -----

  ghost function BindAll<F>(R: Field<F>, a: seq<F>, xs: seq<F>): seq<F>
    decreases |xs|
  {
    if |xs| == 0 then a else BindAll(R, BindSeq(R, a, xs[0]), xs[1..])
  }

  lemma {:induction false} BindAllNext<F>(R: Field<F>, a: seq<F>, xs: seq<F>, x: F)
    ensures BindAll(R, a, xs + [x]) == BindSeq(R, BindAll(R, a, xs), x)
    decreases |xs|
  {
    if |xs| == 0 {
      assert xs + [x] == [x] && [x][1..] == [];
    } else {
      BindAllNext(R, BindSeq(R, a, xs[0]), xs[1..], x);
      assert (xs + [x])[1..] == xs[1..] + [x];
    }
  }

  lemma EqStep<F(!new)>(R: Field<F>, t: seq<F>, x: F, v: seq<F>, u: seq<F>)
    requires IsRing(R) && u == Doubled(R, t, x)
    ensures Dot(R, u, v, 2 * |t|) == Dot(R, t, BindSeq(R, v, x), |t|)
  {
    var bound := BindSeq(R, v, x);
    forall k | 0 <= k < |t| ensures PairAt(R, t, x, v, u, bound, k) {
      DoubledPair(R, t, x, k);
      DotBindNext(R, t, x, v, k);
    }
    EqPairs(R, t, x, v, u, bound);
  }

  /** Entries 2k and 2k + 1 of u are the parts of t[k], and `bound` holds the bound entries of v. */
  ghost predicate PairAt<F>(R: Field<F>, t: seq<F>, x: F, v: seq<F>, u: seq<F>, bound: seq<F>, k: nat)
    requires k < |t|
  {
    && At(R, u, 2 * k) == R.sub(t[k], R.mul(x, t[k])) && At(R, u, 2 * k + 1) == R.mul(x, t[k])
    && Dot(R, t, bound, k + 1) == R.add(Dot(R, t, bound, k), R.mul(t[k], BoundAt(R, v, x, k)))
  }

  lemma EqPairs<F(!new)>(R: Field<F>, t: seq<F>, x: F, v: seq<F>, u: seq<F>, bound: seq<F>)
    requires IsRing(R) && forall k :: 0 <= k < |t| ==> PairAt(R, t, x, v, u, bound, k)
    ensures Dot(R, u, v, 2 * |t|) == Dot(R, t, bound, |t|)
  {
    var i := 0;
    for k := 0 to |t|
      invariant i == 2 * k && Dot(R, u, v, i) == Dot(R, t, bound, k)
    {
      assert PairAt(R, t, x, v, u, bound, k);
      EqNext(R, t, x, v, k, i, u, bound);
      i := i + 2;
    }
  }

  lemma DoubledPair<F>(R: Field<F>, t: seq<F>, x: F, k: nat)
    requires k < |t|
    ensures At(R, Doubled(R, t, x), 2 * k) == R.sub(t[k], R.mul(x, t[k]))
    ensures At(R, Doubled(R, t, x), 2 * k + 1) == R.mul(x, t[k])
  {
    assert 2 * k % 2 == 0 && 2 * k / 2 == k && (2 * k + 1) % 2 == 1 && (2 * k + 1) / 2 == k;
  }

  lemma EqNext<F(!new)>(R: Field<F>, t: seq<F>, x: F, v: seq<F>, k: nat, i: nat, u: seq<F>, bound: seq<F>)
    requires IsRing(R) && k < |t| && i == 2 * k && PairAt(R, t, x, v, u, bound, k)
      && Dot(R, u, v, i) == Dot(R, t, bound, k)
    ensures Dot(R, u, v, i + 2) == Dot(R, t, bound, k + 1)
  {
    DotTwo(R, u, v, i);
    EqPair(R, Dot(R, u, v, i), t[k], x, At(R, v, i), At(R, v, i + 1));
  }

  lemma DotBindNext<F(!new)>(R: Field<F>, t: seq<F>, x: F, v: seq<F>, k: nat)
    requires IsRing(R) && k < |t|
    ensures Dot(R, t, BindSeq(R, v, x), k + 1)
      == R.add(Dot(R, t, BindSeq(R, v, x), k), R.mul(t[k], BoundAt(R, v, x, k)))
  {
    BoundPastEnd(R, v, x, k);
  }

  lemma EqPair<F(!new)>(R: Field<F>, d: F, t: F, x: F, v: F, w: F)
    requires IsRing(R)
    ensures R.add(R.add(d, R.mul(R.sub(t, R.mul(x, t)), v)), R.mul(R.mul(x, t), w))
      == R.add(d, R.mul(t, R.add(v, R.mul(x, R.sub(w, v)))))
  {
    Ring(R, A(A(V(0), M(S(V(1), M(V(2), V(1))), V(3))), M(M(V(2), V(1)), V(4))),
      A(V(0), M(V(1), A(V(3), M(V(2), S(V(4), V(3)))))), [d, t, x, v, w]);
  }

  /** The inner product with the table of bindeq is the array bound to all the variables. */
  lemma {:induction false} EqBinds<F(!new)>(R: Field<F>, xs: seq<F>, v: seq<F>)
    requires IsRing(R)
    ensures Dot(R, Eq(R, xs), v, Exp2(|xs|)) == At(R, BindAll(R, v, xs), 0)
    decreases |xs|
  {
    if |xs| == 0 {
      assert Dot(R, [R.one], v, 1) == R.add(R.zero, R.mul(R.one, At(R, v, 0))) by {
        assert Dot(R, [R.one], v, 0) == R.zero;
      }
      Ring(R, A(Z, M(O, V(0))), V(0), [At(R, v, 0)]);
    } else {
      var rest := xs[1..];
      EqStep(R, Eq(R, rest), xs[0], v, Eq(R, xs));
      EqBinds(R, rest, BindSeq(R, v, xs[0]));
    }
  }

  // ----- The polynomial of a round -----

  /** The sum over i < m of the products of the bound entries. */
  ghost function PairDot<F>(R: Field<F>, a: seq<F>, v: seq<F>, x: F, m: nat): F {
    if m == 0 then R.zero
      else R.add(PairDot(R, a, v, x, m - 1), R.mul(BoundAt(R, a, x, m - 1), BoundAt(R, v, x, m - 1)))
  }

  lemma PairDotNext<F(!new)>(R: Field<F>, a: seq<F>, v: seq<F>, x: F, k: nat)
    requires IsRing(R) && PairDot(R, a, v, x, k) == Dot(R, BindSeq(R, a, x), BindSeq(R, v, x), k)
    ensures PairDot(R, a, v, x, k + 1) == Dot(R, BindSeq(R, a, x), BindSeq(R, v, x), k + 1)
  {
    BoundPastEnd(R, a, x, k);
    BoundPastEnd(R, v, x, k);
  }

  lemma {:induction false} PairDotIsDot<F(!new)>(R: Field<F>, a: seq<F>, v: seq<F>, x: F, m: nat)
    requires IsRing(R)
    ensures PairDot(R, a, v, x, m) == Dot(R, BindSeq(R, a, x), BindSeq(R, v, x), m)
    decreases m
  {
    if m > 0 {
      var k := m - 1;
      PairDotIsDot(R, a, v, x, k);
      PairDotNext(R, a, v, x, k);
      assert m == k + 1;
    }
  }

  lemma DotTwo<F>(R: Field<F>, a: seq<F>, v: seq<F>, i: nat)
    ensures Dot(R, a, v, i + 2)
      == R.add(R.add(Dot(R, a, v, i), R.mul(At(R, a, i), At(R, v, i))), R.mul(At(R, a, i + 1), At(R, v, i + 1)))
  {
    assert Dot(R, a, v, i + 1) == R.add(Dot(R, a, v, i), R.mul(At(R, a, i), At(R, v, i)));
  }

  lemma PairDotEnds<F(!new)>(R: Field<F>, K: SumcheckConstants<F>, a: seq<F>, v: seq<F>, k: nat)
    requires IsRing(R)
    ensures PairDot(R, a, v, R.zero, k + 1)
      == R.add(PairDot(R, a, v, R.zero, k), R.mul(At(R, a, 2 * k), At(R, v, 2 * k)))
    ensures PairDot(R, a, v, R.one, k + 1)
      == R.add(PairDot(R, a, v, R.one, k), R.mul(At(R, a, 2 * k + 1), At(R, v, 2 * k + 1)))
  {
    BoundAtPoints(R, K, At(R, a, 2 * k), At(R, a, 2 * k + 1));
    BoundAtPoints(R, K, At(R, v, 2 * k), At(R, v, 2 * k + 1));
  }

  lemma PairDotAdd<F(!new)>(R: Field<F>, e: F, o: F, p: F, q: F, d: F)
    requires IsRing(R) && R.add(e, o) == d
    ensures R.add(R.add(e, p), R.add(o, q)) == R.add(R.add(d, p), q)
  {
    AddSwap(R, e, o, p, q);
    assert Laws3(R, d, p, q);
  }

  /** p(0) + p(1) is the inner product of the unbound arrays. */
  lemma {:induction false} PairDotSum<F(!new)>(R: Field<F>, K: SumcheckConstants<F>, a: seq<F>, v: seq<F>, m: nat)
    requires IsRing(R)
    ensures R.add(PairDot(R, a, v, R.zero, m), PairDot(R, a, v, R.one, m)) == Dot(R, a, v, 2 * m)
    decreases m
  {
    if m == 0 {
      assert Laws1(R, R.zero);
    } else {
      var k := m - 1;
      PairDotSum(R, K, a, v, k);
      PairDotSumNext(R, K, a, v, k);
      assert m == k + 1 && 2 * m == 2 * k + 2;
    }
  }

  lemma PairDotSumNext<F(!new)>(R: Field<F>, K: SumcheckConstants<F>, a: seq<F>, v: seq<F>, k: nat)
    requires IsRing(R) && R.add(PairDot(R, a, v, R.zero, k), PairDot(R, a, v, R.one, k)) == Dot(R, a, v, 2 * k)
    ensures R.add(PairDot(R, a, v, R.zero, k + 1), PairDot(R, a, v, R.one, k + 1)) == Dot(R, a, v, 2 * k + 2)
  {
    PairDotEnds(R, K, a, v, k);
    DotTwo(R, a, v, 2 * k);
    var p, q := R.mul(At(R, a, 2 * k), At(R, v, 2 * k)), R.mul(At(R, a, 2 * k + 1), At(R, v, 2 * k + 1));
    PairDotAdd(R, PairDot(R, a, v, R.zero, k), PairDot(R, a, v, R.one, k), p, q, Dot(R, a, v, 2 * k));
  }

  /** The Lagrange basis reproduces 1, x and x^2. */
  lemma BasisOnMonomials<F(!new)>(R: Field<F>, K: SumcheckConstants<F>, x: F)
    requires IsRing(R) && GoodConstants(R, K)
    ensures var l0, l1, l2 := Lagrange0(R, K, x), Lagrange1(R, K, x), Lagrange2(R, K, x);
      && R.add(R.add(l0, l1), l2) == R.one
      && R.add(l1, R.mul(K.p2, l2)) == x
      && R.add(l1, R.mul(R.mul(K.p2, K.p2), l2)) == R.mul(x, x)
  {
    BasisInverses(R, K);
    InversesAdd(R, K.p2, K.p2Inverse, K.oneMinusP2Inverse);
    BasisOne(R, K.p2, K.p2Inverse, K.oneMinusP2Inverse, x);
    BasisX(R, K.p2, K.p2Inverse, K.oneMinusP2Inverse, x);
    BasisSquare(R, K.p2, K.oneMinusP2Inverse, x, Lagrange1(R, K, x), Lagrange2(R, K, x));
  }

  /** The third inverse is minus the product of the other two. */
  lemma BasisInverses<F(!new)>(R: Field<F>, K: SumcheckConstants<F>)
    requires IsRing(R) && GoodConstants(R, K)
    ensures K.p2SquaredMinusP2Inverse == R.neg(R.mul(K.p2Inverse, K.oneMinusP2Inverse))
  {
    var p, i, j, k := K.p2, K.p2Inverse, K.oneMinusP2Inverse, K.p2SquaredMinusP2Inverse;
    // k = ((p i) ((1 - p) j)) k = -(i j) ((p p - p) k)
    assert Laws1(R, R.one);
    Ring(R, M(M(M(V(0), V(1)), M(S(O, V(0)), V(2))), V(3)), M(N(M(V(1), V(2))), M(S(M(V(0), V(0)), V(0)), V(3))),
      [p, i, j, k]);
    assert Laws2(R, R.one, k) && Laws1(R, k) && Laws1(R, R.neg(R.mul(i, j)));
  }

  lemma BasisOne<F(!new)>(R: Field<F>, p: F, i: F, j: F, x: F)
    requires IsRing(R) && R.mul(p, i) == R.one && R.mul(R.sub(R.one, p), j) == R.one && R.mul(i, j) == R.add(i, j)
    ensures R.add(R.add(R.mul(R.mul(R.sub(x, R.one), R.sub(x, p)), i), R.mul(R.mul(R.sub(x, R.zero), R.sub(x, p)), j)),
      R.mul(R.mul(R.sub(x, R.zero), R.sub(x, R.one)), R.neg(R.mul(i, j)))) == R.one
  {
    BasisOneExpand(R, p, i, j, x);
    Ring(R, A(M(S(O, V(0)), O), M(V(0), O)), O, [x]);
  }

  lemma BasisOneExpand<F(!new)>(R: Field<F>, p: F, i: F, j: F, x: F)
    requires IsRing(R)
    ensures R.add(R.add(R.mul(R.mul(R.sub(x, R.one), R.sub(x, p)), i), R.mul(R.mul(R.sub(x, R.zero), R.sub(x, p)), j)),
      R.mul(R.mul(R.sub(x, R.zero), R.sub(x, R.one)), R.neg(R.add(i, j))))
      == R.add(R.mul(R.sub(R.one, x), R.mul(p, i)), R.mul(x, R.mul(R.sub(R.one, p), j)))
  {
    Ring(R,
      A(A(M(M(S(V(0), O), S(V(0), V(1))), V(2)), M(M(S(V(0), Z), S(V(0), V(1))), V(3))),
      M(M(S(V(0), Z), S(V(0), O)), N(A(V(2), V(3))))), A(M(S(O, V(0)), M(V(1), V(2))), M(V(0), M(S(O, V(1)), V(3)))),
      [x, p, i, j]);
  }

  lemma BasisX<F(!new)>(R: Field<F>, p: F, i: F, j: F, x: F)
    requires IsRing(R) && R.mul(p, i) == R.one && R.mul(R.sub(R.one, p), j) == R.one && R.mul(i, j) == R.add(i, j)
    ensures R.add(R.mul(R.mul(R.sub(x, R.zero), R.sub(x, p)), j),
      R.mul(p, R.mul(R.mul(R.sub(x, R.zero), R.sub(x, R.one)), R.neg(R.mul(i, j))))) == x
  {
    BasisXExpand(R, p, i, j, x);
    Ring(R, S(M(M(V(0), V(0)), O), M(M(V(0), S(V(0), O)), O)), V(0), [x]);
  }

  lemma BasisXExpand<F(!new)>(R: Field<F>, p: F, i: F, j: F, x: F)
    requires IsRing(R)
    ensures R.add(R.mul(R.mul(R.sub(x, R.zero), R.sub(x, p)), j),
      R.mul(p, R.mul(R.mul(R.sub(x, R.zero), R.sub(x, R.one)), R.neg(R.add(i, j)))))
      == R.sub(R.mul(R.mul(x, x), R.mul(R.sub(R.one, p), j)), R.mul(R.mul(x, R.sub(x, R.one)), R.mul(p, i)))
  {
    Ring(R, A(M(M(S(V(0), Z), S(V(0), V(1))), V(2)), M(V(1), M(M(S(V(0), Z), S(V(0), O)), N(A(V(3), V(2)))))),
      S(M(M(V(0), V(0)), M(S(O, V(1)), V(2))), M(M(V(0), S(V(0), O)), M(V(1), V(3)))), [x, p, j, i]);
  }

  lemma BasisSquare<F(!new)>(R: Field<F>, p: F, j: F, x: F, m: F, n: F)
    requires IsRing(R) && R.mul(R.sub(R.one, p), j) == R.one && m == R.mul(R.mul(R.sub(x, R.zero), R.sub(x, p)), j)
      && R.add(m, R.mul(p, n)) == x
    ensures R.add(m, R.mul(R.mul(p, p), n)) == R.mul(x, x)
  {
    var y := R.mul(R.sub(x, R.zero), R.sub(x, p));
    Ring(R, A(V(0), M(M(V(1), V(1)), V(2))), A(M(V(0), S(O, V(1))), M(V(1), A(V(0), M(V(1), V(2))))), [m, p, n]);
    assert R.mul(m, R.sub(R.one, p)) == y by {
      Ring(R, M(M(V(0), V(1)), S(O, V(2))), M(V(0), M(S(O, V(2)), V(1))), [y, j, p]);
      assert Laws1(R, y);
    }
    Ring(R, A(M(S(V(0), Z), S(V(0), V(1))), M(V(1), V(0))), M(V(0), V(0)), [x, p]);
  }

  lemma InversesAdd<F(!new)>(R: Field<F>, p: F, i: F, j: F)
    requires IsRing(R) && R.mul(p, i) == R.one && R.mul(R.sub(R.one, p), j) == R.one
    ensures R.mul(i, j) == R.add(i, j)
  {
    Ring(R, M(V(0), V(1)), A(M(V(0), M(S(O, V(2)), V(1))), M(V(1), M(V(2), V(0)))), [i, j, p]);
    assert Laws1(R, i) && Laws1(R, j);
  }

  /** A product of two linear functions is the combination of its values at 0, 1 and p2. */
  lemma BasisOnProduct<F(!new)>(R: Field<F>, K: SumcheckConstants<F>, x: F, a: F, d: F, v: F, e: F)
    requires IsRing(R) && GoodConstants(R, K)
    ensures R.mul(R.add(a, R.mul(x, d)), R.add(v, R.mul(x, e)))
      == R.add(R.add(R.mul(Lagrange0(R, K, x), R.mul(a, v)),
      R.mul(Lagrange1(R, K, x), R.mul(R.add(a, d), R.add(v, e)))),
      R.mul(Lagrange2(R, K, x), R.mul(R.add(a, R.mul(K.p2, d)), R.add(v, R.mul(K.p2, e)))))
  {
    BasisOnMonomials(R, K, x);
    BasisExpand(R, Lagrange0(R, K, x), Lagrange1(R, K, x), Lagrange2(R, K, x), K.p2, x, a, d, v, e);
  }

  lemma BasisExpand<F(!new)>(R: Field<F>, l: F, m: F, n: F, p: F, x: F, a: F, d: F, v: F, e: F)
    requires IsRing(R) && R.add(R.add(l, m), n) == R.one && R.add(m, R.mul(p, n)) == x
      && R.add(m, R.mul(R.mul(p, p), n)) == R.mul(x, x)
    ensures R.mul(R.add(a, R.mul(x, d)), R.add(v, R.mul(x, e)))
      == R.add(R.add(R.mul(l, R.mul(a, v)), R.mul(m, R.mul(R.add(a, d), R.add(v, e)))),
      R.mul(n, R.mul(R.add(a, R.mul(p, d)), R.add(v, R.mul(p, e)))))
  {
    var f, g, h := R.mul(a, v), R.add(R.mul(a, e), R.mul(d, v)), R.mul(d, e);
    ProductAt(R, x, a, d, v, e);
    ProductAt(R, p, a, d, v, e);
    ProductAtOne(R, a, d, v, e);
    BasisCollect(R, l, m, n, p, f, g, h);
    assert Laws2(R, R.one, f) && Laws1(R, f);
  }

  lemma ProductAt<F(!new)>(R: Field<F>, x: F, a: F, d: F, v: F, e: F)
    requires IsRing(R)
    ensures R.mul(R.add(a, R.mul(x, d)), R.add(v, R.mul(x, e)))
      == R.add(R.add(R.mul(a, v), R.mul(x, R.add(R.mul(a, e), R.mul(d, v)))), R.mul(R.mul(x, x), R.mul(d, e)))
  {
    Ring(R, M(A(V(0), M(V(1), V(2))), A(V(3), M(V(1), V(4)))),
      A(A(M(V(0), V(3)), M(V(1), A(M(V(0), V(4)), M(V(2), V(3))))), M(M(V(1), V(1)), M(V(2), V(4)))), [a, x, d, v, e]);
  }

  lemma ProductAtOne<F(!new)>(R: Field<F>, a: F, d: F, v: F, e: F)
    requires IsRing(R)
    ensures R.mul(R.add(a, d), R.add(v, e)) == R.add(R.add(R.mul(a, v), R.add(R.mul(a, e), R.mul(d, v))), R.mul(d, e))
  {
    Ring(R, M(A(V(0), V(1)), A(V(2), V(3))), A(A(M(V(0), V(2)), A(M(V(0), V(3)), M(V(1), V(2)))), M(V(1), V(3))),
      [a, d, v, e]);
  }

  lemma BasisCollect<F(!new)>(R: Field<F>, l: F, m: F, n: F, p: F, f: F, g: F, h: F)
    requires IsRing(R)
    ensures R.add(R.add(R.mul(l, f), R.mul(m, R.add(R.add(f, g), h))),
      R.mul(n, R.add(R.add(f, R.mul(p, g)), R.mul(R.mul(p, p), h))))
      == R.add(R.add(R.mul(R.add(R.add(l, m), n), f), R.mul(R.add(m, R.mul(p, n)), g)),
        R.mul(R.add(m, R.mul(R.mul(p, p), n)), h))
  {
    Ring(R,
      A(A(M(V(0), V(1)), M(V(2), A(A(V(1), V(3)), V(4)))), M(V(5), A(A(V(1), M(V(6), V(3))), M(M(V(6), V(6)), V(4))))),
      A(A(M(A(A(V(0), V(2)), V(5)), V(1)), M(A(V(2), M(V(6), V(5))), V(3))), M(A(V(2), M(M(V(6), V(6)), V(5))), V(4))),
      [l, f, m, g, h, n, p]);
  }

  /** p(x) from p(0), p(1) and p(p2). */
  lemma {:induction false} PairDotLagrange<F(!new)>(R: Field<F>, K: SumcheckConstants<F>, a: seq<F>, v: seq<F>, x: F,
                                                    m: nat)
    requires IsRing(R) && GoodConstants(R, K)
    ensures PairDot(R, a, v, x, m)
      == R.add(R.add(R.mul(Lagrange0(R, K, x), PairDot(R, a, v, R.zero, m)),
      R.mul(Lagrange1(R, K, x), PairDot(R, a, v, R.one, m))), R.mul(Lagrange2(R, K, x), PairDot(R, a, v, K.p2, m)))
    decreases m
  {
    var l0, l1, l2 := Lagrange0(R, K, x), Lagrange1(R, K, x), Lagrange2(R, K, x);
    if m == 0 {
      Ring(R, Z, A(A(M(V(0), Z), M(V(1), Z)), M(V(2), Z)), [l0, l1, l2]);
    } else {
      var k := m - 1;
      PairDotLagrange(R, K, a, v, x, k);
      LagrangeNext(R, K, a, v, x, k, PairDot(R, a, v, x, k), PairDot(R, a, v, R.zero, k), PairDot(R, a, v, R.one, k),
        PairDot(R, a, v, K.p2, k));
      assert m == k + 1;
    }
  }

  lemma LagrangeNext<F(!new)>(R: Field<F>, K: SumcheckConstants<F>, a: seq<F>, v: seq<F>, x: F, k: nat, s: F, s0: F,
                              s1: F, s2: F)
    requires IsRing(R) && GoodConstants(R, K)
    requires s
      == R.add(R.add(R.mul(Lagrange0(R, K, x), s0), R.mul(Lagrange1(R, K, x), s1)), R.mul(Lagrange2(R, K, x), s2))
    ensures R.add(s, R.mul(BoundAt(R, a, x, k), BoundAt(R, v, x, k)))
      == R.add(R.add(R.mul(Lagrange0(R, K, x), R.add(s0, R.mul(BoundAt(R, a, R.zero, k), BoundAt(R, v, R.zero, k)))),
        R.mul(Lagrange1(R, K, x), R.add(s1, R.mul(BoundAt(R, a, R.one, k), BoundAt(R, v, R.one, k))))),
        R.mul(Lagrange2(R, K, x), R.add(s2, R.mul(BoundAt(R, a, K.p2, k), BoundAt(R, v, K.p2, k)))))
  {
    var b, d := At(R, a, 2 * k), R.sub(At(R, a, 2 * k + 1), At(R, a, 2 * k));
    var c, e := At(R, v, 2 * k), R.sub(At(R, v, 2 * k + 1), At(R, v, 2 * k));
    BasisOnProduct(R, K, x, b, d, c, e);
    BoundAtPoints(R, K, b, At(R, a, 2 * k + 1));
    BoundAtPoints(R, K, c, At(R, v, 2 * k + 1));
    AddDifference(R, b, At(R, a, 2 * k + 1));
    AddDifference(R, c, At(R, v, 2 * k + 1));
    LagrangeAdd(R, Lagrange0(R, K, x), Lagrange1(R, K, x), Lagrange2(R, K, x), s0, s1, s2,
                R.mul(b, c), R.mul(At(R, a, 2 * k + 1), At(R, v, 2 * k + 1)),
                  R.mul(BoundAt(R, a, K.p2, k), BoundAt(R, v, K.p2, k)));
  }

  lemma AddDifference<F(!new)>(R: Field<F>, a: F, b: F)
    requires IsRing(R)
    ensures R.add(a, R.sub(b, a)) == b
  {
    Ring(R, A(V(0), S(V(1), V(0))), V(1), [a, b]);
  }

  lemma LagrangeAdd<F(!new)>(R: Field<F>, l: F, m: F, n: F, a: F, b: F, c: F, p: F, q: F, r: F)
    requires IsRing(R)
    ensures R.add(R.add(R.add(R.mul(l, a), R.mul(m, b)), R.mul(n, c)),
      R.add(R.add(R.mul(l, p), R.mul(m, q)), R.mul(n, r)))
      == R.add(R.add(R.mul(l, R.add(a, p)), R.mul(m, R.add(b, q))), R.mul(n, R.add(c, r)))
  {
    Ring(R, A(A(A(M(V(0), V(1)), M(V(2), V(3))), M(V(4), V(5))), A(A(M(V(0), V(6)), M(V(2), V(7))), M(V(4), V(8)))),
      A(A(M(V(0), A(V(1), V(6))), M(V(2), A(V(3), V(7)))), M(V(4), A(V(5), V(8)))), [l, a, m, b, n, c, p, q, r]);
  }
}
