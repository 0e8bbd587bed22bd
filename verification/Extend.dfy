/**
 The convolution-based Reed-Solomon extension of src/fields/extend_p.rs, for fields of large
 characteristic, and the proof that it computes polynomial interpolation.
 */
module Extend {
  import opened Fields
  import opened Sums
  import opened Polynomials
  import opened Ntt

  // ----- Binomial coefficients -----

  function Binom(n: nat, k: int): nat {
    if k < 0 then 0
    else if n == 0 then (if k == 0 then 1 else 0)
    else Binom(n - 1, k) + Binom(n - 1, k - 1)
  }

  /** (-1)^i * (d choose i) */
  function Signed(d: nat, i: int): int {
    if d == 0 then (if i == 0 then 1 else 0) else Signed(d - 1, i) - Signed(d - 1, i - 1)
  }

  function Sign(i: int): int {
    if i % 2 == 0 then 1 else -1
  }

  lemma {:induction false} SignedIsBinom(d: nat, i: int)
    ensures Signed(d, i) == Sign(i) * Binom(d, i)
  {
    if d > 0 {
      SignedIsBinom(d - 1, i);
      SignedIsBinom(d - 1, i - 1);
      assert Sign(i) == -Sign(i - 1);
      if i == 0 {
        assert Binom(d, 0) == Binom(d - 1, 0) + Binom(d - 1, -1);
      }
    }
  }

  lemma {:induction false} SignedOutside(d: nat, i: int)
    requires i < 0 || i > d
    ensures Signed(d, i) == 0 && Binom(d, i) == 0
  {
    if d > 0 {
      SignedOutside(d - 1, i);
      SignedOutside(d - 1, i - 1);
    }
  }

  lemma {:induction false} BinomTop(d: nat)
    ensures Binom(d, d) == 1 && Binom(d, 0) == 1
  {
    if d > 0 {
      BinomTop(d - 1);
      SignedOutside(d - 1, d);
      SignedOutside(d - 1, -1);
    }
  }

  /** (d - i) * C(d, i) == d * C(d - 1, i) */
  lemma {:induction false} Absorb(d: nat, i: int)
    requires d > 0
    ensures (d - i) * Signed(d, i) == d * Signed(d - 1, i)
    decreases d
  {
    if d > 1 {
      Absorb(d - 1, i);
      Absorb(d - 1, i - 1);
      AbsorbStep(d, i, Signed(d - 1, i), Signed(d - 1, i - 1), Signed(d - 2, i), Signed(d - 2, i - 1));
    }
  }

  lemma AbsorbStep(d: int, i: int, a: int, b: int, e: int, f: int)
    requires (d - 1 - i) * a == (d - 1) * e && (d - 1 - (i - 1)) * b == (d - 1) * f && a == e - f
    ensures (d - i) * (a - b) == d * a
  {
    assert (d - i) * (a - b) == (d - 1 - i) * a + a - (d - 1 - (i - 1)) * b;
    assert (d - 1) * e - (d - 1) * f == (d - 1) * (e - f);
  }

  lemma BinomAbsorb(d: nat, i: int)
    requires d > 0
    ensures (d - i) * Binom(d, i) == d * Binom(d - 1, i)
  {
    Absorb(d, i);
    SignedIsBinom(d, i);
    SignedIsBinom(d - 1, i);
    SameSign(Sign(i), d - i, Binom(d, i), d, Binom(d - 1, i));
  }

  lemma SameSign(s: int, a: int, b: int, c: int, e: int)
    requires (s == 1 || s == -1) && a * (s * b) == c * (s * e)
    ensures a * b == c * e
  {
    assert a * (s * b) == s * (a * b) && c * (s * e) == s * (c * e);
  }

  /** i * C(d, i) == d * C(d - 1, i - 1) == (d - i + 1) * C(d, i - 1) */
  lemma BinomRecurrences(d: nat, i: nat)
    requires d > 0 && i > 0
    ensures i * Binom(d, i) == d * Binom(d - 1, i - 1)
    ensures i * Binom(d, i) == (d - i + 1) * Binom(d, i - 1)
  {
    BinomAbsorb(d, i);
    BinomAbsorb(d, i - 1);
    var p, q := Binom(d - 1, i), Binom(d - 1, i - 1);
    assert Binom(d, i) == p + q;
    AddFactors(d, i, p, q);
  }

  lemma AddFactors(d: int, i: int, p: int, q: int)
    ensures (d - i) * (p + q) + i * (p + q) == d * p + d * q
  {
  }

  /** (k - d) * (k choose d), the coefficient the source applies after the convolution, up to sign. */
  function After(k: nat, d: nat): int {
    (k - d) * Binom(k, d)
  }

  lemma AfterRecurrences(k: nat, d: nat)
    requires 0 < d < k
    ensures d * After(k, d) == (k - d) * After(k, d - 1)
    ensures d * After(k, d) == k * After(k - 1, d - 1)
  {
    BinomRecurrences(k, d);
    var m, b, c, e := k - d, Binom(k, d), Binom(k, d - 1), Binom(k - 1, d - 1);
    SwapFactors(d, m, b);
    assert After(k, d - 1) == (m + 1) * c && d * b == (m + 1) * c;
    SwapFactors(k, m, e);
    assert After(k - 1, d - 1) == m * e && d * b == k * e;
  }

  lemma SwapFactors(a: int, b: int, c: int)
    ensures a * (b * c) == b * (a * c)
  {
  }

  // ----- Integers in the field -----

  ghost predicate Invertible<F>(R: Field<F>, i: int) {
    FromInt(R, i) != R.zero
  }

  /** The integers 1..n are not zero in the field. */
  ghost predicate LargeCharacteristic<F>(R: Field<F>, n: nat) {
    forall i :: 0 < i <= n ==> Invertible(R, i)
  }

  ghost function Points<F>(R: Field<F>, n: nat): (pts: seq<F>)
    ensures |pts| == n
  {
    seq(n, (i: nat) => FromInt(R, i))
  }

  lemma FromIntSub<F(!new)>(R: Field<F>, a: int, b: int)
    requires IsRing(R)
    ensures FromInt(R, a - b) == R.sub(FromInt(R, a), FromInt(R, b))
  {
    FromIntAdd(R, a - b, b);
    AddThenSub(R, FromInt(R, a - b), FromInt(R, b));
  }

  lemma AddThenSub<F(!new)>(R: Field<F>, a: F, b: F)
    requires IsRing(R)
    ensures R.sub(R.add(a, b), b) == a
  {
    Ring(R, S(A(V(0), V(1)), V(1)), V(0), [a, b]);
  }

  lemma PointsDistinct<F(!new)>(R: Field<F>, n: nat)
    requires IsRing(R) && LargeCharacteristic(R, n)
    ensures Distinct(Points(R, n))
  {
    forall i, j | 0 <= i < j < n ensures FromInt(R, i) != FromInt(R, j) {
      assert Invertible(R, j - i);
      FromIntSub(R, j, i);
      SubZero(R, FromInt(R, j), FromInt(R, i));
    }
  }

  // ----- Alternating binomial sums -----

  ghost function SignedIn<F>(R: Field<F>, d: nat, i: int): F {
    FromInt(R, Signed(d, i))
  }

  ghost function AltTerms<F>(R: Field<F>, d: nat, g: int -> F): int -> F {
    (i: int) => R.mul(SignedIn(R, d, i), g(i))
  }

  /** The sum of (-1)^i * (d choose i) * g(i) over 0 <= i <= d. */
  ghost function Alt<F>(R: Field<F>, d: nat, g: int -> F): F {
    Sum(R, d + 1, AltTerms(R, d, g))
  }

  lemma SignedInOutside<F(!new)>(R: Field<F>, d: nat, i: int, x: F)
    requires IsRing(R) && (i < 0 || i > d)
    ensures R.mul(SignedIn(R, d, i), x) == R.zero
  {
    SignedOutside(d, i);
    MulZero(R, x);
  }

  lemma PascalTerm<F(!new)>(R: Field<F>, d: nat, i: int, x: F)
    requires IsRing(R) && d > 0
    ensures R.mul(SignedIn(R, d, i), x) == R.sub(R.mul(SignedIn(R, d - 1, i), x), R.mul(SignedIn(R, d - 1, i - 1), x))
  {
    FromIntSub(R, Signed(d - 1, i), Signed(d - 1, i - 1));
    SubTimes(R, SignedIn(R, d - 1, i), SignedIn(R, d - 1, i - 1), x);
  }

  lemma SubTimes<F(!new)>(R: Field<F>, a: F, b: F, x: F)
    requires IsRing(R)
    ensures R.mul(R.sub(a, b), x) == R.sub(R.mul(a, x), R.mul(b, x))
  {
    Ring(R, M(S(V(0), V(1)), V(2)), S(M(V(0), V(2)), M(V(1), V(2))), [a, b, x]);
  }

  ghost function Lagging<F>(R: Field<F>, d: nat, g: int -> F): int -> F {
    (i: int) => R.mul(SignedIn(R, d, i - 1), g(i))
  }

  /** Pascal's rule: h is g one step later. */
  lemma AltPascal<F(!new)>(R: Field<F>, d: nat, g: int -> F, h: int -> F)
    requires IsRing(R) && d > 0
    requires forall i {:trigger h(i)} :: 0 <= i < d ==> h(i) == g(i + 1)
    ensures Alt(R, d, g) == R.sub(Alt(R, d - 1, g), Alt(R, d - 1, h))
  {
    PascalTerms(R, d, g);
    AltWider(R, d, g);
    LaggingSum(R, d, g, h);
  }

  lemma PascalTerms<F(!new)>(R: Field<F>, d: nat, g: int -> F)
    requires IsRing(R) && d > 0
    ensures Alt(R, d, g) == R.sub(Sum(R, d + 1, AltTerms(R, d - 1, g)), Sum(R, d + 1, Lagging(R, d - 1, g)))
  {
    var whole, front, lag := AltTerms(R, d, g), AltTerms(R, d - 1, g), Lagging(R, d - 1, g);
    forall i {:trigger whole(i)} | 0 <= i < d + 1 ensures whole(i) == R.sub(front(i), lag(i)) {
      PascalTerm(R, d, i, g(i));
    }
    SumSub(R, d + 1, front, lag, whole);
  }

  lemma LaggingSum<F(!new)>(R: Field<F>, d: nat, g: int -> F, h: int -> F)
    requires IsRing(R) && d > 0
    requires forall i {:trigger h(i)} :: 0 <= i < d ==> h(i) == g(i + 1)
    ensures Sum(R, d + 1, Lagging(R, d - 1, g)) == Alt(R, d - 1, h)
  {
    var lag := Lagging(R, d - 1, g);
    LaggingSplit(R, d, g, h);
    LaggingFirst(R, d, g);
    assert Laws2(R, R.zero, Alt(R, d - 1, h)) && Laws1(R, Alt(R, d - 1, h));
  }

  lemma LaggingSplit<F(!new)>(R: Field<F>, d: nat, g: int -> F, h: int -> F)
    requires IsRing(R) && d > 0
    requires forall i {:trigger h(i)} :: 0 <= i < d ==> h(i) == g(i + 1)
    ensures Sum(R, 1 + d, Lagging(R, d - 1, g)) == R.add(Sum(R, 1, Lagging(R, d - 1, g)), Alt(R, d - 1, h))
  {
    var lag, terms := Lagging(R, d - 1, g), AltTerms(R, d - 1, h);
    forall i {:trigger terms(i)} | 0 <= i < d ensures terms(i) == lag(1 + i) {
    }
    SumSplit(R, 1, d, lag, terms);
  }

  lemma LaggingFirst<F(!new)>(R: Field<F>, d: nat, g: int -> F)
    requires IsRing(R) && d > 0
    ensures Sum(R, 1, Lagging(R, d - 1, g)) == R.zero
  {
    var lag := Lagging(R, d - 1, g);
    SignedInOutside(R, d - 1, -1, g(0));
    assert Sum(R, 1, lag) == R.add(Sum(R, 0, lag), lag(0));
    assert Laws1(R, R.zero);
  }

  lemma AltCong<F>(R: Field<F>, d: nat, g: int -> F, h: int -> F)
    requires forall i {:trigger g(i)} :: 0 <= i <= d ==> g(i) == h(i)
    ensures Alt(R, d, g) == Alt(R, d, h)
  {
    forall i | 0 <= i < d + 1 ensures AltTerms(R, d, g)(i) == AltTerms(R, d, h)(i) {
    }
    SumCong(R, d + 1, AltTerms(R, d, g), AltTerms(R, d, h));
  }

  lemma AltConstant<F(!new)>(R: Field<F>, d: nat, g: int -> F, c: F)
    requires IsRing(R) && d > 0
    requires forall i {:trigger g(i)} :: 0 <= i <= d ==> g(i) == c
    ensures Alt(R, d, g) == R.zero
  {
    var constant := Constant(c);
    AltCong(R, d, g, constant);
    AltPascal(R, d, constant, constant);
    assert Laws1(R, Alt(R, d - 1, constant));
  }

  // ----- The interpolation formula -----

  ghost function ValueAt<F>(R: Field<F>, q: seq<F>, i: int): F {
    Ev(R, q, FromInt(R, i))
  }

  ghost function Values<F>(R: Field<F>, q: seq<F>): int -> F {
    (i: int) => ValueAt(R, q, i)
  }

  /** One term of an alternating sum of values of q, split at the point d. */
  lemma LowDegreeTerm<F(!new)>(R: Field<F>, d: nat, q: seq<F>, i: int)
    requires IsRing(R) && d > 0
    ensures var r := Quotient(R, q, FromInt(R, d));
      R.mul(SignedIn(R, d, i), ValueAt(R, q, i))
        == R.sub(R.mul(SignedIn(R, d, i), ValueAt(R, q, d)),
          R.mul(FromInt(R, d), R.mul(SignedIn(R, d - 1, i), ValueAt(R, r, i))))
  {
    var r, x, p := Quotient(R, q, FromInt(R, d)), FromInt(R, i), FromInt(R, d);
    var s, t := SignedIn(R, d, i), SignedIn(R, d - 1, i);
    QuotientLaw(R, q, p, x);
    FromIntSub(R, d, i);
    FromIntMul(R, d - i, Signed(d, i));
    FromIntMul(R, d, Signed(d - 1, i));
    Absorb(d, i);
    assert R.mul(R.sub(p, x), s) == R.mul(p, t);
    SplitTerm(R, s, t, ValueAt(R, q, d), x, p, ValueAt(R, r, i));
  }

  lemma SplitTerm<F(!new)>(R: Field<F>, s: F, t: F, v: F, x: F, p: F, w: F)
    requires IsRing(R) && R.mul(R.sub(p, x), s) == R.mul(p, t)
    ensures R.mul(s, R.add(v, R.mul(R.sub(x, p), w))) == R.sub(R.mul(s, v), R.mul(p, R.mul(t, w)))
  {
    Ring(R, M(V(0), A(V(1), M(S(V(2), V(3)), V(4)))), S(M(V(0), V(1)), M(M(S(V(3), V(2)), V(0)), V(4))),
      [s, v, x, p, w]);
    assert Laws3(R, p, t, w);
  }

  /** The alternating sum of order d kills every polynomial with at most d coefficients. */
  lemma {:induction false} AltLowDegree<F(!new)>(R: Field<F>, d: nat, q: seq<F>)
    requires IsRing(R) && |q| <= d
    ensures Alt(R, d, Values(R, q)) == R.zero
    decreases d
  {
    if |q| == 0 {
      forall i | 0 <= i < d + 1 ensures AltTerms(R, d, Values(R, q))(i) == R.zero {
        assert ValueAt(R, q, i) == R.zero;
        MulZero(R, SignedIn(R, d, i));
      }
      SumZero(R, d + 1, AltTerms(R, d, Values(R, q)));
    } else {
      var p := FromInt(R, d);
      var r := Quotient(R, q, p);
      AltLowDegree(R, d - 1, r);
      LowDegreeSum(R, d, q, r);
    }
  }

  ghost function Times<F>(R: Field<F>, c: F, g: int -> F): int -> F {
    (i: int) => R.mul(c, g(i))
  }

  lemma LowDegreeSum<F(!new)>(R: Field<F>, d: nat, q: seq<F>, r: seq<F>)
    requires IsRing(R) && d > 0 && r == Quotient(R, q, FromInt(R, d)) && Alt(R, d - 1, Values(R, r)) == R.zero
    ensures Alt(R, d, Values(R, q)) == R.zero
  {
    var p, constant, inner := FromInt(R, d), Constant(ValueAt(R, q, d)), AltTerms(R, d - 1, Values(R, r));
    LowDegreeTerms(R, d, q, r);
    AltConstant(R, d, constant, ValueAt(R, q, d));
    TimesSum(R, d + 1, p, inner);
    AltWider(R, d, Values(R, r));
    MulZero(R, p);
    assert Laws1(R, R.zero);
  }

  ghost function Constant<F>(c: F): int -> F {
    (i: int) => c
  }

  lemma TimesSum<F(!new)>(R: Field<F>, n: nat, c: F, g: int -> F)
    requires IsRing(R)
    ensures Sum(R, n, Times(R, c, g)) == R.mul(c, Sum(R, n, g))
  {
    SumScale(R, n, c, g, Times(R, c, g));
  }

  lemma LowDegreeTerms<F(!new)>(R: Field<F>, d: nat, q: seq<F>, r: seq<F>)
    requires IsRing(R) && d > 0 && r == Quotient(R, q, FromInt(R, d))
    ensures Alt(R, d, Values(R, q))
      == R.sub(Alt(R, d, Constant(ValueAt(R, q, d))),
        Sum(R, d + 1, Times(R, FromInt(R, d), AltTerms(R, d - 1, Values(R, r)))))
  {
    var whole, first := AltTerms(R, d, Values(R, q)), AltTerms(R, d, Constant(ValueAt(R, q, d)));
    var second := Times(R, FromInt(R, d), AltTerms(R, d - 1, Values(R, r)));
    forall i {:trigger whole(i)} | 0 <= i < d + 1 ensures whole(i) == R.sub(first(i), second(i)) {
      LowDegreeTerm(R, d, q, i);
    }
    SumSub(R, d + 1, first, second, whole);
  }

  /** The summand of order d - 1 at index d is zero. */
  lemma AltWider<F(!new)>(R: Field<F>, d: nat, g: int -> F)
    requires IsRing(R) && d > 0
    ensures Sum(R, d + 1, AltTerms(R, d - 1, g)) == Alt(R, d - 1, g)
  {
    SignedInOutside(R, d - 1, d, g(d));
    assert Laws1(R, Alt(R, d - 1, g));
  }

  /** g(i) is the reciprocal of k - i. */
  ghost predicate Reciprocal<F>(R: Field<F>, g: int -> F, k: int, i: int) {
    R.mul(g(i), FromInt(R, k - i)) == R.one
  }

  /** Partial fractions: the alternating sum of the reciprocals is the reciprocal of the coefficient. */
  lemma {:induction false} AltReciprocals<F(!new)>(R: Field<F>, d: nat, k: nat, g: int -> F)
    requires IsField(R) && d < k && LargeCharacteristic(R, k)
    requires forall i :: 0 <= i <= d ==> Reciprocal(R, g, k, i)
    ensures R.mul(FromInt(R, After(k, d)), Alt(R, d, g)) == FromInt(R, Sign(d))
    decreases d
  {
    if d == 0 {
      assert Reciprocal(R, g, k, 0);
      assert Sum(R, 1, AltTerms(R, 0, g)) == R.add(Sum(R, 0, AltTerms(R, 0, g)), R.mul(SignedIn(R, 0, 0), g(0)));
      BinomTop(k);
      FirstReciprocal(R, g(0), FromInt(R, k));
    } else {
      var h := From(g, 1);
      forall i {:trigger Reciprocal(R, h, k - 1, i)} | 0 <= i <= d - 1 ensures Reciprocal(R, h, k - 1, i) {
        assert Reciprocal(R, g, k, i + 1);
      }
      AltReciprocals(R, d - 1, k, g);
      AltReciprocals(R, d - 1, k - 1, h);
      AltPascal(R, d, g, h);
      ReciprocalStep(R, d, k, Alt(R, d - 1, g), Alt(R, d - 1, h));
    }
  }

  lemma FirstReciprocal<F(!new)>(R: Field<F>, g: F, k: F)
    requires IsRing(R) && R.mul(g, k) == R.one
    ensures FromInt(R, 1) == R.one && R.mul(k, R.add(R.zero, R.mul(FromInt(R, 1), g))) == FromInt(R, 1)
  {
    assert Laws2(R, R.zero, R.one) && Laws1(R, R.one);
    Ring(R, M(V(0), A(Z, M(O, V(1)))), M(V(1), V(0)), [k, g]);
  }

  lemma ReciprocalStep<F(!new)>(R: Field<F>, d: nat, k: nat, a: F, b: F)
    requires IsField(R) && 0 < d < k && LargeCharacteristic(R, k)
    requires R.mul(FromInt(R, After(k, d - 1)), a) == FromInt(R, Sign(d - 1))
    requires R.mul(FromInt(R, After(k - 1, d - 1)), b) == FromInt(R, Sign(d - 1))
    ensures R.mul(FromInt(R, After(k, d)), R.sub(a, b)) == FromInt(R, Sign(d))
  {
    AfterRecurrences(k, d);
    FromIntMul(R, d, After(k, d));
    FromIntMul(R, k - d, After(k, d - 1));
    FromIntMul(R, k, After(k - 1, d - 1));
    FromIntSub(R, k, d);
    assert Sign(d) == -Sign(d - 1);
    assert FromInt(R, Sign(d)) == R.neg(FromInt(R, Sign(d - 1))) by {
      FromIntSub(R, 0, Sign(d - 1));
      ZeroMinus(R, FromInt(R, Sign(d - 1)));
    }
    assert Invertible(R, d);
    ReciprocalAlgebra(R, FromInt(R, d), FromInt(R, k), FromInt(R, After(k, d)), FromInt(R, After(k, d - 1)),
                      FromInt(R, After(k - 1, d - 1)), a, b, FromInt(R, Sign(d - 1)));
  }

  lemma ZeroMinus<F(!new)>(R: Field<F>, a: F)
    requires IsRing(R)
    ensures R.sub(R.zero, a) == R.neg(a)
  {
    Ring(R, S(Z, V(0)), N(V(0)), [a]);
  }

  lemma ReciprocalAlgebra<F(!new)>(R: Field<F>, d: F, k: F, e: F, e1: F, e2: F, a: F, b: F, s: F)
    requires IsField(R) && d != R.zero
    requires R.mul(d, e) == R.mul(R.sub(k, d), e1) && R.mul(d, e) == R.mul(k, e2) && R.mul(e1, a) == s
      && R.mul(e2, b) == s
    ensures R.mul(e, R.sub(a, b)) == R.neg(s)
  {
    Ring(R, M(V(0), M(V(1), S(V(2), V(3)))), S(M(M(V(0), V(1)), V(2)), M(M(V(0), V(1)), V(3))), [d, e, a, b]);
    assert Laws3(R, R.sub(k, d), e1, a) && Laws3(R, k, e2, b);
    Ring(R, S(M(S(V(0), V(1)), V(2)), M(V(0), V(2))), M(V(1), N(V(2))), [k, d, s]);
    CancelFactor(R, d, R.mul(e, R.sub(a, b)), R.neg(s));
  }

  lemma CancelFactor<F(!new)>(R: Field<F>, d: F, a: F, b: F)
    requires IsField(R) && d != R.zero && R.mul(d, a) == R.mul(d, b)
    ensures a == b
  {
    Ring(R, M(V(0), S(V(1), V(2))), S(M(V(0), V(1)), M(V(0), V(2))), [d, a, b]);
    SubZero(R, R.mul(d, a), R.mul(d, b));
    NoZeroDivisors(R, d, R.sub(a, b));
    SubZero(R, a, b);
  }

  ghost function Weighted<F>(R: Field<F>, q: seq<F>, g: int -> F): int -> F {
    (i: int) => R.mul(ValueAt(R, q, i), g(i))
  }

  /** A value of q over its distance from k, split at the point k. */
  lemma WeightedTerm<F(!new)>(R: Field<F>, q: seq<F>, k: nat, g: int -> F, i: int)
    requires IsRing(R) && Reciprocal(R, g, k, i)
    ensures Weighted(R, q, g)(i) == R.sub(R.mul(ValueAt(R, q, k), g(i)), ValueAt(R, Quotient(R, q, FromInt(R, k)), i))
  {
    var x, p := FromInt(R, i), FromInt(R, k);
    QuotientLaw(R, q, p, x);
    FromIntSub(R, k, i);
    SplitWeighted(R, ValueAt(R, q, k), x, p, ValueAt(R, Quotient(R, q, p), i), g(i));
  }

  lemma SplitWeighted<F(!new)>(R: Field<F>, v: F, x: F, p: F, w: F, g: F)
    requires IsRing(R) && R.mul(g, R.sub(p, x)) == R.one
    ensures R.mul(R.add(v, R.mul(R.sub(x, p), w)), g) == R.sub(R.mul(v, g), w)
  {
    Ring(R, M(A(V(0), M(S(V(1), V(2)), V(3))), V(4)), S(M(V(0), V(4)), M(M(V(4), S(V(2), V(1))), V(3))),
      [v, x, p, w, g]);
    assert Laws2(R, R.one, w) && Laws1(R, w);
  }

  lemma WeightedSum<F(!new)>(R: Field<F>, q: seq<F>, d: nat, k: nat, g: int -> F)
    requires IsRing(R) && |q| <= d + 1
    requires forall i :: 0 <= i <= d ==> Reciprocal(R, g, k, i)
    ensures Alt(R, d, Weighted(R, q, g)) == R.mul(ValueAt(R, q, k), Alt(R, d, g))
  {
    var r, v := Quotient(R, q, FromInt(R, k)), ValueAt(R, q, k);
    var whole, first, second :=
      AltTerms(R, d, Weighted(R, q, g)), Times(R, v, AltTerms(R, d, g)), AltTerms(R, d, Values(R, r));
    forall i {:trigger whole(i)} | 0 <= i < d + 1 ensures whole(i) == R.sub(first(i), second(i)) {
      assert Reciprocal(R, g, k, i);
      WeightedTerm(R, q, k, g, i);
      Distribute(R, SignedIn(R, d, i), v, g(i), ValueAt(R, r, i));
    }
    SumSub(R, d + 1, first, second, whole);
    SumScale(R, d + 1, v, AltTerms(R, d, g), first);
    AltLowDegree(R, d, r);
    MinusZero(R, R.mul(v, Alt(R, d, g)));
  }

  lemma Distribute<F(!new)>(R: Field<F>, s: F, v: F, g: F, w: F)
    requires IsRing(R)
    ensures R.mul(s, R.sub(R.mul(v, g), w)) == R.sub(R.mul(v, R.mul(s, g)), R.mul(s, w))
  {
    Ring(R, M(V(0), S(M(V(1), V(2)), V(3))), S(M(V(1), M(V(0), V(2))), M(V(0), V(3))), [s, v, g, w]);
  }

  lemma MinusZero<F(!new)>(R: Field<F>, a: F)
    requires IsRing(R)
    ensures R.sub(a, R.zero) == a
  {
    Ring(R, S(V(0), Z), V(0), [a]);
  }

  /**
   Equation (2) of "Anonymous Credentials from ECDSA": for a polynomial q with at most d + 1 coefficients and k > d,
   (-1)^d (k - d) (k choose d) times the alternating sum of q(i) / (k - i) is q(k).
   */
  lemma InterpolationFormula<F(!new)>(R: Field<F>, q: seq<F>, d: nat, k: nat, g: int -> F)
    requires IsField(R) && |q| <= d + 1 && d < k && LargeCharacteristic(R, k)
    requires forall i :: 0 <= i <= d ==> Reciprocal(R, g, k, i)
    ensures R.mul(Alt(R, d, Weighted(R, q, g)), FromInt(R, Sign(d) * After(k, d))) == ValueAt(R, q, k)
  {
    WeightedSum(R, q, d, k, g);
    AltReciprocals(R, d, k, g);
    FromIntMul(R, Sign(d), After(k, d));
    FromIntMul(R, Sign(d), Sign(d));
    assert Sign(d) * Sign(d) == 1;
    FormulaAlgebra(R, FromInt(R, Sign(d)), FromInt(R, After(k, d)), ValueAt(R, q, k), Alt(R, d, g));
  }

  lemma FormulaAlgebra<F(!new)>(R: Field<F>, s: F, e: F, v: F, a: F)
    requires IsRing(R) && R.mul(s, s) == FromInt(R, 1) && R.mul(e, a) == s
    ensures R.mul(R.mul(v, a), R.mul(s, e)) == v
  {
    Ring(R, M(M(V(0), V(1)), M(V(2), V(3))), M(V(0), M(V(2), M(V(3), V(1)))), [v, a, s, e]);
    assert Laws2(R, R.zero, R.one) && Laws1(R, R.one) && Laws1(R, v);
  }

  // ----- Precomputation -----

  /** `exp_vartime`: square and multiply. */
  method ExpVartime<F(!new)>(R: Field<F>, x: F, exponent: nat) returns (out: F)
    requires IsRing(R)
    ensures out == Pow(R, x, exponent)
  {
    out := R.one;
    var base, e := x, exponent;
    assert Laws2(R, R.one, Pow(R, x, exponent)) && Laws1(R, Pow(R, x, exponent));
    while e > 0
      invariant R.mul(out, Pow(R, base, e)) == Pow(R, x, exponent)
    {
      SquarePower(R, base, e);
      assert Laws3(R, out, base, Pow(R, R.mul(base, base), e / 2));
      if e % 2 == 1 {
        out := R.mul(out, base);
      }
      e := e / 2;
      base := R.mul(base, base);
    }
    assert Laws1(R, out);
  }

  ghost function Factorial<F>(R: Field<F>, n: nat): F {
    if n == 0 then R.one else R.mul(Factorial(R, n - 1), FromInt(R, n))
  }

  lemma {:induction false} FactorialNonzero<F(!new)>(R: Field<F>, n: nat)
    requires IsField(R) && LargeCharacteristic(R, n)
    ensures Factorial(R, n) != R.zero
  {
    if n > 0 {
      FactorialNonzero(R, n - 1);
      assert Invertible(R, n);
      if Factorial(R, n) == R.zero {
        NoZeroDivisors(R, Factorial(R, n - 1), FromInt(R, n));
      }
    }
  }

  /** Reciprocal of an index, and zero for index zero. */
  ghost function Recip<F>(R: Field<F>, i: int): F {
    if i == 0 then R.zero else R.inv(FromInt(R, i))
  }

  lemma ReciprocalFromFactorials<F(!new)>(R: Field<F>, i: nat, p: F)
    requires IsField(R) && i > 0 && R.mul(p, Factorial(R, i)) == R.one
    ensures R.mul(p, Factorial(R, i - 1)) == Recip(R, i)
    ensures R.mul(R.mul(p, FromInt(R, i)), Factorial(R, i - 1)) == R.one
  {
    var f, x := Factorial(R, i - 1), FromInt(R, i);
    Ring(R, M(V(0), M(V(1), V(2))), M(V(2), M(V(0), V(1))), [p, f, x]);
    Ring(R, M(V(0), M(V(1), V(2))), M(M(V(0), V(2)), V(1)), [p, f, x]);
    InverseUnique(R, x, R.mul(p, f));
  }

  /** Prefix products of the successive numbers, and the number after the last. */
  method PrefixProducts<F(!new)>(R: Field<F>, length: nat) returns (products: seq<F>, next: F)
    requires IsRing(R) && length > 0
    ensures |products| == length && next == FromInt(R, length)
    ensures forall j {:trigger products[j]} :: 0 <= j < length ==> products[j] == Factorial(R, j)
  {
    var product := R.one;
    products, next := [R.one], R.one;
    assert FromInt(R, 1) == R.one by {
      assert Laws2(R, R.zero, R.one) && Laws1(R, R.one);
    }
    for k := 1 to length
      invariant |products| == k && product == Factorial(R, k - 1) && next == FromInt(R, k)
      invariant forall j {:trigger products[j]} :: 0 <= j < k ==> products[j] == Factorial(R, j)
    {
      product := R.mul(product, next);
      next := R.add(next, R.one);
      products := products + [product];
    }
  }

  ghost predicate AreReciprocals<F>(R: Field<F>, s: seq<F>) {
    forall i {:trigger s[i]} :: 0 <= i < |s| ==> s[i] == Recip(R, i)
  }

  /** `batched_inversion_sequence`: one inversion gives all reciprocals. */
  method BatchedInversionSequence<F(!new)>(R: Field<F>, length: nat) returns (output: seq<F>)
    requires IsField(R) && (length > 0 ==> LargeCharacteristic(R, length - 1))
    ensures |output| == length && AreReciprocals(R, output)
  {
    if length == 0 {
      return [];
    }
    var products, i := PrefixProducts(R, length);
    var last := length - 1;
    var productInverse := R.inv(products[last]);
    FactorialNonzero(R, last);
    assert InverseLaw(R, products[last]) && Laws2(R, products[last], productInverse);
    output := InvertBackwards(R, products, productInverse, i);
  }

  /** The second loop: from the inverse of the last product down to the reciprocal of one. */
  method InvertBackwards<F(!new)>(R: Field<F>, products: seq<F>, inverse: F, next: F) returns (output: seq<F>)
    requires IsField(R) && |products| > 0 && next == FromInt(R, |products|)
    requires forall j {:trigger products[j]} :: 0 <= j < |products| ==> products[j] == Factorial(R, j)
    requires R.mul(inverse, products[|products| - 1]) == R.one
    ensures |output| == |products| && AreReciprocals(R, output)
  {
    output := seq(|products|, i => R.zero);
    var k, i, productInverse := |products| - 1, next, inverse;
    while k > 0
      invariant 0 <= k < |products| == |output| && i == FromInt(R, k + 1)
      invariant R.mul(productInverse, products[k]) == R.one
      invariant forall j {:trigger output[j]} :: k < j < |output| ==> output[j] == Recip(R, j)
      invariant output[0] == R.zero
    {
      InversionStep(R, k, productInverse, i, products[k], products[k - 1]);
      output := output[k := R.mul(productInverse, products[k - 1])];
      i := R.sub(i, R.one);
      productInverse := R.mul(productInverse, i);
      k := k - 1;
    }
  }

  lemma InversionStep<F(!new)>(R: Field<F>, k: nat, p: F, i: F, f: F, g: F)
    requires IsField(R) && k > 0 && i == FromInt(R, k + 1) && f == Factorial(R, k) && g == Factorial(R, k - 1)
    requires R.mul(p, f) == R.one
    ensures R.mul(p, g) == Recip(R, k) && R.sub(i, R.one) == FromInt(R, k)
      && R.mul(R.mul(p, R.sub(i, R.one)), g) == R.one
  {
    AddThenSub(R, FromInt(R, k), R.one);
    ReciprocalFromFactorials(R, k, p);
  }

  datatype ExtendContext<F> = ExtendContext(
    nodesLen: nat,
    evaluations: nat,
    logNttSize: nat,
    kernel: seq<F>,
    before: seq<F>,
    after: seq<F>)

  /** The reciprocals of the indices, scaled by c. */
  ghost function Kernel<F>(R: Field<F>, c: F, n: nat): (r: seq<F>)
    ensures |r| == n
  {
    seq(n, (j: nat) => R.mul(Recip(R, j), c))
  }

  ghost predicate KernelReady<F>(R: Field<F>, roots: seq<F>, half: F, x: ExtendContext<F>) {
    && x.logNttSize < |roots|
    && x.kernel == Stages(R, roots, Kernel(R, Pow(R, half, x.logNttSize), Exp2(x.logNttSize)), x.logNttSize)
  }

  /** The binomial coefficients with alternating signs. */
  ghost predicate BeforeReady<F>(R: Field<F>, before: seq<F>, nodesLen: nat) {
    && |before| == nodesLen > 0
    && (forall i {:trigger before[i]} :: 0 <= i < nodesLen ==> before[i] == SignedIn(R, nodesLen - 1, i))
  }

  ghost function AfterIn<F>(R: Field<F>, k: nat, d: nat): F {
    FromInt(R, Sign(d) * After(k, d))
  }

  ghost predicate AfterReady<F>(R: Field<F>, after: seq<F>, nodesLen: nat, evaluations: nat) {
    && 0 < nodesLen <= evaluations && |after| == evaluations - nodesLen
    && (forall i {:trigger after[i]} :: 0 <= i < |after| ==> after[i] == AfterIn(R, nodesLen + i, nodesLen - 1))
  }

  ghost predicate Ready<F>(R: Field<F>, roots: seq<F>, half: F, x: ExtendContext<F>) {
    && 0 < x.nodesLen < x.evaluations && x.logNttSize == CeilLog2(x.evaluations)
    && KernelReady(R, roots, half, x)
    && BeforeReady(R, x.before, x.nodesLen) && AfterReady(R, x.after, x.nodesLen, x.evaluations)
  }

  /** The integers whose reciprocals the precomputation needs. */
  ghost function LargestReciprocal(evaluations: nat): nat {
    var size := Exp2(CeilLog2(evaluations));
    if evaluations + 1 > size then evaluations else size - 1
  }

  lemma BinomialUpdate<F(!new)>(R: Field<F>, d: nat, i: nat)
    requires IsField(R) && 0 < i <= d && Invertible(R, i)
    ensures R.mul(R.mul(FromInt(R, Binom(d, i - 1)), FromInt(R, d - i + 1)), Recip(R, i)) == FromInt(R, Binom(d, i))
  {
    BinomRecurrences(d, i);
    FromIntMul(R, i, Binom(d, i));
    FromIntMul(R, d - i + 1, Binom(d, i - 1));
    assert InverseLaw(R, FromInt(R, i));
    QuotientOfProducts(R, FromInt(R, Binom(d, i - 1)), FromInt(R, d - i + 1), FromInt(R, i), FromInt(R, Binom(d, i)));
  }

  lemma QuotientOfProducts<F(!new)>(R: Field<F>, a: F, b: F, x: F, y: F)
    requires IsField(R) && x != R.zero && R.mul(x, y) == R.mul(b, a)
    ensures R.mul(R.mul(a, b), R.inv(x)) == y
  {
    assert InverseLaw(R, x);
    var z := R.inv(x);
    assert Laws2(R, a, b);
    Ring(R, M(M(V(0), V(1)), V(2)), M(V(1), M(V(0), V(2))), [x, y, z]);
    assert Laws1(R, y);
  }

  lemma SignedFromBinom<F(!new)>(R: Field<F>, d: nat, i: nat)
    requires IsRing(R)
    ensures SignedIn(R, d, i) == if i % 2 != 0 then R.neg(FromInt(R, Binom(d, i))) else FromInt(R, Binom(d, i))
  {
    SignedIsBinom(d, i);
    NegInt(R, Binom(d, i));
  }

  lemma NegInt<F(!new)>(R: Field<F>, c: int)
    requires IsRing(R)
    ensures FromInt(R, -c) == R.neg(FromInt(R, c))
  {
    FromIntSub(R, 0, c);
    ZeroMinus(R, FromInt(R, c));
  }

  /** The binomial coefficients d choose i, by the recurrence of the source. */
  method BinomialCoefficients<F(!new)>(R: Field<F>, nodesLen: nat, reciprocals: seq<F>) returns (b: seq<F>)
    requires IsField(R) && 0 < nodesLen <= |reciprocals| && LargeCharacteristic(R, nodesLen - 1)
    requires AreReciprocals(R, reciprocals)
    ensures |b| == nodesLen
    ensures forall i {:trigger b[i]} :: 0 <= i < nodesLen ==> b[i] == FromInt(R, Binom(nodesLen - 1, i))
  {
    var d := nodesLen - 1;
    var binomial := R.one;
    b := [binomial];
    BinomTop(d);
    assert FromInt(R, 1) == R.one by {
      assert Laws2(R, R.zero, R.one) && Laws1(R, R.one);
    }
    for i := 1 to nodesLen
      invariant |b| == i && binomial == FromInt(R, Binom(d, i - 1))
      invariant forall j {:trigger b[j]} :: 0 <= j < i ==> b[j] == FromInt(R, Binom(d, j))
    {
      assert Invertible(R, i);
      BinomialUpdate(R, d, i);
      binomial := R.mul(R.mul(binomial, FromInt(R, d - i + 1)), reciprocals[i]);
      b := b + [binomial];
    }
  }

  lemma AfterUpdate<F(!new)>(R: Field<F>, d: nat, k: nat)
    requires IsField(R) && d < k && Invertible(R, k - d)
    ensures R.mul(FromInt(R, k), FromInt(R, Binom(k - 1, d))) == FromInt(R, After(k, d))
    ensures R.mul(FromInt(R, After(k, d)), Recip(R, k - d)) == FromInt(R, Binom(k, d))
    ensures AfterIn(R, k, d) == if d % 2 != 0 then R.neg(FromInt(R, After(k, d))) else FromInt(R, After(k, d))
  {
    BinomAbsorb(k, d);
    FromIntMul(R, k, Binom(k - 1, d));
    FromIntMul(R, k - d, Binom(k, d));
    assert Laws1(R, FromInt(R, k - d));
    var x, y := FromInt(R, k - d), FromInt(R, Binom(k, d));
    assert R.mul(x, y) == FromInt(R, After(k, d));
    assert Laws2(R, x, y);
    QuotientOfProducts(R, y, x, x, y);
    NegInt(R, After(k, d));
  }

  /** The coefficients (-1)^d (k - d) (k choose d), by the recurrence of the source. */
  method AfterCoefficients<F(!new)>(R: Field<F>, nodesLen: nat, evaluations: nat, reciprocals: seq<F>)
      returns (after: seq<F>)
    requires IsField(R) && 0 < nodesLen <= evaluations < |reciprocals| && LargeCharacteristic(R, evaluations)
    requires AreReciprocals(R, reciprocals)
    ensures AfterReady(R, after, nodesLen, evaluations)
  {
    var d := nodesLen - 1;
    var binomialKD := R.one;
    after := [];
    BinomTop(d);
    assert FromInt(R, 1) == R.one by {
      assert Laws2(R, R.zero, R.one) && Laws1(R, R.one);
    }
    for k := nodesLen to evaluations
      invariant |after| == k - nodesLen && binomialKD == FromInt(R, Binom(k - 1, d))
      invariant forall i {:trigger after[i]} :: 0 <= i < |after| ==> after[i] == AfterIn(R, nodesLen + i, d)
    {
      assert Invertible(R, k - d);
      AfterUpdate(R, d, k);
      var coefficient := R.mul(FromInt(R, k), binomialKD);
      binomialKD := R.mul(coefficient, reciprocals[k - d]);
      if d % 2 != 0 {
        coefficient := R.neg(coefficient);
      }
      after := after + [coefficient];
    }
  }

  /** Coefficients (-1)^i (d choose i). */
  method BeforeCoefficients<F(!new)>(R: Field<F>, nodesLen: nat, reciprocals: seq<F>) returns (before: seq<F>)
    requires IsField(R) && 0 < nodesLen <= |reciprocals| && LargeCharacteristic(R, nodesLen - 1)
    requires AreReciprocals(R, reciprocals)
    ensures BeforeReady(R, before, nodesLen)
  {
    var binomials := BinomialCoefficients(R, nodesLen, reciprocals);
    before := [];
    for i := 0 to nodesLen
      invariant |before| == i
      invariant forall j {:trigger before[j]} :: 0 <= j < i ==> before[j] == SignedIn(R, nodesLen - 1, j)
    {
      SignedFromBinom(R, nodesLen - 1, i);
      before := before + [if i % 2 != 0 then R.neg(binomials[i]) else binomials[i]];
    }
  }

  method ScaleKernel<F(!new)>(R: Field<F>, reciprocals: seq<F>, c: F) returns (terms: seq<F>)
    requires AreReciprocals(R, reciprocals)
    ensures terms == Kernel(R, c, |reciprocals|)
  {
    terms := reciprocals;
    for i := 0 to |reciprocals|
      invariant |terms| == |reciprocals|
      invariant forall j {:trigger terms[j]} :: 0 <= j < |terms| ==>
        terms[j] == if j < i then R.mul(Recip(R, j), c) else reciprocals[j]
    {
      terms := terms[i := R.mul(terms[i], c)];
    }
  }

  /** The forward transform of a vector, on a copy. */
  method Transform<F(!new)>(R: Field<F>, roots: seq<F>, terms: seq<F>, logN: nat) returns (r: seq<F>)
    requires IsRing(R) && logN < |roots| && |terms| == Exp2(logN)
    ensures r == Stages(R, roots, terms, logN)
  {
    var values := new F[|terms|](i requires 0 <= i < |terms| => terms[i]);
    assert values[..] == terms;
    NttBitReversed(R, roots, values, logN);
    r := values[..];
  }

  /** The reciprocals, scaled by the inverse of the size of the transform, and transformed. */
  method TransformKernel<F(!new)>(R: Field<F>, roots: seq<F>, half: F, reciprocals: seq<F>, logN: nat)
      returns (kernel: seq<F>)
    requires IsRing(R) && logN < |roots| && |reciprocals| == Exp2(logN)
    requires AreReciprocals(R, reciprocals)
    ensures kernel == Stages(R, roots, Kernel(R, Pow(R, half, logN), Exp2(logN)), logN)
  {
    var nttSizeInverse := ExpVartime(R, half, logN);
    var terms := ScaleKernel(R, reciprocals, nttSizeInverse);
    kernel := Transform(R, roots, terms, logN);
  }

  /** `extend_precompute`. */
  method ExtendPrecompute<F(!new)>(R: Field<F>, roots: seq<F>, half: F, nodesLen: nat, evaluations: nat)
      returns (context: ExtendContext<F>)
    requires IsField(R) && 0 < nodesLen < evaluations
    requires CeilLog2(evaluations) < |roots| && LargeCharacteristic(R, LargestReciprocal(evaluations))
    ensures Ready(R, roots, half, context)
    ensures context.nodesLen == nodesLen && context.evaluations == evaluations
  {
    var logNttSize := CeilLog2(evaluations);
    var nttSize := Exp2(logNttSize);
    var reciprocalsLen := if evaluations + 1 > nttSize then evaluations + 1 else nttSize;
    var reciprocals := BatchedInversionSequence(R, reciprocalsLen);

    assert AreReciprocals(R, reciprocals[..nttSize]);
    var kernel := TransformKernel(R, roots, half, reciprocals[..nttSize], logNttSize);
    var before := BeforeCoefficients(R, nodesLen, reciprocals);
    var after := AfterCoefficients(R, nodesLen, evaluations, reciprocals);
    context := ExtendContext(nodesLen, evaluations, logNttSize, kernel, before, after);
    assert KernelReady(R, roots, half, context);
  }

  // ----- Extension -----

  ghost function Recips<F>(R: Field<F>, k: int): int -> F {
    (i: int) => Recip(R, k - i)
  }

  lemma RecipsAreReciprocals<F(!new)>(R: Field<F>, k: nat, i: int)
    requires IsField(R) && 0 <= i < k && LargeCharacteristic(R, k)
    ensures Reciprocal(R, Recips(R, k), k, i)
  {
    assert Invertible(R, k - i);
    assert InverseLaw(R, FromInt(R, k - i));
    assert Laws2(R, FromInt(R, k - i), Recip(R, k - i));
  }

  /** The input of the convolution: signed binomials times the nodes, padded with zeros. */
  ghost predicate RightTerms<F>(R: Field<F>, nodes: seq<F>, right: seq<F>) {
    && 0 < |nodes| <= |right|
    && (forall i {:trigger right[i]} :: 0 <= i < |right| ==>
          right[i] == if i < |nodes| then R.mul(nodes[i], SignedIn(R, |nodes| - 1, i)) else R.zero)
  }

  /** One summand of the convolution at an output index k past the nodes: no index wraps around. */
  lemma ConvolutionTerm<F(!new)>(R: Field<F>, nodes: seq<F>, right: seq<F>, c: F, q: seq<F>, k: nat, i: nat)
    requires IsRing(R) && RightTerms(R, nodes, right) && i < |nodes| <= k < |right| && ValueAt(R, q, i) == nodes[i]
    ensures ConvTerms(R, right, Kernel(R, c, |right|), k)(i)
      == R.mul(c, AltTerms(R, |nodes| - 1, Weighted(R, q, Recips(R, k)))(i))
  {
    var kernel := Kernel(R, c, |right|);
    ConvTerm(R, right, kernel, k, i);
    assert kernel[k - i] == R.mul(Recip(R, k - i), c);
    assert Weighted(R, q, Recips(R, k))(i) == R.mul(nodes[i], Recip(R, k - i));
    ProductOrder(R, nodes[i], SignedIn(R, |nodes| - 1, i), Recip(R, k - i), c);
  }

  lemma ProductOrder<F(!new)>(R: Field<F>, x: F, s: F, r: F, c: F)
    requires IsRing(R)
    ensures R.mul(R.mul(x, s), R.mul(r, c)) == R.mul(c, R.mul(s, R.mul(x, r)))
  {
    Ring(R, M(M(V(0), V(1)), M(V(2), V(3))), M(V(3), M(V(1), M(V(0), V(2)))), [x, s, r, c]);
  }

  lemma ConvolutionPadding<F(!new)>(R: Field<F>, nodes: seq<F>, right: seq<F>, b: seq<F>, k: nat, i: nat)
    requires IsRing(R) && RightTerms(R, nodes, right) && |nodes| <= i < |right|
    ensures ConvTerms(R, right, b, k)(i) == R.zero
  {
    assert At(R, right, i) == right[i] == R.zero;
    MulZero(R, Cyclic(R, b, k - i));
  }

  lemma ConvolutionEntry<F(!new)>(R: Field<F>, nodes: seq<F>, right: seq<F>, c: F, q: seq<F>, k: nat)
    requires IsRing(R) && RightTerms(R, nodes, right) && |nodes| <= k < |right|
    requires forall i {:trigger nodes[i]} :: 0 <= i < |nodes| ==> ValueAt(R, q, i) == nodes[i]
    ensures Convolution(R, right, Kernel(R, c, |right|))[k]
      == R.mul(c, Alt(R, |nodes| - 1, Weighted(R, q, Recips(R, k))))
  {
    var m, n, kernel := |nodes|, |right|, Kernel(R, c, |right|);
    var terms, inner := ConvTerms(R, right, kernel, k), AltTerms(R, m - 1, Weighted(R, q, Recips(R, k)));
    ConvolutionTail(R, nodes, right, kernel, k);
    forall i {:trigger terms(i)} | 0 <= i < m ensures terms(i) == R.mul(c, inner(i)) {
      assert ValueAt(R, q, i) == nodes[i];
      ConvolutionTerm(R, nodes, right, c, q, k, i);
    }
    SumScale(R, m, c, inner, terms);
  }

  /** The padding of the right terms adds nothing to the convolution. */
  lemma ConvolutionTail<F(!new)>(R: Field<F>, nodes: seq<F>, right: seq<F>, kernel: seq<F>, k: nat)
    requires IsRing(R) && RightTerms(R, nodes, right) && |nodes| <= k < |right| == |kernel|
    ensures Sum(R, |right|, ConvTerms(R, right, kernel, k)) == Sum(R, |nodes|, ConvTerms(R, right, kernel, k))
  {
    var m, n, terms := |nodes|, |right|, ConvTerms(R, right, kernel, k);
    SumFrom(R, m, n - m, terms);
    PaddingSum(R, nodes, right, kernel, k);
    assert Laws1(R, Sum(R, m, terms));
  }

  lemma PaddingSum<F(!new)>(R: Field<F>, nodes: seq<F>, right: seq<F>, kernel: seq<F>, k: nat)
    requires IsRing(R) && RightTerms(R, nodes, right)
    ensures Sum(R, |right| - |nodes|, From(ConvTerms(R, right, kernel, k), |nodes|)) == R.zero
  {
    var m, padding := |nodes|, From(ConvTerms(R, right, kernel, k), |nodes|);
    forall i {:trigger padding(i)} | 0 <= i < |right| - m ensures padding(i) == R.zero {
      ConvolutionPadding(R, nodes, right, kernel, k, m + i);
    }
    SumZero(R, |right| - m, padding);
  }

  /** What the transforms of the source leave at index k, times the last coefficient, is the interpolated value. */
  lemma ExtendEntry<F(!new)>(R: Field<F>, nodes: seq<F>, right: seq<F>, half: F, logN: nat, q: seq<F>, k: nat)
    requires IsField(R) && RightTerms(R, nodes, right) && |nodes| <= k < |right| && LargeCharacteristic(R, k)
    requires R.mul(R.add(R.one, R.one), half) == R.one && |q| <= |nodes|
    requires forall i {:trigger nodes[i]} :: 0 <= i < |nodes| ==> ValueAt(R, q, i) == nodes[i]
    ensures var conv := Convolution(R, right, Kernel(R, Pow(R, half, logN), |right|));
      R.mul(R.mul(Pow(R, R.add(R.one, R.one), logN), conv[k]), AfterIn(R, k, |nodes| - 1)) == ValueAt(R, q, k)
  {
    var d, c, two := |nodes| - 1, Pow(R, half, logN), Pow(R, R.add(R.one, R.one), logN);
    var alt := Alt(R, d, Weighted(R, q, Recips(R, k)));
    ConvolutionEntry(R, nodes, right, c, q, k);
    PowProduct(R, R.add(R.one, R.one), half, logN);
    PowOne(R, logN);
    assert Laws3(R, two, c, alt) && Laws2(R, R.one, alt) && Laws1(R, alt);
    forall i | 0 <= i <= d ensures Reciprocal(R, Recips(R, k), k, i) {
      RecipsAreReciprocals(R, k, i);
    }
    InterpolationFormula(R, q, d, k, Recips(R, k));
  }

  /** The interpolating polynomial at the integer points. */
  lemma NodesAreValues<F(!new)>(R: Field<F>, nodes: seq<F>, n: nat)
    requires IsField(R) && |nodes| <= n && LargeCharacteristic(R, n)
    ensures var q := Interp(R, Points(R, n)[..|nodes|], nodes);
      |q| == |nodes|
      && (forall i {:trigger nodes[i]} :: 0 <= i < |nodes| ==> ValueAt(R, q, i) == nodes[i])
      && (forall k :: 0 <= k < n ==> Extended(R, Points(R, n), nodes, n)[k] == ValueAt(R, q, k))
  {
    PointsDistinct(R, n);
    var pts := Points(R, n);
    var q := Interp(R, pts[..|nodes|], nodes);
    forall i {:trigger nodes[i]} | 0 <= i < |nodes| ensures ValueAt(R, q, i) == nodes[i] {
      InterpLaw(R, pts[..|nodes|], nodes, i);
      assert pts[..|nodes|][i] == FromInt(R, i);
    }
    forall k | 0 <= k < n ensures Extended(R, pts, nodes, n)[k] == ValueAt(R, q, k) {
      assert pts[k] == FromInt(R, k);
    }
  }

  /** Multiply by the kernel in the transform domain and transform back. */
  method Convolve<F(!new)>(R: Field<F>, inverses: seq<F>, input: seq<F>, kernel: seq<F>, logN: nat) returns (r: seq<F>)
    requires IsRing(R) && logN < |inverses| && |input| == |kernel| == Exp2(logN)
    ensures r == Unstages(R, inverses, MulSeq(R, input, kernel), logN)
  {
    var values := new F[|input|](i requires 0 <= i < |input| => input[i]);
    for i := 0 to |input|
      invariant forall j :: 0 <= j < i ==> values[j] == R.mul(input[j], kernel[j])
      invariant forall j :: i <= j < |input| ==> values[j] == input[j]
    {
      values[i] := R.mul(values[i], kernel[i]);
    }
    assert values[..] == MulSeq(R, input, kernel);
    ScaledInverseNttBitReversed(R, inverses, values, logN);
    r := values[..];
  }

  method RightTermsOf<F(!new)>(R: Field<F>, nodes: seq<F>, before: seq<F>, size: nat) returns (right: seq<F>)
    requires 0 < |nodes| <= size && BeforeReady(R, before, |nodes|)
    ensures |right| == size && RightTerms(R, nodes, right)
  {
    right := [];
    for i := 0 to |nodes|
      invariant |right| == i
      invariant forall j {:trigger right[j]} :: 0 <= j < i ==> right[j] == R.mul(nodes[j], SignedIn(R, |nodes| - 1, j))
    {
      right := right + [R.mul(nodes[i], before[i])];
    }
    right := right + seq(size - |nodes|, i => R.zero);
  }

  /**
   `extend`: the output is the values at 0, 1, ..., evaluations - 1 of the polynomial of degree below |nodes|
   through the nodes.
   */
  method ExtendNodes<F(!new)>(R: Field<F>, roots: seq<F>, inverses: seq<F>, half: F, nodes: seq<F>,
                              context: ExtendContext<F>)
      returns (output: seq<F>)
    requires IsField(R) && RootTable(R, roots) && InverseTable(R, roots, inverses)
      && R.mul(R.add(R.one, R.one), half) == R.one
    requires Ready(R, roots, half, context) && |nodes| == context.nodesLen
    requires LargeCharacteristic(R, context.evaluations)
    ensures output == Extended(R, Points(R, context.evaluations), nodes, context.evaluations)
  {
    var result, right := ConvolveNodes(R, roots, inverses, half, nodes, context);
    ghost var q := Interp(R, Points(R, context.evaluations)[..|nodes|], nodes);
    NodesAreValues(R, nodes, context.evaluations);
    EntriesAre(R, half, nodes, right, q, result, context);
    output := AppendEvaluations(R, q, nodes, result, context.after, context.evaluations);
  }

  /** The nodes with their binomial coefficients, padded with zeros, convolved with the kernel. */
  method ConvolveNodes<F(!new)>(R: Field<F>, roots: seq<F>, inverses: seq<F>, half: F, nodes: seq<F>,
                                context: ExtendContext<F>)
      returns (result: seq<F>, ghost right: seq<F>)
    requires IsField(R) && RootTable(R, roots) && InverseTable(R, roots, inverses)
    requires Ready(R, roots, half, context) && |nodes| == context.nodesLen
    ensures RightTerms(R, nodes, right) && |right| == Exp2(context.logNttSize)
    ensures IsScaledConvolution(R, half, right, context.logNttSize, result)
  {
    var logN := context.logNttSize;
    var terms := RightTermsOf(R, nodes, context.before, Exp2(logN));
    right := terms;
    var transformed := Transform(R, roots, terms, logN);
    result := Convolve(R, inverses, transformed, context.kernel, logN);
    ConvolveMeans(R, roots, inverses, right, Kernel(R, Pow(R, half, logN), Exp2(logN)), logN, result);
  }

  ghost predicate IsScaledConvolution<F>(R: Field<F>, half: F, right: seq<F>, logN: nat, result: seq<F>) {
    result
      == Scaled(R, Pow(R, R.add(R.one, R.one), logN), Convolution(R, right, Kernel(R, Pow(R, half, logN), |right|)))
  }

  ghost predicate EntriesFrom<F>(R: Field<F>, q: seq<F>, m: nat, result: seq<F>, after: seq<F>, n: nat) {
    && m <= n <= |result| && n - m <= |after|
    && forall k :: m <= k < n ==> EntryIs(R, q, m, result, after, k)
  }

  lemma EntriesAre<F(!new)>(R: Field<F>, half: F, nodes: seq<F>, right: seq<F>, q: seq<F>, result: seq<F>,
                            context: ExtendContext<F>)
    requires IsField(R) && R.mul(R.add(R.one, R.one), half) == R.one && LargeCharacteristic(R, context.evaluations)
    requires 0 < context.nodesLen < context.evaluations <= |right| && |nodes| == context.nodesLen && |q| <= |nodes|
    requires AfterReady(R, context.after, context.nodesLen, context.evaluations) && RightTerms(R, nodes, right)
    requires IsScaledConvolution(R, half, right, context.logNttSize, result)
    requires forall i {:trigger nodes[i]} :: 0 <= i < |nodes| ==> ValueAt(R, q, i) == nodes[i]
    ensures EntriesFrom(R, q, |nodes|, result, context.after, context.evaluations)
  {
    forall k | |nodes| <= k < context.evaluations ensures EntryIs(R, q, |nodes|, result, context.after, k) {
      ExtendEntry(R, nodes, right, half, context.logNttSize, q, k);
    }
  }

  ghost predicate EntryIs<F>(R: Field<F>, q: seq<F>, m: nat, result: seq<F>, after: seq<F>, k: nat)
    requires m <= k < |result| && k - m < |after|
  {
    R.mul(result[k], after[k - m]) == ValueAt(R, q, k)
  }

  /** The last loop: the nodes, and after them the entries of the convolution times the coefficients. */
  method AppendEvaluations<F(!new)>(R: Field<F>, ghost q: seq<F>, nodes: seq<F>, result: seq<F>, after: seq<F>,
                                    evaluations: nat)
      returns (output: seq<F>)
    requires forall i {:trigger nodes[i]} :: 0 <= i < |nodes| ==> ValueAt(R, q, i) == nodes[i]
    requires EntriesFrom(R, q, |nodes|, result, after, evaluations)
    ensures |output| == evaluations && forall j :: 0 <= j < evaluations ==> output[j] == ValueAt(R, q, j)
  {
    output := nodes;
    for k := |nodes| to evaluations
      invariant |output| == k
      invariant forall j :: 0 <= j < k ==> output[j] == ValueAt(R, q, j)
    {
      assert EntryIs(R, q, |nodes|, result, after, k);
      output := output + [R.mul(result[k], after[k - |nodes|])];
    }
  }

  lemma ConvolveMeans<F(!new)>(R: Field<F>, roots: seq<F>, inverses: seq<F>, right: seq<F>, kernel: seq<F>, logN: nat,
                               result: seq<F>)
    requires IsField(R) && RootTable(R, roots) && InverseTable(R, roots, inverses) && logN < |roots|
    requires |right| == |kernel| == Exp2(logN)
    requires result
      == Unstages(R, inverses, MulSeq(R, Stages(R, roots, right, logN), Stages(R, roots, kernel, logN)), logN)
    ensures result == Scaled(R, Pow(R, R.add(R.one, R.one), logN), Convolution(R, right, kernel))
  {
    PointwiseIsConvolution(R, roots, right, kernel, logN);
    WholeBlocks(logN, logN);
    InverseOfNtt(R, roots, inverses, Convolution(R, right, kernel), logN);
  }
}
