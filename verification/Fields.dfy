/**
 Fields as values.

 The proof system is generic over its field (P-128, P-256, its quadratic extension, GF(2^128)), so a
 field here is a record of operations, and its laws are a predicate on that record.
 The laws are stated one instance at a time (`Laws1`, `Laws2`, `Laws3`) so that a proof only sees the
 instances it asks for.
 */
module Fields {

  datatype Field<!F> = Field(
    zero: F,
    one: F,
    add: (F, F) -> F,
    mul: (F, F) -> F,
    neg: F -> F,
    inv: F -> F)
  {
    function sub(a: F, b: F): F {
      add(a, neg(b))
    }
  }

  ghost predicate Laws1<F>(R: Field<F>, a: F) {
    && R.add(a, R.zero) == a
    && R.mul(a, R.one) == a
    && R.add(a, R.neg(a)) == R.zero
  }

  ghost predicate Laws2<F>(R: Field<F>, a: F, b: F) {
    && R.add(a, b) == R.add(b, a)
    && R.mul(a, b) == R.mul(b, a)
  }

  ghost predicate Laws3<F>(R: Field<F>, a: F, b: F, c: F) {
    && R.add(R.add(a, b), c) == R.add(a, R.add(b, c))
    && R.mul(R.mul(a, b), c) == R.mul(a, R.mul(b, c))
    && R.mul(a, R.add(b, c)) == R.add(R.mul(a, b), R.mul(a, c))
  }

  /** Commutative ring with one. */
  ghost predicate IsRing<F(!new)>(R: Field<F>) {
    && (forall a: F :: Laws1(R, a))
    && (forall a: F, b: F :: Laws2(R, a, b))
    && (forall a: F, b: F, c: F :: Laws3(R, a, b, c))
  }

  ghost predicate InverseLaw<F>(R: Field<F>, a: F) {
    a != R.zero ==> R.mul(a, R.inv(a)) == R.one
  }

  ghost predicate IsField<F(!new)>(R: Field<F>) {
    && IsRing(R)
    && R.zero != R.one
    && (forall a: F :: InverseLaw(R, a))
  }

  // ----- Ring expressions -----

  /** A ring expression over numbered variables. */
  datatype Expr = V(i: nat) | Z | O | A(l: Expr, r: Expr) | S(l: Expr, r: Expr) | M(l: Expr, r: Expr) | N(e: Expr)

  ghost function EvalZ(e: Expr, z: seq<int>): int
    decreases e
  {
    match e
    case V(i) => if i < |z| then z[i] else 0
    case Z => 0
    case O => 1
    case A(l, r) => EvalZ(l, z) + EvalZ(r, z)
    case S(l, r) => EvalZ(l, z) - EvalZ(r, z)
    case M(l, r) => EvalZ(l, z) * EvalZ(r, z)
    case N(d) => -EvalZ(d, z)
  }

  ghost function Eval<F>(R: Field<F>, e: Expr, env: seq<F>): F
    decreases e
  {
    match e
    case V(i) => if i < |env| then env[i] else R.zero
    case Z => R.zero
    case O => R.one
    case A(l, r) => R.add(Eval(R, l, env), Eval(R, r, env))
    case S(l, r) => R.sub(Eval(R, l, env), Eval(R, r, env))
    case M(l, r) => R.mul(Eval(R, l, env), Eval(R, r, env))
    case N(d) => R.neg(Eval(R, d, env))
  }

  // ----- Polynomials with integer coefficients, in nested Horner form -----

  /**
   At level k a polynomial uses the variables 0..k-1: `K(c)` is a constant, and `H(p, q)` is
   p + x * q, where x is variable k-1, p is of level k-1 and q of level k.
   */
  datatype Poly = K(c: int) | H(p: Poly, q: Poly)

  ghost predicate HasLevel(p: Poly, k: nat)
    decreases p
  {
    p.H? ==> k > 0 && HasLevel(p.p, k - 1) && HasLevel(p.q, k)
  }

  /** The image of an integer in the ring. */
  function FromInt<F>(R: Field<F>, c: int): F
    decreases if c < 0 then 1 - c else c
  {
    if c == 0 then R.zero
    else if c > 0 then R.add(FromInt(R, c - 1), R.one)
    else R.neg(FromInt(R, -c))
  }

  ghost function Value<F>(R: Field<F>, p: Poly, k: nat, env: seq<F>): F
    requires HasLevel(p, k) && k <= |env|
    decreases p
  {
    match p
    case K(c) => FromInt(R, c)
    case H(a, b) => R.add(Value(R, a, k - 1, env), R.mul(env[k - 1], Value(R, b, k, env)))
  }

  ghost function AddPoly(p: Poly, q: Poly): Poly
    decreases p, q
  {
    match (p, q)
    case (K(c), K(d)) => K(c + d)
    case (K(c), H(a, b)) => H(AddPoly(K(c), a), b)
    case (H(a, b), K(d)) => H(AddPoly(a, K(d)), b)
    case (H(a, b), H(c, d)) => H(AddPoly(a, c), AddPoly(b, d))
  }

  ghost function ScalePoly(c: int, p: Poly): Poly {
    match p
    case K(d) => K(c * d)
    case H(a, b) => H(ScalePoly(c, a), ScalePoly(c, b))
  }

  /** Product of `p` of level k-1 and `q` of level k. */
  ghost function MulLow(p: Poly, q: Poly): Poly
    decreases p, q, 0
  {
    match q
    case K(d) => H(ScalePoly(d, p), K(0))
    case H(a, b) => H(MulPoly(p, a), MulLow(p, b))
  }

  ghost function MulPoly(p: Poly, q: Poly): Poly
    decreases p, q, 1
  {
    match p
    case K(c) => ScalePoly(c, q)
    case H(a, b) => AddPoly(MulLow(a, q), H(K(0), MulPoly(b, q)))
  }

  // ----- Consequences of the laws used to interpret polynomials -----

  lemma AddSwap<F(!new)>(R: Field<F>, a: F, b: F, c: F, d: F)
    requires IsRing(R)
    ensures R.add(R.add(a, b), R.add(c, d)) == R.add(R.add(a, c), R.add(b, d))
  {
    assert Laws3(R, a, b, R.add(c, d)) && Laws3(R, b, c, d) && Laws2(R, b, c);
    assert Laws3(R, c, b, d) && Laws3(R, a, c, R.add(b, d));
  }

  lemma Cancel<F(!new)>(R: Field<F>, a: F, b: F, c: F)
    requires IsRing(R)
    requires R.add(a, c) == R.add(b, c)
    ensures a == b
  {
    assert Laws3(R, a, c, R.neg(c)) && Laws3(R, b, c, R.neg(c));
    assert Laws1(R, c) && Laws1(R, a) && Laws1(R, b);
  }

  lemma MulZero<F(!new)>(R: Field<F>, a: F)
    requires IsRing(R)
    ensures R.mul(a, R.zero) == R.zero && R.mul(R.zero, a) == R.zero
  {
    var t := R.mul(a, R.zero);
    assert Laws3(R, a, R.zero, R.zero) && Laws1(R, R.zero) && Laws1(R, t) && Laws2(R, a, R.zero);
    assert Laws2(R, t, R.zero);
    Cancel(R, t, R.zero, t);
  }

  lemma MulNeg<F(!new)>(R: Field<F>, a: F, b: F)
    requires IsRing(R)
    ensures R.mul(a, R.neg(b)) == R.neg(R.mul(a, b))
  {
    MulZero(R, a);
    assert Laws3(R, a, b, R.neg(b)) && Laws1(R, b) && Laws1(R, R.mul(a, b));
    assert Laws2(R, R.mul(a, b), R.mul(a, R.neg(b))) && Laws2(R, R.mul(a, b), R.neg(R.mul(a, b)));
    Cancel(R, R.mul(a, R.neg(b)), R.neg(R.mul(a, b)), R.mul(a, b));
  }

  lemma MulHorner<F(!new)>(R: Field<F>, s: F, a: F, x: F, b: F)
    requires IsRing(R)
    ensures R.mul(s, R.add(a, R.mul(x, b))) == R.add(R.mul(s, a), R.mul(x, R.mul(s, b)))
  {
    assert Laws3(R, s, a, R.mul(x, b));
    assert Laws3(R, s, x, b) && Laws2(R, s, x) && Laws3(R, x, s, b);
  }

  lemma FromIntSucc<F(!new)>(R: Field<F>, c: int)
    requires IsRing(R)
    ensures FromInt(R, c + 1) == R.add(FromInt(R, c), R.one)
  {
    if c < 0 {
      var x, n := FromInt(R, -c - 1), FromInt(R, c);
      assert FromInt(R, -c) == R.add(x, R.one);
      assert Laws1(R, R.add(x, R.one)) && Laws3(R, x, R.one, n) && Laws2(R, R.one, n);
      assert Laws1(R, x) && Laws2(R, x, R.add(n, R.one)) && Laws2(R, x, R.neg(x));
      assert R.add(R.add(n, R.one), x) == R.zero;
      Cancel(R, R.add(n, R.one), R.neg(x), x);
      if c == -1 {
        assert Laws2(R, R.neg(R.zero), R.zero) && Laws1(R, R.neg(R.zero));
      }
    }
  }

  lemma {:induction false} FromIntAdd<F(!new)>(R: Field<F>, c: int, d: int)
    requires IsRing(R)
    ensures FromInt(R, c + d) == R.add(FromInt(R, c), FromInt(R, d))
    decreases if d < 0 then -d else d
  {
    if d == 0 {
      assert Laws1(R, FromInt(R, c));
    } else if d > 0 {
      FromIntAdd(R, c, d - 1);
      FromIntSucc(R, c + d - 1);
      assert Laws3(R, FromInt(R, c), FromInt(R, d - 1), R.one);
    } else {
      FromIntAdd(R, c, d + 1);
      FromIntSucc(R, c + d);
      FromIntSucc(R, d);
      assert Laws3(R, FromInt(R, c), FromInt(R, d), R.one);
      Cancel(R, FromInt(R, c + d), R.add(FromInt(R, c), FromInt(R, d)), R.one);
    }
  }

  lemma {:induction false} FromIntMul<F(!new)>(R: Field<F>, c: int, d: int)
    requires IsRing(R)
    ensures FromInt(R, c * d) == R.mul(FromInt(R, c), FromInt(R, d))
    decreases if d < 0 then -d else d
  {
    var x, y := FromInt(R, c), FromInt(R, d);
    if d == 0 {
      MulZero(R, x);
    } else {
      var e := if d > 0 then d - 1 else d + 1;
      FromIntMul(R, c, e);
      var lo := if d > 0 then e else d;
      assert c * (lo + 1) == c * lo + c;
      FromIntSucc(R, lo);
      FromIntAdd(R, c * lo, c);
      assert Laws3(R, x, FromInt(R, lo), R.one) && Laws1(R, x);
      if d < 0 {
        Cancel(R, FromInt(R, c * d), R.mul(x, y), x);
      }
    }
  }

  // ----- The polynomial of an expression has the expression's value -----

  lemma {:induction false} AddPolyValue<F(!new)>(R: Field<F>, p: Poly, q: Poly, k: nat, env: seq<F>)
    requires IsRing(R) && HasLevel(p, k) && HasLevel(q, k) && k <= |env|
    ensures HasLevel(AddPoly(p, q), k)
    ensures Value(R, AddPoly(p, q), k, env) == R.add(Value(R, p, k, env), Value(R, q, k, env))
    decreases p, q
  {
    match (p, q)
    case (K(c), K(d)) => FromIntAdd(R, c, d);
    case (K(c), H(a, b)) =>
      AddPolyValue(R, K(c), a, k - 1, env);
      assert Laws3(R, FromInt(R, c), Value(R, a, k - 1, env), R.mul(env[k - 1], Value(R, b, k, env)));
    case (H(a, b), K(d)) =>
      AddPolyValue(R, a, K(d), k - 1, env);
      var va, t, vd := Value(R, a, k - 1, env), R.mul(env[k - 1], Value(R, b, k, env)), FromInt(R, d);
      assert Laws3(R, va, vd, t) && Laws2(R, vd, t) && Laws3(R, va, t, vd);
    case (H(a, b), H(c, d)) =>
      AddPolyValue(R, a, c, k - 1, env);
      AddPolyValue(R, b, d, k, env);
      var x, vb, vd := env[k - 1], Value(R, b, k, env), Value(R, d, k, env);
      assert Laws3(R, x, vb, vd);
      AddSwap(R, Value(R, a, k - 1, env), R.mul(x, vb), Value(R, c, k - 1, env), R.mul(x, vd));
  }

  lemma {:induction false} ScalePolyValue<F(!new)>(R: Field<F>, c: int, p: Poly, k: nat, env: seq<F>)
    requires IsRing(R) && HasLevel(p, k) && k <= |env|
    ensures HasLevel(ScalePoly(c, p), k)
    ensures Value(R, ScalePoly(c, p), k, env) == R.mul(FromInt(R, c), Value(R, p, k, env))
  {
    match p
    case K(d) => FromIntMul(R, c, d);
    case H(a, b) =>
      ScalePolyValue(R, c, a, k - 1, env);
      ScalePolyValue(R, c, b, k, env);
      MulHorner(R, FromInt(R, c), Value(R, a, k - 1, env), env[k - 1], Value(R, b, k, env));
  }

  lemma {:induction false} MulLowValue<F(!new)>(R: Field<F>, p: Poly, q: Poly, k: nat, env: seq<F>)
    requires IsRing(R) && k > 0 && HasLevel(p, k - 1) && HasLevel(q, k) && k <= |env|
    ensures HasLevel(MulLow(p, q), k)
    ensures Value(R, MulLow(p, q), k, env) == R.mul(Value(R, p, k - 1, env), Value(R, q, k, env))
    decreases p, q, 0
  {
    var v := Value(R, p, k - 1, env);
    match q
    case K(d) =>
      ScalePolyValue(R, d, p, k - 1, env);
      MulZero(R, env[k - 1]);
      assert Laws2(R, FromInt(R, d), v) && Laws1(R, R.mul(v, FromInt(R, d)));
    case H(a, b) =>
      MulPolyValue(R, p, a, k - 1, env);
      MulLowValue(R, p, b, k, env);
      MulHorner(R, v, Value(R, a, k - 1, env), env[k - 1], Value(R, b, k, env));
  }

  lemma {:induction false} MulPolyValue<F(!new)>(R: Field<F>, p: Poly, q: Poly, k: nat, env: seq<F>)
    requires IsRing(R) && HasLevel(p, k) && HasLevel(q, k) && k <= |env|
    ensures HasLevel(MulPoly(p, q), k)
    ensures Value(R, MulPoly(p, q), k, env) == R.mul(Value(R, p, k, env), Value(R, q, k, env))
    decreases p, q, 1
  {
    match p
    case K(c) => ScalePolyValue(R, c, q, k, env);
    case H(a, b) =>
      MulLowValue(R, a, q, k, env);
      MulPolyValue(R, b, q, k, env);
      ShiftedSum(R, MulLow(a, q), MulPoly(b, q), k, env);
      MulShifted(R, Value(R, a, k - 1, env), Value(R, b, k, env), Value(R, q, k, env), env[k - 1]);
  }

  lemma ShiftedSum<F(!new)>(R: Field<F>, low: Poly, high: Poly, k: nat, env: seq<F>)
    requires IsRing(R) && k > 0 && HasLevel(low, k) && HasLevel(high, k) && k <= |env|
    ensures HasLevel(AddPoly(low, H(K(0), high)), k)
    ensures Value(R, AddPoly(low, H(K(0), high)), k, env)
      == R.add(Value(R, low, k, env), R.add(R.zero, R.mul(env[k - 1], Value(R, high, k, env))))
  {
    assert Value(R, H(K(0), high), k, env) == R.add(R.zero, R.mul(env[k - 1], Value(R, high, k, env)));
    AddPolyValue(R, low, H(K(0), high), k, env);
  }

  lemma MulShifted<F(!new)>(R: Field<F>, va: F, vb: F, vq: F, x: F)
    requires IsRing(R)
    ensures R.mul(R.add(va, R.mul(x, vb)), vq) == R.add(R.mul(va, vq), R.add(R.zero, R.mul(x, R.mul(vb, vq))))
  {
    MulHorner(R, vq, va, x, vb);
    assert Laws2(R, vq, va) && Laws2(R, vq, vb) && Laws2(R, vq, R.add(va, R.mul(x, vb)));
    assert Laws2(R, R.zero, R.mul(x, R.mul(vb, vq))) && Laws1(R, R.mul(x, R.mul(vb, vq)));
  }

  ghost function VarPoly(i: nat, k: nat): Poly
    requires i < k
  {
    if i + 1 == k then H(K(0), K(1)) else H(VarPoly(i, k - 1), K(0))
  }

  lemma {:induction false} VarPolyValue<F(!new)>(R: Field<F>, i: nat, k: nat, env: seq<F>)
    requires IsRing(R) && i < k <= |env|
    ensures HasLevel(VarPoly(i, k), k)
    ensures Value(R, VarPoly(i, k), k, env) == env[i]
  {
    if i + 1 == k {
      assert Laws2(R, R.zero, R.one) && Laws1(R, R.one) && Laws1(R, env[i]) && Laws2(R, R.zero, env[i]);
      assert FromInt(R, 1) == R.one;
    } else {
      VarPolyValue(R, i, k - 1, env);
      MulZero(R, env[k - 1]);
      assert Laws1(R, env[i]);
    }
  }

  ghost function ToPoly(e: Expr, k: nat): Poly {
    match e
    case V(i) => if i < k then VarPoly(i, k) else K(0)
    case Z => K(0)
    case O => K(1)
    case A(l, r) => AddPoly(ToPoly(l, k), ToPoly(r, k))
    case S(l, r) => AddPoly(ToPoly(l, k), ScalePoly(-1, ToPoly(r, k)))
    case M(l, r) => MulPoly(ToPoly(l, k), ToPoly(r, k))
    case N(d) => ScalePoly(-1, ToPoly(d, k))
  }

  lemma {:induction false} NegOne<F(!new)>(R: Field<F>, a: F)
    requires IsRing(R)
    ensures R.mul(FromInt(R, -1), a) == R.neg(a)
  {
    assert Laws2(R, R.zero, R.one) && Laws1(R, R.one) && Laws1(R, a);
    assert FromInt(R, 1) == R.one && FromInt(R, -1) == R.neg(R.one);
    MulNeg(R, a, R.one);
    assert Laws2(R, a, R.neg(R.one));
  }

  lemma {:induction false} ToPolyValue<F(!new)>(R: Field<F>, e: Expr, k: nat, env: seq<F>)
    requires IsRing(R) && |env| == k
    ensures HasLevel(ToPoly(e, k), k)
    ensures Value(R, ToPoly(e, k), k, env) == Eval(R, e, env)
  {
    match e
    case V(i) => if i < k { VarPolyValue(R, i, k, env); }
    case Z =>
    case O =>
      assert Laws2(R, R.zero, R.one) && Laws1(R, R.one);
      assert FromInt(R, 1) == R.one;
    case A(l, r) =>
      ToPolyValue(R, l, k, env);
      ToPolyValue(R, r, k, env);
      AddPolyValue(R, ToPoly(l, k), ToPoly(r, k), k, env);
    case S(l, r) =>
      ToPolyValue(R, l, k, env);
      ToPolyValue(R, r, k, env);
      ScalePolyValue(R, -1, ToPoly(r, k), k, env);
      NegOne(R, Eval(R, r, env));
      AddPolyValue(R, ToPoly(l, k), ScalePoly(-1, ToPoly(r, k)), k, env);
    case M(l, r) =>
      ToPolyValue(R, l, k, env);
      ToPolyValue(R, r, k, env);
      MulPolyValue(R, ToPoly(l, k), ToPoly(r, k), k, env);
    case N(d) =>
      ToPolyValue(R, d, k, env);
      ScalePolyValue(R, -1, ToPoly(d, k), k, env);
      NegOne(R, Eval(R, d, env));
  }

  // ----- A polynomial that vanishes on the positive integers vanishes in every ring -----

  function Ints(): Field<int> {
    Field(0, 1, (a: int, b: int) => a + b, (a: int, b: int) => a * b, (a: int) => -a, (a: int) => 0)
  }

  lemma IntsAreRing()
    ensures IsRing(Ints())
  {
    forall a: int, b: int, c: int ensures Laws3(Ints(), a, b, c) {
      assert (a * b) * c == a * (b * c);
    }
  }

  lemma {:induction false} FromIntOfInts(c: int)
    ensures FromInt(Ints(), c) == c
    decreases if c < 0 then 1 - c else c
  {
    if c > 0 {
      FromIntOfInts(c - 1);
    } else if c < 0 {
      FromIntOfInts(-c);
    }
  }

  lemma {:induction false} EvalOfInts(e: Expr, z: seq<int>)
    ensures Eval(Ints(), e, z) == EvalZ(e, z)
  {
    match e
    case A(l, r) => EvalOfInts(l, z); EvalOfInts(r, z);
    case S(l, r) => EvalOfInts(l, z); EvalOfInts(r, z);
    case M(l, r) => EvalOfInts(l, z); EvalOfInts(r, z);
    case N(d) => EvalOfInts(d, z);
    case _ =>
  }

  ghost predicate Positive(z: seq<int>) {
    forall i :: 0 <= i < |z| ==> z[i] > 0
  }

  ghost predicate Vanishes(p: Poly, k: nat, n: nat)
    requires HasLevel(p, k) && k <= n
  {
    forall z: seq<int> :: |z| == n && Positive(z) ==> Value(Ints(), p, k, z) == 0
  }

  lemma {:induction false} ValueIgnores<F>(R: Field<F>, p: Poly, k: nat, env: seq<F>, i: nat, v: F)
    requires HasLevel(p, k) && k <= i < |env|
    ensures Value(R, p, k, env[i := v]) == Value(R, p, k, env)
  {
    match p
    case K(_) =>
    case H(a, b) =>
      ValueIgnores(R, a, k - 1, env, i, v);
      ValueIgnores(R, b, k, env, i, v);
  }

  lemma ConstantPartVanishes(a: Poly, b: Poly, k: nat, n: nat)
    requires HasLevel(H(a, b), k) && k <= n && Vanishes(H(a, b), k, n)
    ensures Vanishes(a, k - 1, n)
  {
    forall z: seq<int> | |z| == n && Positive(z) ensures Value(Ints(), a, k - 1, z) == 0 {
      var c := Value(Ints(), a, k - 1, z);
      var x := (if c < 0 then -c else c) + 1;
      var y := z[k - 1 := x];
      ValueIgnores(Ints(), a, k - 1, z, k - 1, x);
      assert Positive(y) && |y| == n;
      assert Value(Ints(), H(a, b), k, y) == c + x * Value(Ints(), b, k, y);
      SmallMultiple(c, x, Value(Ints(), b, k, y));
    }
  }

  lemma SmallMultiple(c: int, x: int, q: int)
    requires c + x * q == 0 && -x < c < x
    ensures c == 0
  {
    MulSign(x, q - 1);
    MulSign(x, -q - 1);
    assert x * (q - 1) == x * q - x && x * (-q - 1) == -(x * q) - x;
  }

  lemma MulSign(x: int, y: int)
    requires x > 0
    ensures y >= 0 ==> x * y >= 0
  {
  }

  lemma {:induction false} VanishingIsZero<F(!new)>(R: Field<F>, p: Poly, k: nat, env: seq<F>)
    requires IsRing(R) && HasLevel(p, k) && k <= |env| && Vanishes(p, k, |env|)
    ensures Value(R, p, k, env) == R.zero
  {
    var n := |env|;
    match p
    case K(c) =>
      var z := seq(n, i => 1);
      assert Value(Ints(), p, k, z) == 0;
      FromIntOfInts(c);
    case H(a, b) =>
      ConstantPartVanishes(a, b, k, n);
      VanishingIsZero(R, a, k - 1, env);
      forall z: seq<int> | |z| == n && Positive(z) ensures Value(Ints(), b, k, z) == 0 {
        assert Value(Ints(), p, k, z) == 0 && Value(Ints(), a, k - 1, z) == 0;
        assert z[k - 1] > 0;
      }
      VanishingIsZero(R, b, k, env);
      MulZero(R, env[k - 1]);
      assert Laws1(R, R.zero);
  }

  /** An equation between ring expressions that holds over the integers holds in every commutative ring. */
  lemma Ring<F(!new)>(R: Field<F>, e: Expr, d: Expr, env: seq<F>)
    requires IsRing(R)
    requires forall z: seq<int> :: |z| == |env| ==> EvalZ(e, z) == EvalZ(d, z)
    ensures Eval(R, e, env) == Eval(R, d, env)
  {
    var k, c := |env|, S(e, d);
    var p := ToPoly(c, k);
    ToPolyValue(R, c, k, env);
    IntsAreRing();
    forall z: seq<int> | |z| == k && Positive(z) ensures Value(Ints(), p, k, z) == 0 {
      ToPolyValue(Ints(), c, k, z);
      EvalOfInts(c, z);
      assert EvalZ(e, z) == EvalZ(d, z);
    }
    VanishingIsZero(R, p, k, env);
    var x, y := Eval(R, e, env), Eval(R, d, env);
    assert R.add(x, R.neg(y)) == R.zero;
    assert Laws1(R, y);
    Cancel(R, x, y, R.neg(y));
  }
}
