/**
 Finite sums, powers and sequences of field elements.

 The lemmas about sums relate summands pointwise, so that any two functions with the same values can be
 used; no two lambda expressions have to be the same expression.
 */
module Sums {
  import opened Fields

  /** g(0) + ... + g(n - 1), added from the left as the source's accumulator loops do. */
  ghost function Sum<F>(R: Field<F>, n: nat, g: int -> F): F {
    if n == 0 then R.zero else R.add(Sum(R, n - 1, g), g(n - 1))
  }

  /** Element i of a sequence, or zero where the sequence has none. */
  function At<F>(R: Field<F>, s: seq<F>, i: int): F {
    if 0 <= i < |s| then s[i] else R.zero
  }

  lemma {:induction false} SumCong<F>(R: Field<F>, n: nat, g: int -> F, h: int -> F)
    requires forall i :: 0 <= i < n ==> g(i) == h(i)
    ensures Sum(R, n, g) == Sum(R, n, h)
  {
    if n > 0 {
      SumCong(R, n - 1, g, h);
    }
  }

  lemma {:induction false} SumZero<F(!new)>(R: Field<F>, n: nat, g: int -> F)
    requires IsRing(R)
    requires forall i :: 0 <= i < n ==> g(i) == R.zero
    ensures Sum(R, n, g) == R.zero
  {
    if n > 0 {
      SumZero(R, n - 1, g);
      assert Laws1(R, R.zero);
    }
  }

  lemma {:induction false} SumAdd<F(!new)>(R: Field<F>, n: nat, g: int -> F, h: int -> F, s: int -> F)
    requires IsRing(R)
    requires forall i :: 0 <= i < n ==> s(i) == R.add(g(i), h(i))
    ensures Sum(R, n, s) == R.add(Sum(R, n, g), Sum(R, n, h))
  {
    if n == 0 {
      assert Laws1(R, R.zero);
    } else {
      SumAdd(R, n - 1, g, h, s);
      AddSwap(R, Sum(R, n - 1, g), Sum(R, n - 1, h), g(n - 1), h(n - 1));
    }
  }

  lemma {:induction false} SumScale<F(!new)>(R: Field<F>, n: nat, c: F, g: int -> F, s: int -> F)
    requires IsRing(R)
    requires forall i :: 0 <= i < n ==> s(i) == R.mul(c, g(i))
    ensures Sum(R, n, s) == R.mul(c, Sum(R, n, g))
  {
    if n == 0 {
      MulZero(R, c);
    } else {
      SumScale(R, n - 1, c, g, s);
      assert Laws3(R, c, Sum(R, n - 1, g), g(n - 1));
    }
  }

  lemma {:induction false} SumSub<F(!new)>(R: Field<F>, n: nat, g: int -> F, h: int -> F, s: int -> F)
    requires IsRing(R)
    requires forall i :: 0 <= i < n ==> s(i) == R.sub(g(i), h(i))
    ensures Sum(R, n, s) == R.sub(Sum(R, n, g), Sum(R, n, h))
  {
    if n == 0 {
      assert Laws1(R, R.zero);
    } else {
      SumSub(R, n - 1, g, h, s);
      Ring(R, A(S(V(0), V(1)), S(V(2), V(3))), S(A(V(0), V(2)), A(V(1), V(3))),
        [Sum(R, n - 1, g), Sum(R, n - 1, h), g(n - 1), h(n - 1)]);
    }
  }

  /** The sum over the first n + m indices, where h continues g from index n. */
  lemma {:induction false} SumSplit<F(!new)>(R: Field<F>, n: nat, m: nat, g: int -> F, h: int -> F)
    requires IsRing(R)
    requires forall i :: 0 <= i < m ==> h(i) == g(n + i)
    ensures Sum(R, n + m, g) == R.add(Sum(R, n, g), Sum(R, m, h))
  {
    if m == 0 {
      assert Laws1(R, Sum(R, n, g));
    } else {
      SumSplit(R, n, m - 1, g, h);
      assert h(m - 1) == g(n + (m - 1));
      assert Laws3(R, Sum(R, n, g), Sum(R, m - 1, h), h(m - 1));
    }
  }

  lemma {:induction false} SumSingle<F(!new)>(R: Field<F>, n: nat, g: int -> F, k: nat)
    requires IsRing(R) && k < n
    requires forall i :: 0 <= i < n && i != k ==> g(i) == R.zero
    ensures Sum(R, n, g) == g(k)
  {
    if k == n - 1 {
      SumZero(R, n - 1, g);
      assert Laws2(R, R.zero, g(k)) && Laws1(R, g(k));
    } else {
      SumSingle(R, n - 1, g, k);
      assert Laws1(R, g(k));
    }
  }

  /** Exchange of the order of a double sum: `rows` sums g over its second index, `cols` over its first. */
  lemma {:induction false} SumSwap<F(!new)>(R: Field<F>, n: nat, m: nat, g: int -> int -> F, h: int -> int -> F,
                                            rows: int -> F, cols: int -> F)
    requires IsRing(R)
    requires forall i, j :: 0 <= i < n && 0 <= j < m ==> g(i)(j) == h(j)(i)
    requires forall i :: 0 <= i < n ==> rows(i) == Sum(R, m, g(i))
    requires forall j :: 0 <= j < m ==> cols(j) == Sum(R, n, h(j))
    ensures Sum(R, n, rows) == Sum(R, m, cols)
  {
    if n == 0 {
      SumZero(R, m, cols);
    } else {
      var less := (j: int) => Sum(R, n - 1, h(j));
      SumSwap(R, n - 1, m, g, h, rows, less);
      forall j | 0 <= j < m ensures cols(j) == R.add(less(j), g(n - 1)(j)) {
      }
      SumAdd(R, m, less, g(n - 1), cols);
    }
  }

  lemma MulSwap<F(!new)>(R: Field<F>, a: F, b: F, c: F)
    requires IsRing(R)
    ensures R.mul(a, R.mul(b, c)) == R.mul(b, R.mul(a, c))
  {
    assert Laws3(R, a, b, c) && Laws2(R, a, b) && Laws3(R, b, a, c);
  }

  lemma NegNeg<F(!new)>(R: Field<F>, a: F)
    requires IsRing(R)
    ensures R.neg(R.neg(a)) == a
  {
    Ring(R, N(N(V(0))), V(0), [a]);
  }

  // ----- Sequences, element by element -----

  function AddSeq<F>(R: Field<F>, p: seq<F>, q: seq<F>): (s: seq<F>)
    requires |p| == |q|
    ensures |s| == |p| && forall i :: 0 <= i < |s| ==> s[i] == R.add(p[i], q[i])
  {
    seq(|p|, (i: nat) requires i < |p| => R.add(p[i], q[i]))
  }

  function SubSeq<F>(R: Field<F>, p: seq<F>, q: seq<F>): (s: seq<F>)
    requires |p| == |q|
    ensures |s| == |p| && forall i :: 0 <= i < |s| ==> s[i] == R.sub(p[i], q[i])
  {
    seq(|p|, (i: nat) requires i < |p| => R.sub(p[i], q[i]))
  }

  function MulSeq<F>(R: Field<F>, p: seq<F>, q: seq<F>): (s: seq<F>)
    requires |p| == |q|
    ensures |s| == |p| && forall i :: 0 <= i < |s| ==> s[i] == R.mul(p[i], q[i])
  {
    seq(|p|, (i: nat) requires i < |p| => R.mul(p[i], q[i]))
  }

  function Scaled<F>(R: Field<F>, c: F, p: seq<F>): (s: seq<F>)
    ensures |s| == |p| && forall i :: 0 <= i < |s| ==> s[i] == R.mul(c, p[i])
  {
    seq(|p|, (i: nat) requires i < |p| => R.mul(c, p[i]))
  }

  function Exp2(k: nat): (n: nat)
    ensures n > 0
  {
    if k == 0 then 1 else 2 * Exp2(k - 1)
  }

  /** Exponent of the smallest power of two that is at least n. */
  function CeilLog2(n: nat): (k: nat)
    ensures Exp2(k) >= n && (k > 0 ==> Exp2(k - 1) < n)
  {
    if n <= 1 then 0 else 1 + CeilLog2((n + 1) / 2)
  }

  // ----- Powers -----

  ghost function Pow<F>(R: Field<F>, x: F, n: nat): F {
    if n == 0 then R.one else R.mul(x, Pow(R, x, n - 1))
  }

  /** Powers as a total function of the exponent, for use as a summand. */
  ghost function PowAt<F>(R: Field<F>, x: F, n: int): F {
    if n < 0 then R.zero else Pow(R, x, n)
  }

  lemma {:induction false} PowAdd<F(!new)>(R: Field<F>, x: F, m: nat, n: nat)
    requires IsRing(R)
    ensures Pow(R, x, m + n) == R.mul(Pow(R, x, m), Pow(R, x, n))
  {
    if m == 0 {
      assert Laws2(R, R.one, Pow(R, x, n)) && Laws1(R, Pow(R, x, n));
    } else {
      PowAdd(R, x, m - 1, n);
      assert Laws3(R, x, Pow(R, x, m - 1), Pow(R, x, n));
      assert m + n - 1 == (m - 1) + n;
    }
  }

  lemma {:induction false} PowMul<F(!new)>(R: Field<F>, x: F, m: nat, n: nat)
    requires IsRing(R)
    ensures Pow(R, x, m * n) == Pow(R, Pow(R, x, m), n)
  {
    if n > 0 {
      PowMul(R, x, m, n - 1);
      assert m * n == m + m * (n - 1);
      PowAdd(R, x, m, m * (n - 1));
    } else {
      assert m * n == 0;
    }
  }

  lemma {:induction false} PowOne<F(!new)>(R: Field<F>, n: nat)
    requires IsRing(R)
    ensures Pow(R, R.one, n) == R.one
  {
    if n > 0 {
      PowOne(R, n - 1);
      assert Laws1(R, R.one);
    }
  }

  lemma {:induction false} PowProduct<F(!new)>(R: Field<F>, x: F, y: F, n: nat)
    requires IsRing(R)
    ensures Pow(R, R.mul(x, y), n) == R.mul(Pow(R, x, n), Pow(R, y, n))
  {
    if n == 0 {
      assert Laws1(R, R.one);
    } else {
      PowProduct(R, x, y, n - 1);
      Ring(R, M(M(V(0), V(1)), M(V(2), V(3))), M(M(V(0), V(2)), M(V(1), V(3))),
        [x, y, Pow(R, x, n - 1), Pow(R, y, n - 1)]);
    }
  }

  // ----- Divisors of zero -----

  lemma NoZeroDivisors<F(!new)>(R: Field<F>, a: F, b: F)
    requires IsField(R) && R.mul(a, b) == R.zero && a != R.zero
    ensures b == R.zero
  {
    var i := R.inv(a);
    assert InverseLaw(R, a);
    Ring(R, M(V(0), M(V(1), V(2))), M(M(V(1), V(0)), V(2)), [i, a, b]);
    MulZero(R, i);
    assert Laws2(R, R.one, b) && Laws1(R, b);
  }

  lemma SubZero<F(!new)>(R: Field<F>, a: F, b: F)
    requires IsRing(R)
    ensures R.sub(a, b) == R.zero <==> a == b
  {
    assert Laws1(R, b);
    if R.sub(a, b) == R.zero {
      Cancel(R, a, b, R.neg(b));
    }
  }

  lemma InverseUnique<F(!new)>(R: Field<F>, a: F, b: F)
    requires IsField(R) && R.mul(a, b) == R.one
    ensures a != R.zero && b == R.inv(a)
  {
    if a == R.zero {
      MulZero(R, b);
    }
    assert InverseLaw(R, a);
    var i := R.inv(a);
    Ring(R, M(V(0), M(V(1), V(2))), M(M(V(1), V(0)), V(2)), [i, a, b]);
    assert Laws1(R, i) && Laws2(R, R.one, b) && Laws1(R, b);
  }
}
