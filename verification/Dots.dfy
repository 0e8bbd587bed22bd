/**
 Inner products of sequences, and how they change when one entry does.
 */
module Dots {
  import opened Fields
  import opened Sums

  /** The inner product of the first n entries. */
  ghost function Dot<F>(R: Field<F>, a: seq<F>, b: seq<F>, n: nat): F {
    if n == 0 then R.zero else R.add(Dot(R, a, b, n - 1), R.mul(At(R, a, n - 1), At(R, b, n - 1)))
  }

  function Zeros<F>(R: Field<F>, n: nat): (s: seq<F>)
    ensures |s| == n
  {
    seq(n, (i: nat) => R.zero)
  }

  /** Add x to entry k. */
  function AddAt<F>(R: Field<F>, v: seq<F>, k: nat, x: F): (r: seq<F>)
    ensures |r| == |v|
  {
    if k < |v| then v[k := R.add(v[k], x)] else v
  }

  lemma {:induction false} DotZeros<F(!new)>(R: Field<F>, size: nat, b: seq<F>, n: nat)
    requires IsRing(R)
    ensures Dot(R, Zeros(R, size), b, n) == R.zero
  {
    if n > 0 {
      DotZeros(R, size, b, n - 1);
      MulZero(R, At(R, b, n - 1));
      assert Laws1(R, R.zero) && Laws2(R, R.zero, At(R, b, n - 1));
    }
  }

  lemma {:induction false} DotBefore<F(!new)>(R: Field<F>, a: seq<F>, b: seq<F>, k: nat, x: F, n: nat)
    requires n <= k
    ensures Dot(R, AddAt(R, a, k, x), b, n) == Dot(R, a, b, n)
    decreases n
  {
    if n > 0 {
      var m := n - 1;
      DotBefore(R, a, b, k, x, m);
      assert n == m + 1;
    }
  }

  lemma {:induction false} DotAddAt<F(!new)>(R: Field<F>, a: seq<F>, b: seq<F>, k: nat, x: F, n: nat)
    requires IsRing(R) && k < n <= |a|
    ensures Dot(R, AddAt(R, a, k, x), b, n) == R.add(Dot(R, a, b, n), R.mul(x, At(R, b, k)))
    decreases n
  {
    var m := n - 1;
    var c := AddAt(R, a, k, x);
    if k == m {
      DotBefore(R, a, b, k, x, m);
      AddInProduct(R, Dot(R, a, b, m), a[k], x, At(R, b, k));
    } else {
      DotAddAt(R, a, b, k, x, m);
      assert At(R, c, m) == At(R, a, m);
      AddPast(R, Dot(R, a, b, m), R.mul(x, At(R, b, k)), R.mul(At(R, a, m), At(R, b, m)));
    }
    assert n == m + 1;
  }

  lemma AddInProduct<F(!new)>(R: Field<F>, d: F, a: F, x: F, b: F)
    requires IsRing(R)
    ensures R.add(d, R.mul(R.add(a, x), b)) == R.add(R.add(d, R.mul(a, b)), R.mul(x, b))
  {
    Ring(R, A(V(0), M(A(V(1), V(2)), V(3))), A(A(V(0), M(V(1), V(3))), M(V(2), V(3))), [d, a, x, b]);
  }

  lemma AddPast<F(!new)>(R: Field<F>, d: F, x: F, y: F)
    requires IsRing(R)
    ensures R.add(R.add(d, x), y) == R.add(R.add(d, y), x)
  {
    assert Laws3(R, d, x, y) && Laws3(R, d, y, x) && Laws2(R, x, y);
  }

  lemma {:induction false} DotCong<F>(R: Field<F>, a: seq<F>, b: seq<F>, c: seq<F>, d: seq<F>, n: nat)
    requires forall i :: 0 <= i < n ==> At(R, a, i) == At(R, c, i) && At(R, b, i) == At(R, d, i)
    ensures Dot(R, a, b, n) == Dot(R, c, d, n)
  {
    if n > 0 {
      DotCong(R, a, b, c, d, n - 1);
    }
  }

  lemma {:induction false} DotComm<F(!new)>(R: Field<F>, a: seq<F>, b: seq<F>, n: nat)
    requires IsRing(R)
    ensures Dot(R, a, b, n) == Dot(R, b, a, n)
  {
    if n > 0 {
      DotComm(R, a, b, n - 1);
      assert Laws2(R, At(R, a, n - 1), At(R, b, n - 1));
    }
  }

  /** Entries past the end of either sequence add nothing. */
  lemma {:induction false} DotPastEnd<F(!new)>(R: Field<F>, a: seq<F>, b: seq<F>, m: nat, n: nat)
    requires IsRing(R) && |b| <= m <= n
    ensures Dot(R, a, b, n) == Dot(R, a, b, m)
    decreases n
  {
    if m < n {
      var k := n - 1;
      DotPastEnd(R, a, b, m, k);
      MulZero(R, At(R, a, k));
      assert Laws1(R, Dot(R, a, b, k));
      assert n == k + 1;
    }
  }

  /** a + s * b, where b is at least as long. */
  function AddScaled<F>(R: Field<F>, a: seq<F>, s: F, b: seq<F>): (c: seq<F>)
    requires |a| == |b|
    ensures |c| == |a| && forall i :: 0 <= i < |a| ==> c[i] == R.add(a[i], R.mul(s, b[i]))
  {
    AddSeq(R, a, Scaled(R, s, b))
  }

  lemma {:induction false} DotAddScaled<F(!new)>(R: Field<F>, a: seq<F>, s: F, b: seq<F>, v: seq<F>, n: nat)
    requires IsRing(R) && |a| == |b| && n <= |a|
    ensures Dot(R, AddScaled(R, a, s, b), v, n) == R.add(Dot(R, a, v, n), R.mul(s, Dot(R, b, v, n)))
    decreases n
  {
    if n == 0 {
      MulZero(R, s);
      assert Laws1(R, R.zero);
    } else {
      var m := n - 1;
      DotAddScaled(R, a, s, b, v, m);
      DotAddScaledNext(R, a, s, b, v, m);
      assert n == m + 1;
    }
  }

  lemma DotAddScaledNext<F(!new)>(R: Field<F>, a: seq<F>, s: F, b: seq<F>, v: seq<F>, m: nat)
    requires IsRing(R) && |a| == |b| && m < |a|
    requires Dot(R, AddScaled(R, a, s, b), v, m) == R.add(Dot(R, a, v, m), R.mul(s, Dot(R, b, v, m)))
    ensures Dot(R, AddScaled(R, a, s, b), v, m + 1) == R.add(Dot(R, a, v, m + 1), R.mul(s, Dot(R, b, v, m + 1)))
  {
    ScaledStep(R, Dot(R, a, v, m), s, Dot(R, b, v, m), a[m], b[m], At(R, v, m));
  }

  lemma ScaledStep<F(!new)>(R: Field<F>, d: F, s: F, e: F, a: F, b: F, v: F)
    requires IsRing(R)
    ensures R.add(R.add(d, R.mul(s, e)), R.mul(R.add(a, R.mul(s, b)), v))
      == R.add(R.add(d, R.mul(a, v)), R.mul(s, R.add(e, R.mul(b, v))))
  {
    Ring(R, A(A(V(0), M(V(1), V(2))), M(A(V(3), M(V(1), V(4))), V(5))),
      A(A(V(0), M(V(3), V(5))), M(V(1), A(V(2), M(V(4), V(5))))), [d, s, e, a, b, v]);
  }
}
