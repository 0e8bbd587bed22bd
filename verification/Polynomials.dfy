/**
 Polynomials as sequences of coefficients, lowest degree first: evaluation, ring operations, division by
 a linear factor, and interpolation.
 */
module Polynomials {
  import opened Fields
  import opened Sums

  /** Value of the polynomial q at x, by Horner's rule. */
  function Ev<F>(R: Field<F>, q: seq<F>, x: F): F {
    if |q| == 0 then R.zero else R.add(q[0], R.mul(x, Ev(R, q[1..], x)))
  }

  ghost function Monomials<F>(R: Field<F>, q: seq<F>, x: F): int -> F {
    (i: int) => R.mul(At(R, q, i), PowAt(R, x, i))
  }

  lemma MonomialAt<F>(R: Field<F>, q: seq<F>, x: F, i: nat)
    requires i < |q|
    ensures Monomials(R, q, x)(i) == R.mul(q[i], Pow(R, x, i))
  {
    assert At(R, q, i) == q[i] && PowAt(R, x, i) == Pow(R, x, i);
  }

  lemma MonomialShift<F(!new)>(R: Field<F>, q: seq<F>, x: F, i: nat)
    requires IsRing(R) && i + 1 < |q|
    ensures Monomials(R, q, x)(i + 1) == R.mul(x, Monomials(R, q[1..], x)(i))
  {
    MonomialAt(R, q, x, i + 1);
    MonomialAt(R, q[1..], x, i);
    MulSwap(R, q[i + 1], x, Pow(R, x, i));
  }

  lemma {:induction false} EvIsSum<F(!new)>(R: Field<F>, q: seq<F>, x: F)
    requires IsRing(R)
    ensures Ev(R, q, x) == Sum(R, |q|, Monomials(R, q, x))
  {
    if |q| > 0 {
      EvIsSum(R, q[1..], x);
      MonomialsSplit(R, q, x);
    }
  }

  lemma MonomialsSplit<F(!new)>(R: Field<F>, q: seq<F>, x: F)
    requires IsRing(R) && |q| > 0
    ensures Sum(R, |q|, Monomials(R, q, x)) == R.add(q[0], R.mul(x, Sum(R, |q| - 1, Monomials(R, q[1..], x))))
  {
    var g, h := Monomials(R, q, x), Monomials(R, q[1..], x);
    var shifted := (i: int) => g(i + 1);
    SumSplit(R, 1, |q| - 1, g, shifted);
    forall i | 0 <= i < |q| - 1 ensures shifted(i) == R.mul(x, h(i)) {
      MonomialShift(R, q, x, i);
    }
    SumScale(R, |q| - 1, x, h, shifted);
    MonomialAt(R, q, x, 0);
    assert Sum(R, 1, g) == R.add(Sum(R, 0, g), g(0));
    assert Laws1(R, q[0]) && Laws2(R, R.zero, q[0]);
  }

  lemma {:induction false} EvConcat<F(!new)>(R: Field<F>, p: seq<F>, q: seq<F>, x: F)
    requires IsRing(R)
    ensures Ev(R, p + q, x) == R.add(Ev(R, p, x), R.mul(Pow(R, x, |p|), Ev(R, q, x)))
  {
    if |p| == 0 {
      assert p + q == q;
      Ring(R, V(0), A(Z, M(O, V(0))), [Ev(R, q, x)]);
    } else {
      assert (p + q)[1..] == p[1..] + q;
      EvConcat(R, p[1..], q, x);
      var t := Pow(R, x, |p| - 1);
      Ring(R, A(V(0), M(V(1), A(V(2), M(V(3), V(4))))), A(A(V(0), M(V(1), V(2))), M(M(V(1), V(3)), V(4))),
        [p[0], x, Ev(R, p[1..], x), t, Ev(R, q, x)]);
    }
  }

  lemma {:induction false} EvAdd<F(!new)>(R: Field<F>, p: seq<F>, q: seq<F>, x: F)
    requires IsRing(R) && |p| == |q|
    ensures Ev(R, AddSeq(R, p, q), x) == R.add(Ev(R, p, x), Ev(R, q, x))
  {
    if |p| == 0 {
      assert Laws1(R, R.zero);
    } else {
      EvAdd(R, p[1..], q[1..], x);
      assert AddSeq(R, p, q)[1..] == AddSeq(R, p[1..], q[1..]);
      var a, b := Ev(R, p[1..], x), Ev(R, q[1..], x);
      Ring(R, A(A(V(0), V(1)), M(V(2), A(V(3), V(4)))), A(A(V(0), M(V(2), V(3))), A(V(1), M(V(2), V(4)))),
        [p[0], q[0], x, a, b]);
    }
  }

  lemma {:induction false} EvSub<F(!new)>(R: Field<F>, p: seq<F>, q: seq<F>, x: F)
    requires IsRing(R) && |p| == |q|
    ensures Ev(R, SubSeq(R, p, q), x) == R.sub(Ev(R, p, x), Ev(R, q, x))
  {
    if |p| == 0 {
      assert Laws1(R, R.zero);
    } else {
      EvSub(R, p[1..], q[1..], x);
      assert SubSeq(R, p, q)[1..] == SubSeq(R, p[1..], q[1..]);
      var a, b := Ev(R, p[1..], x), Ev(R, q[1..], x);
      Ring(R, A(S(V(0), V(1)), M(V(2), S(V(3), V(4)))), S(A(V(0), M(V(2), V(3))), A(V(1), M(V(2), V(4)))),
        [p[0], q[0], x, a, b]);
    }
  }

  lemma {:induction false} EvScale<F(!new)>(R: Field<F>, c: F, p: seq<F>, x: F)
    requires IsRing(R)
    ensures Ev(R, Scaled(R, c, p), x) == R.mul(c, Ev(R, p, x))
  {
    if |p| == 0 {
      MulZero(R, c);
    } else {
      EvScale(R, c, p[1..], x);
      assert Scaled(R, c, p)[1..] == Scaled(R, c, p[1..]);
      MulHorner(R, c, p[0], x, Ev(R, p[1..], x));
    }
  }

  /** Scaling coefficient i by w^i scales the point by w. */
  lemma EvTwist<F(!new)>(R: Field<F>, c: seq<F>, t: seq<F>, w: F, y: F)
    requires IsRing(R) && |c| == |t|
    requires forall i {:trigger t[i]} :: 0 <= i < |c| ==> t[i] == R.mul(c[i], Pow(R, w, i))
    ensures Ev(R, t, y) == Ev(R, c, R.mul(w, y))
  {
    var x := R.mul(w, y);
    EvIsSum(R, t, y);
    EvIsSum(R, c, x);
    forall i | 0 <= i < |c| ensures Monomials(R, t, y)(i) == Monomials(R, c, x)(i) {
      MonomialAt(R, t, y, i);
      MonomialAt(R, c, x, i);
      PowProduct(R, w, y, i);
      assert Laws3(R, c[i], Pow(R, w, i), Pow(R, y, i));
    }
    SumCong(R, |c|, Monomials(R, t, y), Monomials(R, c, x));
  }

  // ----- Division by a linear factor -----

  /** The quotient of q by (X - r). */
  ghost function Quotient<F>(R: Field<F>, q: seq<F>, r: F): (d: seq<F>)
    ensures |d| == if |q| == 0 then 0 else |q| - 1
  {
    if |q| <= 1 then [] else [Ev(R, q[1..], r)] + Quotient(R, q[1..], r)
  }

  /** q(x) = q(r) + (x - r) * quotient(x) */
  lemma {:induction false} QuotientLaw<F(!new)>(R: Field<F>, q: seq<F>, r: F, x: F)
    requires IsRing(R)
    ensures Ev(R, q, x) == R.add(Ev(R, q, r), R.mul(R.sub(x, r), Ev(R, Quotient(R, q, r), x)))
  {
    if |q| == 0 {
      Ring(R, Z, A(Z, M(S(V(0), V(1)), Z)), [x, r]);
    } else if |q| == 1 {
      assert q[1..] == [];
      Ring(R, A(V(0), M(V(1), Z)), A(A(V(0), M(V(2), Z)), M(S(V(1), V(2)), Z)), [q[0], x, r]);
    } else {
      var t := q[1..];
      QuotientLaw(R, t, r, x);
      assert Quotient(R, q, r)[1..] == Quotient(R, t, r);
      QuotientStep(R, q[0], x, r, Ev(R, t, r), Ev(R, Quotient(R, t, r), x));
    }
  }

  lemma QuotientStep<F(!new)>(R: Field<F>, c: F, x: F, r: F, t: F, d: F)
    requires IsRing(R)
    ensures R.add(c, R.mul(x, R.add(t, R.mul(R.sub(x, r), d))))
      == R.add(R.add(c, R.mul(r, t)), R.mul(R.sub(x, r), R.add(t, R.mul(x, d))))
  {
    Ring(R, A(V(0), M(V(1), A(V(2), M(S(V(1), V(3)), V(4))))),
      A(A(V(0), M(V(3), V(2))), M(S(V(1), V(3)), A(V(2), M(V(1), V(4))))), [c, x, t, r, d]);
  }

  ghost predicate Distinct<F>(pts: seq<F>) {
    forall i, j :: 0 <= i < j < |pts| ==> pts[i] != pts[j]
  }

  /** A polynomial with as many distinct roots as coefficients is zero everywhere. */
  lemma {:induction false} ManyRoots<F(!new)>(R: Field<F>, q: seq<F>, pts: seq<F>, x: F)
    requires IsField(R) && |q| <= |pts| && Distinct(pts)
    requires forall i :: 0 <= i < |pts| ==> Ev(R, q, pts[i]) == R.zero
    ensures Ev(R, q, x) == R.zero
    decreases |q|
  {
    if |q| > 0 {
      var n := |pts| - 1;
      var r, d := pts[n], Quotient(R, q, pts[n]);
      forall i | 0 <= i < n ensures Ev(R, d, pts[i]) == R.zero {
        QuotientLaw(R, q, r, pts[i]);
        var f := R.sub(pts[i], r);
        assert Laws2(R, R.zero, R.mul(f, Ev(R, d, pts[i]))) && Laws1(R, R.mul(f, Ev(R, d, pts[i])));
        SubZero(R, pts[i], r);
        NoZeroDivisors(R, f, Ev(R, d, pts[i]));
      }
      ManyRoots(R, d, pts[..n], x);
      QuotientLaw(R, q, r, x);
      MulZero(R, R.sub(x, r));
      assert Laws1(R, R.zero);
    }
  }

  // ----- Interpolation -----

  /** (X - r) * q */
  function TimesLinear<F>(R: Field<F>, q: seq<F>, r: F): (p: seq<F>)
    ensures |p| == |q| + 1
  {
    SubSeq(R, [R.zero] + q, Scaled(R, r, q + [R.zero]))
  }

  lemma TimesLinearLaw<F(!new)>(R: Field<F>, q: seq<F>, r: F, x: F)
    requires IsRing(R)
    ensures Ev(R, TimesLinear(R, q, r), x) == R.mul(R.sub(x, r), Ev(R, q, x))
  {
    var up, same := [R.zero] + q, q + [R.zero];
    EvAppendZero(R, q, x);
    assert up[1..] == q;
    EvScale(R, r, same, x);
    EvSub(R, up, Scaled(R, r, same), x);
    LinearFactor(R, x, r, Ev(R, q, x));
  }

  lemma LinearFactor<F(!new)>(R: Field<F>, x: F, r: F, v: F)
    requires IsRing(R)
    ensures R.sub(R.add(R.zero, R.mul(x, v)), R.mul(r, v)) == R.mul(R.sub(x, r), v)
  {
    Ring(R, S(A(Z, M(V(0), V(1))), M(V(2), V(1))), M(S(V(0), V(2)), V(1)), [x, v, r]);
  }

  lemma EvAppendZero<F(!new)>(R: Field<F>, q: seq<F>, x: F)
    requires IsRing(R)
    ensures Ev(R, q + [R.zero], x) == Ev(R, q, x)
  {
    EvConcat(R, q, [R.zero], x);
    assert [R.zero][1..] == [];
    MulZero(R, x);
    MulZero(R, Pow(R, x, |q|));
    assert Laws1(R, R.zero) && Laws1(R, Ev(R, q, x));
  }

  /** The product of (X - p) over the points p. */
  function NodePoly<F>(R: Field<F>, pts: seq<F>): (q: seq<F>)
    ensures |q| == |pts| + 1
  {
    if |pts| == 0 then [R.one] else TimesLinear(R, NodePoly(R, pts[..|pts| - 1]), pts[|pts| - 1])
  }

  lemma {:induction false} NodePolyLaw<F(!new)>(R: Field<F>, pts: seq<F>, x: F)
    requires IsField(R)
    ensures Ev(R, NodePoly(R, pts), x) == R.zero <==> x in pts
  {
    if |pts| == 0 {
      assert [R.one][1..] == [];
      MulZero(R, x);
      assert Laws1(R, R.one);
    } else {
      var n := |pts| - 1;
      var p, v := pts[n], Ev(R, NodePoly(R, pts[..n]), x);
      NodePolyLaw(R, pts[..n], x);
      TimesLinearLaw(R, NodePoly(R, pts[..n]), p, x);
      SubZero(R, x, p);
      assert pts == pts[..n] + [p];
      MulZero(R, v);
      MulZero(R, R.sub(x, p));
      if x != p && R.mul(R.sub(x, p), v) == R.zero {
        NoZeroDivisors(R, R.sub(x, p), v);
      }
    }
  }

  /** The interpolating polynomial through (pts[i], ys[i]), by Newton's rule. */
  function Interp<F>(R: Field<F>, pts: seq<F>, ys: seq<F>): (q: seq<F>)
    requires |pts| == |ys|
    ensures |q| == |pts|
    decreases |pts|
  {
    if |pts| == 0 then []
    else
      var n := |pts| - 1;
      var q, node := Interp(R, pts[..n], ys[..n]), NodePoly(R, pts[..n]);
      var c := R.mul(R.sub(ys[n], Ev(R, q, pts[n])), R.inv(Ev(R, node, pts[n])));
      AddSeq(R, q + [R.zero], Scaled(R, c, node))
  }

  lemma InterpStep<F(!new)>(R: Field<F>, pts: seq<F>, ys: seq<F>, x: F)
    requires IsRing(R) && 0 < |pts| == |ys|
    ensures var n := |pts| - 1;
      var q, node := Interp(R, pts[..n], ys[..n]), NodePoly(R, pts[..n]);
      var c := R.mul(R.sub(ys[n], Ev(R, q, pts[n])), R.inv(Ev(R, node, pts[n])));
      Ev(R, Interp(R, pts, ys), x) == R.add(Ev(R, q, x), R.mul(c, Ev(R, node, x)))
  {
    var n := |pts| - 1;
    var q, node := Interp(R, pts[..n], ys[..n]), NodePoly(R, pts[..n]);
    var c := R.mul(R.sub(ys[n], Ev(R, q, pts[n])), R.inv(Ev(R, node, pts[n])));
    EvScale(R, c, node, x);
    EvAppendZero(R, q, x);
    EvAdd(R, q + [R.zero], Scaled(R, c, node), x);
  }

  /** Newton's polynomial passes through every given point. */
  lemma {:induction false} InterpLaw<F(!new)>(R: Field<F>, pts: seq<F>, ys: seq<F>, i: nat)
    requires IsField(R) && |pts| == |ys| && Distinct(pts) && i < |pts|
    ensures Ev(R, Interp(R, pts, ys), pts[i]) == ys[i]
    decreases |pts|
  {
    var n := |pts| - 1;
    var q, node := Interp(R, pts[..n], ys[..n]), NodePoly(R, pts[..n]);
    var c := R.mul(R.sub(ys[n], Ev(R, q, pts[n])), R.inv(Ev(R, node, pts[n])));
    InterpStep(R, pts, ys, pts[i]);
    NodePolyLaw(R, pts[..n], pts[i]);
    if i < n {
      InterpLaw(R, pts[..n], ys[..n], i);
      assert pts[i] == pts[..n][i];
      MulZero(R, c);
      assert Laws1(R, ys[i]);
    } else {
      NewtonValue(R, ys[n], Ev(R, q, pts[n]), Ev(R, node, pts[n]));
    }
  }

  lemma NewtonValue<F(!new)>(R: Field<F>, y: F, v: F, d: F)
    requires IsField(R) && d != R.zero
    ensures R.add(v, R.mul(R.mul(R.sub(y, v), R.inv(d)), d)) == y
  {
    var i := R.inv(d);
    assert InverseLaw(R, d);
    Ring(R, A(V(0), M(M(S(V(1), V(0)), V(2)), V(3))), A(V(0), M(S(V(1), V(0)), M(V(3), V(2)))), [v, y, i, d]);
    assert Laws1(R, R.sub(y, v));
    Ring(R, A(V(0), S(V(1), V(0))), V(1), [v, y]);
  }

  // ----- Reed-Solomon extension -----

  /**
   Section 2.2 of draft-google-cfrg-libzk-01: the values at the first n points of the polynomial of degree
   below |nodes| whose values at the first |nodes| points are `nodes`.
   */
  function Extended<F>(R: Field<F>, pts: seq<F>, nodes: seq<F>, n: nat): (r: seq<F>)
    requires |nodes| <= |pts| && n <= |pts|
    ensures |r| == n
  {
    seq(n, (k: nat) requires k < n => Ev(R, Interp(R, pts[..|nodes|], nodes), pts[k]))
  }

  /** `row` holds the values at the first points of a polynomial with at most m coefficients. */
  ghost predicate Codeword<F(!new)>(R: Field<F>, pts: seq<F>, row: seq<F>, m: nat)
    requires |row| <= |pts|
  {
    exists q: seq<F> :: |q| <= m && Evaluates(R, pts, row, q)
  }

  ghost predicate Evaluates<F>(R: Field<F>, pts: seq<F>, row: seq<F>, q: seq<F>)
    requires |row| <= |pts|
  {
    forall k :: 0 <= k < |row| ==> row[k] == Ev(R, q, pts[k])
  }

  lemma ExtendedIsCodeword<F(!new)>(R: Field<F>, pts: seq<F>, nodes: seq<F>, n: nat)
    requires IsField(R) && Distinct(pts) && |nodes| <= |pts| && n <= |pts|
    ensures Codeword(R, pts, Extended(R, pts, nodes, n), |nodes|)
    ensures forall i :: 0 <= i < |nodes| && i < n ==> Extended(R, pts, nodes, n)[i] == nodes[i]
  {
    var q := Interp(R, pts[..|nodes|], nodes);
    assert Evaluates(R, pts, Extended(R, pts, nodes, n), q);
    forall i | 0 <= i < |nodes| && i < n ensures Extended(R, pts, nodes, n)[i] == nodes[i] {
      InterpLaw(R, pts[..|nodes|], nodes, i);
    }
  }

  /** Two polynomials of low degree that agree at enough points agree everywhere. */
  lemma AgreeEverywhere<F(!new)>(R: Field<F>, q: seq<F>, p: seq<F>, pts: seq<F>, x: F)
    requires IsField(R) && Distinct(pts) && |q| <= |p| <= |pts|
    requires forall i :: 0 <= i < |pts| ==> Ev(R, q, pts[i]) == Ev(R, p, pts[i])
    ensures Ev(R, q, x) == Ev(R, p, x)
  {
    var d := SubSeq(R, Padded(R, q, |p|), p);
    forall i | 0 <= i < |pts| ensures Ev(R, d, pts[i]) == R.zero {
      EvPadded(R, q, |p|, pts[i]);
      EvSub(R, Padded(R, q, |p|), p, pts[i]);
      assert Laws1(R, Ev(R, p, pts[i]));
    }
    ManyRoots(R, d, pts, x);
    EvPadded(R, q, |p|, x);
    EvSub(R, Padded(R, q, |p|), p, x);
    SubZero(R, Ev(R, q, x), Ev(R, p, x));
  }

  /** Every polynomial of low degree through the nodes has the extension as its values. */
  lemma ExtensionUnique<F(!new)>(R: Field<F>, pts: seq<F>, nodes: seq<F>, q: seq<F>, x: F)
    requires IsField(R) && Distinct(pts) && |q| <= |nodes| <= |pts|
    requires forall i :: 0 <= i < |nodes| ==> Ev(R, q, pts[i]) == nodes[i]
    ensures Ev(R, q, x) == Ev(R, Interp(R, pts[..|nodes|], nodes), x)
  {
    var front := pts[..|nodes|];
    DistinctPrefix(pts, |nodes|);
    forall i | 0 <= i < |front| ensures Ev(R, q, front[i]) == nodes[i] {
      assert front[i] == pts[i];
    }
    InterpUnique(R, front, nodes, q, x);
  }

  lemma DistinctPrefix<F>(pts: seq<F>, n: nat)
    requires Distinct(pts) && n <= |pts|
    ensures Distinct(pts[..n])
  {
  }

  lemma InterpUnique<F(!new)>(R: Field<F>, pts: seq<F>, ys: seq<F>, q: seq<F>, x: F)
    requires IsField(R) && Distinct(pts) && |q| <= |pts| == |ys|
    requires forall i :: 0 <= i < |pts| ==> Ev(R, q, pts[i]) == ys[i]
    ensures Ev(R, q, x) == Ev(R, Interp(R, pts, ys), x)
  {
    InterpAgrees(R, pts, ys, q);
    AgreeEverywhere(R, q, Interp(R, pts, ys), pts, x);
  }

  lemma InterpAgrees<F(!new)>(R: Field<F>, pts: seq<F>, ys: seq<F>, q: seq<F>)
    requires IsField(R) && Distinct(pts) && |pts| == |ys|
    requires forall i :: 0 <= i < |pts| ==> Ev(R, q, pts[i]) == ys[i]
    ensures forall i :: 0 <= i < |pts| ==> Ev(R, q, pts[i]) == Ev(R, Interp(R, pts, ys), pts[i])
  {
    forall i | 0 <= i < |pts| ensures Ev(R, q, pts[i]) == Ev(R, Interp(R, pts, ys), pts[i]) {
      InterpLaw(R, pts, ys, i);
    }
  }

  ghost function Padded<F>(R: Field<F>, q: seq<F>, m: nat): (p: seq<F>)
    requires |q| <= m
    ensures |p| == m
    decreases m - |q|
  {
    if |q| == m then q else Padded(R, q + [R.zero], m)
  }

  lemma {:induction false} EvPadded<F(!new)>(R: Field<F>, q: seq<F>, m: nat, x: F)
    requires IsRing(R) && |q| <= m
    ensures Ev(R, Padded(R, q, m), x) == Ev(R, q, x)
    decreases m - |q|
  {
    if |q| < m {
      EvAppendZero(R, q, x);
      EvPadded(R, q + [R.zero], m, x);
    }
  }

  /** A codeword is the extension of its own first values. */
  lemma CodewordIsExtension<F(!new)>(R: Field<F>, pts: seq<F>, row: seq<F>, m: nat)
    requires IsField(R) && Distinct(pts) && m <= |row| <= |pts| && Codeword(R, pts, row, m)
    ensures row == Extended(R, pts, row[..m], |row|)
  {
    var q: seq<F> :| |q| <= m && Evaluates(R, pts, row, q);
    forall k | 0 <= k < |row| ensures row[k] == Extended(R, pts, row[..m], |row|)[k] {
      ExtensionUnique(R, pts, row[..m], q, pts[k]);
    }
  }

  // ----- Codewords form a ring -----

  /** Product of two polynomials. */
  ghost function Product<F>(R: Field<F>, p: seq<F>, q: seq<F>): (r: seq<F>)
    requires |q| > 0
    ensures |r| == if |p| == 0 then 0 else |p| + |q| - 1
  {
    if |p| == 0 then []
    else if |p| == 1 then Scaled(R, p[0], q)
    else AddSeq(R, Padded(R, Scaled(R, p[0], q), |p| + |q| - 1), [R.zero] + Product(R, p[1..], q))
  }

  lemma {:induction false} ProductLaw<F(!new)>(R: Field<F>, p: seq<F>, q: seq<F>, x: F)
    requires IsRing(R) && |q| > 0
    ensures Ev(R, Product(R, p, q), x) == R.mul(Ev(R, p, x), Ev(R, q, x))
  {
    if |p| == 0 {
      MulZero(R, Ev(R, q, x));
    } else {
      EvScale(R, p[0], q, x);
      if |p| == 1 {
        assert p[1..] == [];
        MulZero(R, x);
        assert Laws1(R, p[0]);
      } else {
        var rest, n := Product(R, p[1..], q), |p| + |q| - 1;
        ProductLaw(R, p[1..], q, x);
        EvPadded(R, Scaled(R, p[0], q), n, x);
        assert ([R.zero] + rest)[1..] == rest;
        EvAdd(R, Padded(R, Scaled(R, p[0], q), n), [R.zero] + rest, x);
        ProductStep(R, p[0], Ev(R, p[1..], x), Ev(R, q, x), x);
      }
    }
  }

  lemma ProductStep<F(!new)>(R: Field<F>, a: F, b: F, q: F, x: F)
    requires IsRing(R)
    ensures R.add(R.mul(a, q), R.add(R.zero, R.mul(x, R.mul(b, q)))) == R.mul(R.add(a, R.mul(x, b)), q)
  {
    Ring(R, A(M(V(0), V(1)), A(Z, M(V(2), M(V(3), V(1))))), M(A(V(0), M(V(2), V(3))), V(1)), [a, q, x, b]);
  }

  lemma CodewordAdd<F(!new)>(R: Field<F>, pts: seq<F>, a: seq<F>, b: seq<F>, m: nat)
    requires IsRing(R) && |a| == |b| <= |pts| && Codeword(R, pts, a, m) && Codeword(R, pts, b, m)
    ensures Codeword(R, pts, AddSeq(R, a, b), m)
  {
    var p: seq<F> :| |p| <= m && Evaluates(R, pts, a, p);
    var q: seq<F> :| |q| <= m && Evaluates(R, pts, b, q);
    var s := AddSeq(R, Padded(R, p, m), Padded(R, q, m));
    forall k | 0 <= k < |a| ensures AddSeq(R, a, b)[k] == Ev(R, s, pts[k]) {
      EvPadded(R, p, m, pts[k]);
      EvPadded(R, q, m, pts[k]);
      EvAdd(R, Padded(R, p, m), Padded(R, q, m), pts[k]);
    }
    assert Evaluates(R, pts, AddSeq(R, a, b), s);
  }

  lemma CodewordSub<F(!new)>(R: Field<F>, pts: seq<F>, a: seq<F>, b: seq<F>, m: nat)
    requires IsRing(R) && |a| == |b| <= |pts| && Codeword(R, pts, a, m) && Codeword(R, pts, b, m)
    ensures Codeword(R, pts, SubSeq(R, a, b), m)
  {
    var p: seq<F> :| |p| <= m && Evaluates(R, pts, a, p);
    var q: seq<F> :| |q| <= m && Evaluates(R, pts, b, q);
    var s := SubSeq(R, Padded(R, p, m), Padded(R, q, m));
    forall k | 0 <= k < |a| ensures SubSeq(R, a, b)[k] == Ev(R, s, pts[k]) {
      EvPadded(R, p, m, pts[k]);
      EvPadded(R, q, m, pts[k]);
      EvSub(R, Padded(R, p, m), Padded(R, q, m), pts[k]);
    }
    assert Evaluates(R, pts, SubSeq(R, a, b), s);
  }

  lemma CodewordScale<F(!new)>(R: Field<F>, pts: seq<F>, c: F, a: seq<F>, m: nat)
    requires IsRing(R) && |a| <= |pts| && Codeword(R, pts, a, m)
    ensures Codeword(R, pts, Scaled(R, c, a), m)
  {
    var p: seq<F> :| |p| <= m && Evaluates(R, pts, a, p);
    forall k | 0 <= k < |a| ensures Scaled(R, c, a)[k] == Ev(R, Scaled(R, c, p), pts[k]) {
      EvScale(R, c, p, pts[k]);
    }
    assert Evaluates(R, pts, Scaled(R, c, a), Scaled(R, c, p));
  }

  /** A product of codewords is a codeword of the added degrees. */
  lemma CodewordMul<F(!new)>(R: Field<F>, pts: seq<F>, a: seq<F>, b: seq<F>, m: nat, n: nat)
    requires IsRing(R) && |a| == |b| <= |pts| && m > 0 && n > 0
    requires Codeword(R, pts, a, m) && Codeword(R, pts, b, n)
    ensures Codeword(R, pts, MulSeq(R, a, b), m + n - 1)
  {
    var p: seq<F> :| |p| <= m && Evaluates(R, pts, a, p);
    var q: seq<F> :| |q| <= n && Evaluates(R, pts, b, q);
    var s := Product(R, p, Padded(R, q, n));
    forall k | 0 <= k < |a| ensures MulSeq(R, a, b)[k] == Ev(R, s, pts[k]) {
      EvPadded(R, q, n, pts[k]);
      ProductLaw(R, p, Padded(R, q, n), pts[k]);
    }
    assert Evaluates(R, pts, MulSeq(R, a, b), s);
  }

  lemma CodewordWiden<F(!new)>(R: Field<F>, pts: seq<F>, a: seq<F>, m: nat, n: nat)
    requires |a| <= |pts| && m <= n && Codeword(R, pts, a, m)
    ensures Codeword(R, pts, a, n)
  {
    var p: seq<F> :| |p| <= m && Evaluates(R, pts, a, p);
    assert |p| <= n && Evaluates(R, pts, a, p);
  }
}
