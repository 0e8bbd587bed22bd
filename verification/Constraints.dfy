/**
 Linear and quadratic constraints on the witness vector (src/sumcheck/constraints/mod.rs).
 */
module Constraints {
  import opened Fields
  import opened Sums

  /** One entry of the constraint matrix: `factor` times witness `witness` in row `constraint`. */
  datatype LhsTerm<F> = LhsTerm(constraint: nat, witnessIndex: nat, factor: F)

  datatype LinearConstraints<F> = LinearConstraints(lhs: seq<LhsTerm<F>>, rhs: seq<F>)

  /** W[x] * W[y] == W[z] */
  datatype QuadraticConstraint = QuadraticConstraint(x: nat, y: nat, z: nat)

  ghost predicate LinearInRange<F>(linear: LinearConstraints<F>, witnesses: nat) {
    forall i :: 0 <= i < |linear.lhs| ==>
      linear.lhs[i].constraint < |linear.rhs| && linear.lhs[i].witnessIndex < witnesses
  }

  ghost predicate QuadraticInRange(quadratic: seq<QuadraticConstraint>, witnesses: nat) {
    forall i :: 0 <= i < |quadratic| ==>
      quadratic[i].x < witnesses && quadratic[i].y < witnesses && quadratic[i].z < witnesses
  }

  /** Row c of the constraint matrix times the witness. */
  ghost function LhsSum<F>(R: Field<F>, lhs: seq<LhsTerm<F>>, w: seq<F>, c: int): F {
    if |lhs| == 0 then R.zero
    else
      var t, sum := lhs[|lhs| - 1], LhsSum(R, lhs[..|lhs| - 1], w, c);
      if t.constraint == c then R.add(sum, R.mul(t.factor, At(R, w, t.witnessIndex))) else sum
  }

  ghost predicate RowHolds<F>(R: Field<F>, linear: LinearConstraints<F>, w: seq<F>, c: int) {
    LhsSum(R, linear.lhs, w, c) == At(R, linear.rhs, c)
  }

  /** A * W == b */
  ghost predicate LinearHold<F>(R: Field<F>, linear: LinearConstraints<F>, w: seq<F>) {
    forall c :: 0 <= c < |linear.rhs| ==> RowHolds(R, linear, w, c)
  }

  ghost predicate QuadraticHold<F>(R: Field<F>, quadratic: seq<QuadraticConstraint>, w: seq<F>) {
    forall i :: 0 <= i < |quadratic| ==>
      var q := quadratic[i];
      R.mul(At(R, w, q.x), At(R, w, q.y)) == At(R, w, q.z)
  }

  // ----- Random combination of the rows -----

  /** The combination of the matrix entries, row c weighted by alpha c, applied to the witness. */
  ghost function AlphaLhs<F>(R: Field<F>, lhs: seq<LhsTerm<F>>, alphas: seq<F>, w: seq<F>): F {
    if |lhs| == 0 then R.zero
    else
      var t := lhs[|lhs| - 1];
      R.add(AlphaLhs(R, lhs[..|lhs| - 1], alphas, w),
        R.mul(R.mul(At(R, alphas, t.constraint), t.factor), At(R, w, t.witnessIndex)))
  }

  ghost function LhsRow<F>(R: Field<F>, lhs: seq<LhsTerm<F>>, alphas: seq<F>, w: seq<F>, c: int): F {
    R.mul(LhsSum(R, lhs, w, c), At(R, alphas, c))
  }

  ghost function LhsRows<F>(R: Field<F>, lhs: seq<LhsTerm<F>>, alphas: seq<F>, w: seq<F>): int -> F {
    (c: int) => LhsRow(R, lhs, alphas, w, c)
  }

  ghost function RhsRow<F>(R: Field<F>, rhs: seq<F>, alphas: seq<F>, c: int): F {
    R.mul(At(R, rhs, c), At(R, alphas, c))
  }

  ghost function RhsRows<F>(R: Field<F>, rhs: seq<F>, alphas: seq<F>): int -> F {
    (c: int) => RhsRow(R, rhs, alphas, c)
  }

  /** The combination, summed row by row. */
  lemma {:induction false} AlphaLhsByRows<F(!new)>(R: Field<F>, lhs: seq<LhsTerm<F>>, alphas: seq<F>, w: seq<F>, n: nat)
    requires IsRing(R)
    requires forall i :: 0 <= i < |lhs| ==> lhs[i].constraint < n
    ensures AlphaLhs(R, lhs, alphas, w) == Sum(R, n, LhsRows(R, lhs, alphas, w))
  {
    if |lhs| == 0 {
      forall c | 0 <= c < n ensures LhsRows(R, lhs, alphas, w)(c) == R.zero {
        MulZero(R, At(R, alphas, c));
      }
      SumZero(R, n, LhsRows(R, lhs, alphas, w));
    } else {
      var last := |lhs| - 1;
      var t, rest := lhs[last], lhs[..last];
      AlphaLhsByRows(R, rest, alphas, w, n);
      var term := R.mul(R.mul(At(R, alphas, t.constraint), t.factor), At(R, w, t.witnessIndex));
      var extra := (c: int) => if c == t.constraint then term else R.zero;
      forall c | 0 <= c < n
        ensures LhsRows(R, lhs, alphas, w)(c) == R.add(LhsRows(R, rest, alphas, w)(c), extra(c))
      {
        LhsRowStep(R, LhsSum(R, rest, w, c), t.factor, At(R, w, t.witnessIndex), At(R, alphas, c));
      }
      SumAdd(R, n, LhsRows(R, rest, alphas, w), extra, LhsRows(R, lhs, alphas, w));
      SumSingle(R, n, extra, t.constraint);
    }
  }

  lemma LhsRowStep<F(!new)>(R: Field<F>, s: F, k: F, v: F, a: F)
    requires IsRing(R)
    ensures R.mul(R.add(s, R.mul(k, v)), a) == R.add(R.mul(s, a), R.mul(R.mul(a, k), v))
    ensures R.mul(s, a) == R.add(R.mul(s, a), R.zero)
  {
    Ring(R, M(A(V(0), M(V(1), V(2))), V(3)), A(M(V(0), V(3)), M(M(V(3), V(1)), V(2))), [s, k, v, a]);
    assert Laws1(R, R.mul(s, a));
  }

  /** If every row holds, the combination of the left hand sides is the combination of the right hand sides. */
  lemma AlphaCombination<F(!new)>(R: Field<F>, linear: LinearConstraints<F>, alphas: seq<F>, w: seq<F>)
    requires IsRing(R) && LinearInRange(linear, |w|) && LinearHold(R, linear, w)
    ensures AlphaLhs(R, linear.lhs, alphas, w) == Sum(R, |linear.rhs|, RhsRows(R, linear.rhs, alphas))
  {
    var n := |linear.rhs|;
    AlphaLhsByRows(R, linear.lhs, alphas, w, n);
    forall c | 0 <= c < n ensures LhsRows(R, linear.lhs, alphas, w)(c) == RhsRows(R, linear.rhs, alphas)(c) {
      assert RowHolds(R, linear, w, c);
    }
    SumCong(R, n, LhsRows(R, linear.lhs, alphas, w), RhsRows(R, linear.rhs, alphas));
  }

  // ----- One violated row -----

  ghost predicate ViolatesRow<F>(R: Field<F>, linear: LinearConstraints<F>, w: seq<F>, k: nat) {
    k < |linear.rhs| && forall c :: 0 <= c < |linear.rhs| ==> (RowHolds(R, linear, w, c) <==> c != k)
  }

  ghost function RowGap<F>(R: Field<F>, linear: LinearConstraints<F>, alphas: seq<F>, w: seq<F>): int -> F {
    (c: int) => R.sub(LhsRow(R, linear.lhs, alphas, w, c), RhsRow(R, linear.rhs, alphas, c))
  }

  /** If exactly one row is violated and its weight is not zero, the combinations of the two sides differ. */
  lemma OneRowShows<F(!new)>(R: Field<F>, linear: LinearConstraints<F>, alphas: seq<F>, w: seq<F>, k: nat)
    requires IsField(R) && LinearInRange(linear, |w|) && ViolatesRow(R, linear, w, k) && At(R, alphas, k) != R.zero
    ensures AlphaLhs(R, linear.lhs, alphas, w) != Sum(R, |linear.rhs|, RhsRows(R, linear.rhs, alphas))
  {
    var n, gap := |linear.rhs|, RowGap(R, linear, alphas, w);
    AlphaLhsByRows(R, linear.lhs, alphas, w, n);
    SumSub(R, n, LhsRows(R, linear.lhs, alphas, w), RhsRows(R, linear.rhs, alphas), gap);
    forall c | 0 <= c < n && c != k ensures gap(c) == R.zero {
      assert RowHolds(R, linear, w, c);
      SubZero(R, LhsRow(R, linear.lhs, alphas, w, c), RhsRow(R, linear.rhs, alphas, c));
    }
    SumSingle(R, n, gap, k);
    GapIsNotZero(R, linear, alphas, w, k);
    SubZero(R, Sum(R, n, LhsRows(R, linear.lhs, alphas, w)), Sum(R, n, RhsRows(R, linear.rhs, alphas)));
  }

  lemma GapIsNotZero<F(!new)>(R: Field<F>, linear: LinearConstraints<F>, alphas: seq<F>, w: seq<F>, k: nat)
    requires IsField(R) && !RowHolds(R, linear, w, k) && At(R, alphas, k) != R.zero
    ensures RowGap(R, linear, alphas, w)(k) != R.zero
  {
    var l, r, a := LhsSum(R, linear.lhs, w, k), At(R, linear.rhs, k), At(R, alphas, k);
    Ring(R, S(M(V(0), V(1)), M(V(2), V(1))), M(V(1), S(V(0), V(2))), [l, a, r]);
    SubZero(R, l, r);
    if RowGap(R, linear, alphas, w)(k) == R.zero {
      NoZeroDivisors(R, a, R.sub(l, r));
    }
  }
}
