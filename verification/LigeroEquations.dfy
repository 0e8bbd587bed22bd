/**
 What the checks of the Ligero verifier mean (src/ligero/verifier.rs), for any proof: equations between sums over the
 requested columns and values of polynomials. On an honestly built tableau the quadratic check finds violations.
 */
module LigeroEquations {
  import opened Fields
  import opened Sums
  import opened Dots
  import opened Polynomials
  import opened Constraints
  import opened Tableau
  import opened LigeroRows
  import opened InnerProduct
  import opened LigeroChecks

  // ----- The equations -----

  /** The value at x of the polynomial of low degree through the nodes. */
  ghost function ValueAt<F>(R: Field<F>, pts: seq<F>, nodes: seq<F>, x: F): F
    requires |nodes| <= |pts|
  {
    Ev(R, Interp(R, pts[..|nodes|], nodes), x)
  }

  /** The evaluation point of a requested column. */
  function PointOf<F>(L: TableauLayout, pts: seq<F>, index: nat): F
    requires L.Valid() && |pts| >= L.NumColumns() && index < L.NumColumns() - L.Dblock()
  {
    pts[L.Dblock() + index]
  }

  /** u_i * P[3 + i][j] */
  ghost function BlindedTerms<F>(R: Field<F>, P: seq<seq<F>>, u: seq<F>, j: int): int -> F {
    (i: int) => R.mul(At(R, u, i), Cell(R, P, 3 + i, j))
  }

  /** The chunk i of the inner product vector, extended to the column, times P[3 + i][j] */
  ghost function ChunkTerms<F>(R: Field<F>, pts: seq<F>, L: TableauLayout, P: seq<seq<F>>, a: seq<F>, x: F,
                               j: int): int -> F
    requires L.Valid() && |pts| >= L.NumColumns()
  {
    (i: int) => if i < 0 then R.zero else R.mul(ValueAt(R, pts, ChunkNodes(R, L, a, i), x), Cell(R, P, 3 + i, j))
  }

  /** u_i * (z - x * y) for the three copies in triple i */
  ghost function QuadraticTerms<F>(R: Field<F>, L: TableauLayout, P: seq<seq<F>>, u: seq<F>, j: int): int -> F
    requires L.Valid()
  {
    var first, t := 3 + L.NumLinearConstraintRows(), L.NumQuadraticTriples();
    (i: int) =>
      R.mul(At(R, u, i),
      R.sub(Cell(R, P, first + 2 * t + i, j), R.mul(Cell(R, P, first + i, j), Cell(R, P, first + t + i, j))))
  }

  ghost predicate LowDegreeEquation<F>(R: Field<F>, pts: seq<F>, L: TableauLayout, P: seq<seq<F>>, u: seq<F>,
                                       proof: seq<F>,
                                       index: nat, j: nat)
    requires L.Valid() && |pts| >= L.NumColumns() && |proof| == L.BlockSize() && index < L.NumColumns() - L.Dblock()
  {
    R.add(Cell(R, P, 0, j), Sum(R, L.NumConstraintRows(), BlindedTerms(R, P, u, j)))
      == ValueAt(R, pts, proof, PointOf(L, pts, index))
  }

  ghost predicate DotEquation<F>(R: Field<F>, pts: seq<F>, L: TableauLayout, P: seq<seq<F>>, a: seq<F>, proof: seq<F>,
                                 index: nat, j: nat)
    requires L.Valid() && |pts| >= L.NumColumns() && |proof| == L.Dblock() && index < L.NumColumns() - L.Dblock()
  {
    var x := PointOf(L, pts, index);
    R.add(Cell(R, P, 1, j), Sum(R, L.NumConstraintRows(), ChunkTerms(R, pts, L, P, a, x, j)))
      == ValueAt(R, pts, proof, x)
  }

  /** The polynomial runs through the part `low`, zeros at the witness positions, and the part `high`. */
  ghost predicate QuadraticEquation<F>(R: Field<F>, pts: seq<F>, L: TableauLayout, P: seq<seq<F>>, u: seq<F>,
                                       low: seq<F>, high: seq<F>,
                                       index: nat, j: nat)
    requires L.Valid() && |pts| >= L.NumColumns() && index < L.NumColumns() - L.Dblock()
    requires |low| == L.NumRequestedColumns() && |high| == L.Dblock() - L.BlockSize()
  {
    var nodes := low + seq(L.WitnessesPerRow(), (i: nat) => R.zero) + high;
    R.add(Cell(R, P, 2, j), Sum(R, L.NumQuadraticTriples(), QuadraticTerms(R, L, P, u, j)))
      == ValueAt(R, pts, nodes, PointOf(L, pts, index))
  }

  /** The witness positions of the dot proof add up to the combination of the right hand sides. */
  ghost predicate ProductEquation<F>(R: Field<F>, L: TableauLayout, linear: LinearConstraints<F>, alphas: seq<F>,
                                     proof: seq<F>) {
    Sum(R, L.WitnessesPerRow(), (k: int) => At(R, proof, L.NumRequestedColumns() + k))
      == Sum(R, |linear.rhs|, (c: int) => R.mul(At(R, linear.rhs, c), At(R, alphas, c)))
  }

  // ----- The checks are these equations -----

  lemma {:induction false} LdtCellSum<F(!new)>(R: Field<F>, P: seq<seq<F>>, u: seq<F>, n: nat, j: int)
    requires IsRing(R)
    ensures LdtCell(R, P, u, n, j) == R.add(Cell(R, P, 0, j), Sum(R, n, BlindedTerms(R, P, u, j)))
  {
    if n > 0 {
      LdtCellSum(R, P, u, n - 1, j);
      assert BlindedTerms(R, P, u, j)(n - 1) == R.mul(At(R, u, n - 1), Cell(R, P, 3 + (n - 1), j));
      assert Laws3(R, Cell(R, P, 0, j), Sum(R, n - 1, BlindedTerms(R, P, u, j)), BlindedTerms(R, P, u, j)(n - 1));
    } else {
      assert Laws1(R, Cell(R, P, 0, j));
    }
  }

  lemma {:induction false} DotCellSum<F(!new)>(R: Field<F>, P: seq<seq<F>>, E: seq<seq<F>>, n: nat, j: int, g: int -> F)
    requires IsRing(R) && forall i :: 0 <= i < n ==> g(i) == R.mul(Cell(R, E, i, j), Cell(R, P, 3 + i, j))
    ensures DotCell(R, P, E, n, j) == R.add(Cell(R, P, 1, j), Sum(R, n, g))
  {
    if n > 0 {
      DotCellSum(R, P, E, n - 1, j, g);
      assert Laws3(R, Cell(R, P, 1, j), Sum(R, n - 1, g), g(n - 1));
    } else {
      assert Laws1(R, Cell(R, P, 1, j));
    }
  }

  lemma {:induction false} QuadCellSum<F(!new)>(R: Field<F>, L: TableauLayout, P: seq<seq<F>>, u: seq<F>, n: nat,
                                                j: int)
    requires IsRing(R) && L.Valid()
    ensures QuadCell(R, P, u, 3 + L.NumLinearConstraintRows(), L.NumQuadraticTriples(), n, j)
      == R.add(Cell(R, P, 2, j), Sum(R, n, QuadraticTerms(R, L, P, u, j)))
  {
    if n > 0 {
      var m := n - 1;
      QuadCellSum(R, L, P, u, m, j);
      NextQuadTerm(R, L, P, u, m, j, Cell(R, P, 2, j));
      assert n == m + 1;
    } else {
      assert Laws1(R, Cell(R, P, 2, j));
    }
  }

  lemma NextQuadTerm<F(!new)>(R: Field<F>, L: TableauLayout, P: seq<seq<F>>, u: seq<F>, m: nat, j: int, c: F)
    requires IsRing(R) && L.Valid()
    ensures R.add(c, Sum(R, m + 1, QuadraticTerms(R, L, P, u, j)))
      == R.add(R.add(c, Sum(R, m, QuadraticTerms(R, L, P, u, j))),
        R.mul(At(R, u, m), TripleCell(R, P, 3 + L.NumLinearConstraintRows(), L.NumQuadraticTriples(), m, j)))
  {
    var g := QuadraticTerms(R, L, P, u, j);
    assert g(m) == R.mul(At(R, u, m), TripleCell(R, P, 3 + L.NumLinearConstraintRows(), L.NumQuadraticTriples(), m, j));
    assert Laws3(R, c, Sum(R, m, g), g(m));
  }

  /** An extended row at a requested column. */
  lemma GatheredValue<F>(R: Field<F>, pts: seq<F>, L: TableauLayout, nodes: seq<F>, indices: seq<nat>, j: nat)
    requires L.Valid() && |pts| >= L.NumColumns() >= |nodes| && IndicesInRange(indices, L.NumColumns() - L.Dblock())
      && j < |indices|
    ensures Gather(R, L, Extended(R, pts, nodes, L.NumColumns()), indices)[j]
      == ValueAt(R, pts, nodes, PointOf(L, pts, indices[j]))
  {
  }

  lemma LowDegreeMeans<F(!new)>(R: Field<F>, pts: seq<F>, L: TableauLayout, P: seq<seq<F>>, indices: seq<nat>,
                                u: seq<F>, proof: seq<F>)
    requires IsRing(R) && L.Valid() && |pts| >= L.NumColumns() && |proof| == L.BlockSize()
    requires IndicesInRange(indices, L.NumColumns() - L.Dblock())
    ensures LowDegreeCheck(R, pts, L, P, indices, u, proof)
      <==> forall j :: 0 <= j < |indices| ==> LowDegreeEquation(R, pts, L, P, u, proof, indices[j], j)
  {
    var l, r :=
      LdtRow(R, P, u, L.NumConstraintRows(), |indices|), Gather(R, L, Extended(R, pts, proof, L.NumColumns()), indices);
    forall j | 0 <= j < |indices| ensures l[j] == r[j] <==> LowDegreeEquation(R, pts, L, P, u, proof, indices[j], j) {
      LdtCellSum(R, P, u, L.NumConstraintRows(), j);
      GatheredValue(R, pts, L, proof, indices, j);
    }
  }

  lemma DotRowMeans<F(!new)>(R: Field<F>, pts: seq<F>, L: TableauLayout, P: seq<seq<F>>, indices: seq<nat>, a: seq<F>,
                             proof: seq<F>)
    requires IsRing(R) && L.Valid() && |pts| >= L.NumColumns() && |proof| == L.Dblock()
    requires IndicesInRange(indices, L.NumColumns() - L.Dblock())
    ensures DotRowCheck(R, pts, L, P, indices, a, proof)
      <==> forall j :: 0 <= j < |indices| ==> DotEquation(R, pts, L, P, a, proof, indices[j], j)
  {
    var E := GatherRows(R, L, ChunkRows(R, pts, L, a, L.NumColumns()), indices);
    var l, r :=
      DotRow(R, P, E, L.NumConstraintRows(), |indices|), Gather(R, L, Extended(R, pts, proof, L.NumColumns()), indices);
    forall j | 0 <= j < |indices| ensures l[j] == r[j] <==> DotEquation(R, pts, L, P, a, proof, indices[j], j) {
      DotColumnMeans(R, pts, L, P, indices, a, j);
      GatheredValue(R, pts, L, proof, indices, j);
    }
  }

  lemma DotColumnMeans<F(!new)>(R: Field<F>, pts: seq<F>, L: TableauLayout, P: seq<seq<F>>, indices: seq<nat>,
                                a: seq<F>, j: nat)
    requires IsRing(R) && L.Valid() && |pts| >= L.NumColumns() && IndicesInRange(indices, L.NumColumns() - L.Dblock())
      && j < |indices|
    ensures DotCell(R, P, GatherRows(R, L, ChunkRows(R, pts, L, a, L.NumColumns()), indices), L.NumConstraintRows(), j)
      == R.add(Cell(R, P, 1, j),
        Sum(R, L.NumConstraintRows(), ChunkTerms(R, pts, L, P, a, PointOf(L, pts, indices[j]), j)))
  {
    var rows := ChunkRows(R, pts, L, a, L.NumColumns());
    var E, g := GatherRows(R, L, rows, indices), ChunkTerms(R, pts, L, P, a, PointOf(L, pts, indices[j]), j);
    forall i | 0 <= i < L.NumConstraintRows() ensures g(i) == R.mul(Cell(R, E, i, j), Cell(R, P, 3 + i, j)) {
      assert E[i] == Gather(R, L, rows[i], indices);
      GatheredValue(R, pts, L, ChunkNodes(R, L, a, i), indices, j);
    }
    DotCellSum(R, P, E, L.NumConstraintRows(), j, g);
  }

  lemma QuadraticMeans<F(!new)>(R: Field<F>, pts: seq<F>, L: TableauLayout, P: seq<seq<F>>, indices: seq<nat>,
                                u: seq<F>,
                                low: seq<F>, high: seq<F>)
    requires IsRing(R) && L.Valid() && |pts| >= L.NumColumns() && IndicesInRange(indices, L.NumColumns() - L.Dblock())
    requires |low| == L.NumRequestedColumns() && |high| == L.Dblock() - L.BlockSize()
    ensures QuadraticCheck(R, pts, L, P, indices, u, Stitched(R, L, low, high))
      <==> forall j :: 0 <= j < |indices| ==> QuadraticEquation(R, pts, L, P, u, low, high, indices[j], j)
  {
    var t, proof := L.NumQuadraticTriples(), Stitched(R, L, low, high);
    var l := QuadRow(R, P, u, 3 + L.NumLinearConstraintRows(), t, t, |indices|);
    var r := Gather(R, L, Extended(R, pts, proof, L.NumColumns()), indices);
    assert proof == low + seq(L.WitnessesPerRow(), (i: nat) => R.zero) + high;
    forall j | 0 <= j < |indices| ensures l[j] == r[j]
      <==> QuadraticEquation(R, pts, L, P, u, low, high, indices[j], j) {
      QuadCellSum(R, L, P, u, t, j);
      GatheredValue(R, pts, L, proof, indices, j);
    }
  }

  lemma {:induction false} RangeSumIsSum<F>(R: Field<F>, v: seq<F>, start: nat, n: nat, g: int -> F)
    requires forall k :: 0 <= k < n ==> g(k) == At(R, v, start + k)
    ensures RangeSum(R, v, start, n) == Sum(R, n, g)
  {
    if n > 0 {
      RangeSumIsSum(R, v, start, n - 1, g);
    }
  }

  lemma ProductMeans<F(!new)>(R: Field<F>, L: TableauLayout, linear: LinearConstraints<F>, alphas: seq<F>,
                              proof: seq<F>)
    requires IsRing(R)
    ensures DotProductCheck(R, L, linear, alphas, proof) <==> ProductEquation(R, L, linear, alphas, proof)
  {
    RangeSumIsSum(R, proof, L.NumRequestedColumns(), L.WitnessesPerRow(), (k: int) =>
      At(R, proof, L.NumRequestedColumns() + k));
    var g := (c: int) => R.mul(At(R, linear.rhs, c), At(R, alphas, c));
    forall c | 0 <= c < |linear.rhs| ensures RhsRows(R, linear.rhs, alphas)(c) == g(c) {
      assert RhsRows(R, linear.rhs, alphas)(c) == RhsRow(R, linear.rhs, alphas, c);
    }
    SumCong(R, |linear.rhs|, RhsRows(R, linear.rhs, alphas), g);
  }

  // ----- Rows that agree in many columns -----

  ghost predicate NoRepeats(cols: seq<nat>) {
    forall i, j :: 0 <= i < j < |cols| ==> cols[i] != cols[j]
  }

  ghost predicate AgreeOn<F>(a: seq<F>, b: seq<F>, cols: seq<nat>) {
    forall i :: 0 <= i < |cols| ==> cols[i] < |a| && cols[i] < |b| && a[cols[i]] == b[cols[i]]
  }

  /** Two rows of degree below m that agree in m columns are equal. */
  lemma AgreeingCodewords<F(!new)>(R: Field<F>, pts: seq<F>, a: seq<F>, b: seq<F>, m: nat, cols: seq<nat>)
    requires IsField(R) && Distinct(pts) && |a| == |b| <= |pts| && Codeword(R, pts, a, m) && Codeword(R, pts, b, m)
    requires m <= |cols| && NoRepeats(cols) && AgreeOn(a, b, cols)
    ensures a == b
  {
    var p: seq<F> :| |p| <= m && Evaluates(R, pts, a, p);
    var q: seq<F> :| |q| <= m && Evaluates(R, pts, b, q);
    var chosen := seq(|cols|, (i: nat) requires i < |cols| && AgreeOn(a, b, cols) => pts[cols[i]]);
    var padded := Padded(R, p, m);
    forall i | 0 <= i < |chosen| ensures Ev(R, q, chosen[i]) == Ev(R, padded, chosen[i]) {
      EvPadded(R, p, m, chosen[i]);
    }
    forall k | 0 <= k < |a| ensures a[k] == b[k] {
      AgreeEverywhere(R, q, padded, chosen, pts[k]);
      EvPadded(R, p, m, pts[k]);
    }
  }

  // ----- Violations -----

  /** A witness position where the quadratic row does not vanish. */
  ghost predicate Bad<F>(R: Field<F>, L: TableauLayout, q: seq<F>, c: nat) {
    L.NumRequestedColumns() <= c < L.BlockSize() && At(R, q, c) != R.zero
  }

  ghost function BadCount<F>(R: Field<F>, L: TableauLayout, q: seq<F>, n: nat): nat {
    if n == 0 then 0 else BadCount(R, L, q, n - 1) + if Bad(R, L, q, n - 1) then 1 else 0
  }

  /** The other columns among the first n. */
  ghost function OtherColumns<F>(R: Field<F>, L: TableauLayout, q: seq<F>, n: nat): (cols: seq<nat>)
    ensures |cols| + BadCount(R, L, q, n) == n && NoRepeats(cols)
    ensures forall i :: 0 <= i < |cols| ==> cols[i] < n && !Bad(R, L, q, cols[i])
  {
    if n == 0 then []
    else if Bad(R, L, q, n - 1) then OtherColumns(R, L, q, n - 1)
    else OtherColumns(R, L, q, n - 1) + [n - 1]
  }

  /** The columns without violations, and the requested ones. */
  lemma JoinedColumns(cols: seq<nat>, first: nat, indices: seq<nat>) returns (joined: seq<nat>)
    requires NoRepeats(cols) && NoRepeats(indices) && forall i :: 0 <= i < |cols| ==> cols[i] < first
    ensures |joined| == |cols| + |indices| && NoRepeats(joined)
    ensures forall i :: 0 <= i < |joined| ==> joined[i] == if i < |cols| then cols[i] else first + indices[i - |cols|]
  {
    joined := cols + seq(|indices|, (j: nat) requires j < |indices| => first + indices[j]);
  }

  /**
   On a good tableau with at most as many violations as requested columns, the quadratic check finds any violation.
   */
  lemma QuadraticCheckFinds<F(!new)>(R: Field<F>, pts: seq<F>, L: TableauLayout, full: seq<F>, T: seq<seq<F>>,
                                     indices: seq<nat>, u: seq<F>)
    requires IsField(R) && Distinct(pts) && L.Valid() && |pts| >= L.NumColumns() && GoodTableau(R, pts, L, full, T)
    requires IndicesInRange(indices, L.NumColumns() - L.Dblock()) && NoRepeats(indices)
    requires BadCount(R, L, QuadraticProof(R, L, T, u), L.Dblock()) <= |indices|
    ensures var q := QuadraticProof(R, L, T, u);
      var sent := Stitched(R, L, q[..L.NumRequestedColumns()], q[L.BlockSize()..]);
      QuadraticCheck(R, pts, L, GatherRows(R, L, T, indices), indices, u, sent)
      <==> forall c :: L.NumRequestedColumns() <= c < L.BlockSize() ==> q[c] == R.zero
  {
    var q := QuadraticProof(R, L, T, u);
    var sent := Stitched(R, L, q[..L.NumRequestedColumns()], q[L.BlockSize()..]);
    if forall c :: L.NumRequestedColumns() <= c < L.BlockSize() ==> q[c] == R.zero {
      assert sent == q;
      QuadraticCheckPasses(R, pts, L, full, T, indices, u);
    }
    if QuadraticCheck(R, pts, L, GatherRows(R, L, T, indices), indices, u, sent) {
      AcceptedRowIsSent(R, pts, L, full, T, indices, u, q, sent);
    }
  }

  lemma AcceptedRowIsSent<F(!new)>(R: Field<F>, pts: seq<F>, L: TableauLayout, full: seq<F>, T: seq<seq<F>>,
                                   indices: seq<nat>, u: seq<F>,
                                   q: seq<F>, sent: seq<F>)
    requires IsField(R) && Distinct(pts) && L.Valid() && |pts| >= L.NumColumns() && GoodTableau(R, pts, L, full, T)
    requires IndicesInRange(indices, L.NumColumns() - L.Dblock()) && NoRepeats(indices)
    requires q == QuadraticProof(R, L, T, u) && BadCount(R, L, q, L.Dblock()) <= |indices|
    requires sent == Stitched(R, L, q[..L.NumRequestedColumns()], q[L.BlockSize()..])
    requires QuadraticCheck(R, pts, L, GatherRows(R, L, T, indices), indices, u, sent)
    ensures sent == q
  {
    var x, t, ncol := 3 + L.NumLinearConstraintRows(), L.NumQuadraticTriples(), L.NumColumns();
    var row, ext := QuadRow(R, T, u, x, t, t, ncol), Extended(R, pts, sent, ncol);
    QuadRowCodeword(R, pts, L, T, u, x, t, t);
    ExtendedIsCodeword(R, pts, sent, ncol);
    QuadGathered(R, L, T, indices, u, x, t);
    assert q == row[..L.Dblock()] && sent == ext[..L.Dblock()];
    RowsAgree(R, pts, L, indices, q, sent, row, ext);
  }

  lemma RowsAgree<F(!new)>(R: Field<F>, pts: seq<F>, L: TableauLayout, indices: seq<nat>, q: seq<F>, sent: seq<F>,
                           row: seq<F>, ext: seq<F>)
    requires IsField(R) && Distinct(pts) && L.Valid() && |pts| >= L.NumColumns() && |row| == |ext| == L.NumColumns()
    requires IndicesInRange(indices, L.NumColumns() - L.Dblock()) && NoRepeats(indices)
    requires Codeword(R, pts, row, L.Dblock()) && Codeword(R, pts, ext, L.Dblock())
    requires q == row[..L.Dblock()] && sent == ext[..L.Dblock()] && BadCount(R, L, q, L.Dblock()) <= |indices|
    requires sent == Stitched(R, L, q[..L.NumRequestedColumns()], q[L.BlockSize()..])
    requires Gather(R, L, row, indices) == Gather(R, L, ext, indices)
    ensures sent == q
  {
    var others := OtherColumns(R, L, q, L.Dblock());
    var cols := JoinedColumns(others, L.Dblock(), indices);
    forall i | 0 <= i < |cols| ensures cols[i] < |row| && row[cols[i]] == ext[cols[i]] {
      if i < |others| {
        NotBad(R, L, q, sent, others[i]);
        assert row[others[i]] == q[others[i]] && ext[others[i]] == sent[others[i]];
      } else {
        var j := i - |others|;
        assert Gather(R, L, row, indices)[j] == Gather(R, L, ext, indices)[j];
      }
    }
    AgreeingCodewords(R, pts, row, ext, L.Dblock(), cols);
  }

  lemma NotBad<F>(R: Field<F>, L: TableauLayout, q: seq<F>, sent: seq<F>, c: nat)
    requires L.Valid() && |q| == L.Dblock() && c < L.Dblock() && !Bad(R, L, q, c)
    requires sent == Stitched(R, L, q[..L.NumRequestedColumns()], q[L.BlockSize()..])
    ensures sent[c] == q[c]
  {
  }

  // ----- One violated constraint -----

  /** Constraint k holds of w, or there is no such constraint. */
  ghost predicate ConstraintHolds<F>(R: Field<F>, quadratic: seq<QuadraticConstraint>, w: seq<F>, k: nat) {
    k < |quadratic| ==> R.mul(At(R, w, quadratic[k].x), At(R, w, quadratic[k].y)) == At(R, w, quadratic[k].z)
  }

  ghost predicate ViolatesOnly<F>(R: Field<F>, quadratic: seq<QuadraticConstraint>, w: seq<F>, v: nat) {
    !ConstraintHolds(R, quadratic, w, v) && forall k: nat :: k != v ==> ConstraintHolds(R, quadratic, w, k)
  }

  lemma TripleIs<F(!new)>(R: Field<F>, pts: seq<F>, L: TableauLayout, w: seq<F>, quadratic: seq<QuadraticConstraint>,
                          T: seq<seq<F>>, i: nat, j: nat)
    requires IsRing(R) && L.Valid() && |pts| >= L.NumColumns()
      && GoodTableau(R, pts, L, FullWitness(R, L, w, quadratic), T)
    requires i < L.NumQuadraticTriples() && j < L.WitnessesPerRow()
    ensures TripleCell(R, T, 3 + L.NumLinearConstraintRows(), L.NumQuadraticTriples(), i, L.NumRequestedColumns() + j)
      == R.zero
      <==> ConstraintHolds(R, quadratic, w, i * L.WitnessesPerRow() + j)
  {
    var k := i * L.WitnessesPerRow() + j;
    CopyCell(R, pts, L, w, quadratic, T, 0, i, j);
    CopyCell(R, pts, L, w, quadratic, T, 1, i, j);
    CopyCell(R, pts, L, w, quadratic, T, 2, i, j);
    var x, y, z := Copy(R, w, quadratic, 0, k), Copy(R, w, quadratic, 1, k), Copy(R, w, quadratic, 2, k);
    MulZero(R, R.zero);
    DifferenceIsZero(R, z, R.mul(x, y));
  }

  lemma DifferenceIsZero<F(!new)>(R: Field<F>, a: F, b: F)
    requires IsRing(R)
    ensures R.sub(a, b) == R.zero <==> a == b
  {
    if R.sub(a, b) == R.zero {
      SubZero(R, a, b);
    }
    assert Laws1(R, b);
  }

  /** With every constraint but the one at row i and position j satisfied, only that triple does not vanish. */
  lemma OneViolatedTriple<F(!new)>(R: Field<F>, pts: seq<F>, L: TableauLayout, w: seq<F>,
                                   quadratic: seq<QuadraticConstraint>,
                                   T: seq<seq<F>>, i: nat, j: nat, m: nat, c: nat)
    requires IsField(R) && L.Valid() && |pts| >= L.NumColumns()
      && GoodTableau(R, pts, L, FullWitness(R, L, w, quadratic), T)
    requires j < L.WitnessesPerRow() && m < L.NumQuadraticTriples() && c < L.WitnessesPerRow()
    requires ViolatesOnly(R, quadratic, w, i * L.WitnessesPerRow() + j)
    ensures TripleCell(R, T, 3 + L.NumLinearConstraintRows(), L.NumQuadraticTriples(), m, L.NumRequestedColumns() + c)
      == R.zero
      <==> m != i || c != j
  {
    TripleIs(R, pts, L, w, quadratic, T, m, c);
    if m != i || c != j {
      OnePosition(m, c, i, j, L.WitnessesPerRow());
    }
  }

  ghost predicate TripleVanishes<F>(R: Field<F>, T: seq<seq<F>>, x: nat, t: nat, m: nat, c: int) {
    TripleCell(R, T, x, t, m, c) == R.zero
  }

  lemma {:induction false} OneViolationCell<F(!new)>(R: Field<F>, T: seq<seq<F>>, u: seq<F>, x: nat, t: nat, n: nat,
                                                     c: int, i: nat, hit: bool)
    requires IsField(R) && Cell(R, T, 2, c) == R.zero && At(R, u, i) != R.zero
    requires forall m: nat :: m < n ==> (TripleVanishes(R, T, x, t, m, c) <==> !(hit && m == i))
    ensures QuadCell(R, T, u, x, t, n, c) == R.zero <==> !(hit && i < n)
    decreases n
  {
    if n > 0 {
      OneViolationCell(R, T, u, x, t, n - 1, c, i, hit);
      assert TripleVanishes(R, T, x, t, n - 1, c) <==> !(hit && n - 1 == i);
      CellStep(R, QuadCell(R, T, u, x, t, n - 1, c), At(R, u, n - 1), TripleCell(R, T, x, t, n - 1, c));
    }
  }

  lemma OneViolationAt<F(!new)>(R: Field<F>, pts: seq<F>, L: TableauLayout, w: seq<F>,
                                quadratic: seq<QuadraticConstraint>,
                                T: seq<seq<F>>, u: seq<F>, i: nat, j: nat, c: nat)
    requires IsField(R) && L.Valid() && |pts| >= L.NumColumns()
      && GoodTableau(R, pts, L, FullWitness(R, L, w, quadratic), T)
    requires i < L.NumQuadraticTriples() && j < L.WitnessesPerRow() && c < L.WitnessesPerRow() && At(R, u, i) != R.zero
    requires ViolatesOnly(R, quadratic, w, i * L.WitnessesPerRow() + j)
    ensures QuadraticProof(R, L, T, u)[L.NumRequestedColumns() + c] == R.zero <==> c != j
  {
    var x, t, at := 3 + L.NumLinearConstraintRows(), L.NumQuadraticTriples(), L.NumRequestedColumns() + c;
    forall m: nat | m < t ensures TripleVanishes(R, T, x, t, m, at) <==> !(c == j && m == i) {
      OneViolatedTriple(R, pts, L, w, quadratic, T, i, j, m, c);
    }
    assert Cell(R, T, 2, at) == At(R, T[2], at);
    OneViolationCell(R, T, u, x, t, t, at, i, c == j);
  }

  lemma CellStep<F(!new)>(R: Field<F>, before: F, u: F, triple: F)
    requires IsField(R)
    ensures triple == R.zero ==> R.add(before, R.mul(u, triple)) == before
    ensures before == R.zero && u != R.zero && triple != R.zero ==> R.add(before, R.mul(u, triple)) != R.zero
  {
    MulZero(R, u);
    assert Laws1(R, before) && Laws2(R, R.zero, R.mul(u, triple)) && Laws1(R, R.mul(u, triple));
    if u != R.zero && R.mul(u, triple) == R.zero {
      NoZeroDivisors(R, u, triple);
    }
  }

  lemma OnePosition(m: nat, c: nat, i: nat, j: nat, w: nat)
    requires c < w && j < w && (m != i || c != j)
    ensures m * w + c != i * w + j
  {
    if m < i {
      RowAhead(m, i, w);
    } else if i < m {
      RowAhead(i, m, w);
    }
  }

  lemma RowAhead(m: nat, i: nat, w: nat)
    requires m < i
    ensures m * w + w <= i * w
  {
    var d := i - m - 1;
    assert d * w >= 0;
    assert i == m + 1 + d;
    Distribute3(m, d, w);
  }

  lemma {:induction false} OneBad<F>(R: Field<F>, L: TableauLayout, q: seq<F>, c: nat, n: nat)
    requires forall d: nat :: Bad(R, L, q, d) <==> d == c
    ensures BadCount(R, L, q, n) == if c < n then 1 else 0
  {
    if n > 0 {
      OneBad(R, L, q, c, n - 1);
      assert Bad(R, L, q, n - 1) <==> n - 1 == c;
    }
  }

  /** With exactly one violated constraint and a nonzero blind, the quadratic check fails. */
  lemma ViolationIsFound<F(!new)>(R: Field<F>, pts: seq<F>, L: TableauLayout, w: seq<F>,
                                  quadratic: seq<QuadraticConstraint>,
                                  T: seq<seq<F>>, indices: seq<nat>, u: seq<F>, i: nat, j: nat)
    requires IsField(R) && Distinct(pts) && L.Valid() && |pts| >= L.NumColumns()
      && GoodTableau(R, pts, L, FullWitness(R, L, w, quadratic), T)
    requires IndicesInRange(indices, L.NumColumns() - L.Dblock()) && NoRepeats(indices) && |indices| > 0
    requires i < L.NumQuadraticTriples() && j < L.WitnessesPerRow()
    requires ViolatesOnly(R, quadratic, w, i * L.WitnessesPerRow() + j) && At(R, u, i) != R.zero
    ensures var q := QuadraticProof(R, L, T, u);
      var sent := Stitched(R, L, q[..L.NumRequestedColumns()], q[L.BlockSize()..]);
      !QuadraticCheck(R, pts, L, GatherRows(R, L, T, indices), indices, u, sent)
  {
    var q, c := QuadraticProof(R, L, T, u), L.NumRequestedColumns() + j;
    forall d: nat ensures Bad(R, L, q, d) <==> d == c {
      if L.NumRequestedColumns() <= d < L.BlockSize() {
        OneViolationAt(R, pts, L, w, quadratic, T, u, i, j, d - L.NumRequestedColumns());
      }
    }
    OneBad(R, L, q, c, L.Dblock());
    assert Bad(R, L, q, c) && q[c] != R.zero;
    QuadraticCheckFinds(R, pts, L, FullWitness(R, L, w, quadratic), T, indices, u);
  }
}
