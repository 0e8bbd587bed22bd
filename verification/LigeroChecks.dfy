/**
 The checks of the Ligero verifier on the columns it requested (src/ligero/verifier.rs), and why they pass on an
 honestly built tableau.
 */
module LigeroChecks {
  import opened Fields
  import opened Sums
  import opened Dots
  import opened Polynomials
  import opened Constraints
  import opened Tableau
  import opened LigeroRows
  import opened InnerProduct

  ghost predicate IndicesInRange(indices: seq<nat>, max: nat) {
    forall j :: 0 <= j < |indices| ==> indices[j] < max
  }

  /** `gather`: the entries of a row at the requested columns, which start after the first DBLOCK ones. */
  function Gather<F>(R: Field<F>, L: TableauLayout, row: seq<F>, indices: seq<nat>): (g: seq<F>)
    requires L.Valid()
    ensures |g| == |indices|
  {
    seq(|indices|, (j: nat) requires j < |indices| => At(R, row, L.Dblock() + indices[j]))
  }

  /** Every row at the requested columns. */
  ghost function GatherRows<F>(R: Field<F>, L: TableauLayout, T: seq<seq<F>>, indices: seq<nat>): (P: seq<seq<F>>)
    requires L.Valid()
    ensures |P| == |T| && forall r :: 0 <= r < |T| ==> P[r] == Gather(R, L, T[r], indices)
  {
    seq(|T|, (r: nat) requires r < |T| => Gather(R, L, T[r], indices))
  }

  /** The chunks of the inner product vector, extended to `width` columns. */
  ghost function ChunkRows<F>(R: Field<F>, pts: seq<F>, L: TableauLayout, a: seq<F>, width: nat): (E: seq<seq<F>>)
    requires L.Valid() && |pts| >= L.NumColumns() >= width
    ensures |E| == L.NumConstraintRows()
    ensures forall i :: 0 <= i < |E| ==> E[i] == Extended(R, pts, ChunkNodes(R, L, a, i), width)
  {
    seq(L.NumConstraintRows(), (i: nat) => Extended(R, pts, ChunkNodes(R, L, a, i), width))
  }

  // ----- What the prover sends -----

  ghost function LowDegreeTestProof<F>(R: Field<F>, L: TableauLayout, T: seq<seq<F>>, u: seq<F>): (p: seq<F>)
    requires L.Valid()
    ensures |p| == L.BlockSize()
  {
    LdtRow(R, T, u, L.NumConstraintRows(), L.BlockSize())
  }

  ghost function DotProof<F>(R: Field<F>, pts: seq<F>, L: TableauLayout, T: seq<seq<F>>, a: seq<F>): (p: seq<F>)
    requires L.Valid() && |pts| >= L.NumColumns()
    ensures |p| == L.Dblock()
  {
    DotRow(R, T, ChunkRows(R, pts, L, a, L.Dblock()), L.NumConstraintRows(), L.Dblock())
  }

  ghost function QuadraticProof<F>(R: Field<F>, L: TableauLayout, T: seq<seq<F>>, u: seq<F>): (p: seq<F>)
    requires L.Valid()
    ensures |p| == L.Dblock()
  {
    QuadRow(R, T, u, 3 + L.NumLinearConstraintRows(), L.NumQuadraticTriples(), L.NumQuadraticTriples(), L.Dblock())
  }

  /** `quadratic_proof`: the two parts that are sent, stitched together with zeros. */
  function Stitched<F>(R: Field<F>, L: TableauLayout, low: seq<F>, high: seq<F>): (p: seq<F>)
    requires L.Valid() && |low| == L.NumRequestedColumns() && |high| == L.Dblock() - L.BlockSize()
    ensures |p| == L.Dblock()
  {
    low + Zeros(R, L.BlockSize() - L.NumRequestedColumns()) + high
  }

  // ----- What the verifier checks -----

  /** The low-degree test: P holds the requested columns. */
  ghost predicate LowDegreeCheck<F>(R: Field<F>, pts: seq<F>, L: TableauLayout, P: seq<seq<F>>, indices: seq<nat>,
                                    u: seq<F>, proof: seq<F>)
    requires L.Valid() && |pts| >= L.NumColumns() && |proof| == L.BlockSize()
  {
    LdtRow(R, P, u, L.NumConstraintRows(), |indices|) == Gather(R, L, Extended(R, pts, proof, L.NumColumns()), indices)
  }

  ghost predicate DotRowCheck<F>(R: Field<F>, pts: seq<F>, L: TableauLayout, P: seq<seq<F>>, indices: seq<nat>,
                                 a: seq<F>, proof: seq<F>)
    requires L.Valid() && |pts| >= L.NumColumns() && |proof| == L.Dblock()
  {
    DotRow(R, P, GatherRows(R, L, ChunkRows(R, pts, L, a, L.NumColumns()), indices), L.NumConstraintRows(), |indices|)
      == Gather(R, L, Extended(R, pts, proof, L.NumColumns()), indices)
  }

  /** The witness positions of the dot proof add up to the combination of the right hand sides. */
  ghost predicate DotProductCheck<F>(R: Field<F>, L: TableauLayout, linear: LinearConstraints<F>, alphas: seq<F>,
                                     proof: seq<F>) {
    Sum(R, |linear.rhs|, RhsRows(R, linear.rhs, alphas)) == WitnessSum(R, L, proof)
  }

  ghost predicate QuadraticCheck<F>(R: Field<F>, pts: seq<F>, L: TableauLayout, P: seq<seq<F>>, indices: seq<nat>,
                                    u: seq<F>, proof: seq<F>)
    requires L.Valid() && |pts| >= L.NumColumns() && |proof| == L.Dblock()
  {
    var t := L.NumQuadraticTriples();
    QuadRow(R, P, u, 3 + L.NumLinearConstraintRows(), t, t, |indices|)
      == Gather(R, L, Extended(R, pts, proof, L.NumColumns()), indices)
  }

  // ----- Why they pass -----

  lemma GatheredColumn<F>(R: Field<F>, L: TableauLayout, T: seq<seq<F>>, indices: seq<nat>, j: nat)
    requires L.Valid() && j < |indices|
    ensures SameColumn(R, T, L.Dblock() + indices[j], GatherRows(R, L, T, indices), j)
  {
    var P, c := GatherRows(R, L, T, indices), L.Dblock() + indices[j];
    forall r ensures Cell(R, T, r, c) == Cell(R, P, r, j) {
      if 0 <= r < |T| {
        assert P[r] == Gather(R, L, T[r], indices);
      }
    }
  }

  /** A codeword sent by its first m values extends to itself, so that gathering both gives the same. */
  lemma ExtensionOfPrefix<F(!new)>(R: Field<F>, pts: seq<F>, row: seq<F>, sent: seq<F>, m: nat)
    requires IsField(R) && Distinct(pts) && m <= |row| <= |pts| && Codeword(R, pts, row, m) && sent == row[..m]
    ensures row == Extended(R, pts, sent, |row|)
  {
    CodewordIsExtension(R, pts, row, m);
  }

  lemma LdtGathered<F>(R: Field<F>, L: TableauLayout, T: seq<seq<F>>, indices: seq<nat>, u: seq<F>, n: nat)
    requires L.Valid() && IndicesInRange(indices, L.NumColumns() - L.Dblock())
    ensures LdtRow(R, GatherRows(R, L, T, indices), u, n, |indices|)
      == Gather(R, L, LdtRow(R, T, u, n, L.NumColumns()), indices)
  {
    var P, row := GatherRows(R, L, T, indices), LdtRow(R, T, u, n, L.NumColumns());
    forall j | 0 <= j < |indices| ensures LdtRow(R, P, u, n, |indices|)[j] == Gather(R, L, row, indices)[j] {
      GatheredColumn(R, L, T, indices, j);
      LdtCellCong(R, T, L.Dblock() + indices[j], P, j, u, n);
    }
  }

  lemma LowDegreeCheckPasses<F(!new)>(R: Field<F>, pts: seq<F>, L: TableauLayout, full: seq<F>, T: seq<seq<F>>,
                                      indices: seq<nat>, u: seq<F>)
    requires IsField(R) && Distinct(pts) && L.Valid() && |pts| >= L.NumColumns() && GoodTableau(R, pts, L, full, T)
    requires IndicesInRange(indices, L.NumColumns() - L.Dblock())
    ensures LowDegreeCheck(R, pts, L, GatherRows(R, L, T, indices), indices, u, LowDegreeTestProof(R, L, T, u))
  {
    var n, ncol, m := L.NumConstraintRows(), L.NumColumns(), L.BlockSize();
    var row, sent := LdtRow(R, T, u, n, ncol), LowDegreeTestProof(R, L, T, u);
    LdtRowCodeword(R, pts, L, T, u, n);
    assert sent == row[..m];
    ExtensionOfPrefix(R, pts, row, sent, m);
    LdtGathered(R, L, T, indices, u, n);
  }

  lemma QuadGathered<F>(R: Field<F>, L: TableauLayout, T: seq<seq<F>>, indices: seq<nat>, u: seq<F>, x: nat, t: nat)
    requires L.Valid() && IndicesInRange(indices, L.NumColumns() - L.Dblock())
    ensures QuadRow(R, GatherRows(R, L, T, indices), u, x, t, t, |indices|)
      == Gather(R, L, QuadRow(R, T, u, x, t, t, L.NumColumns()), indices)
  {
    var P, row := GatherRows(R, L, T, indices), QuadRow(R, T, u, x, t, t, L.NumColumns());
    forall j | 0 <= j < |indices| ensures QuadRow(R, P, u, x, t, t, |indices|)[j] == Gather(R, L, row, indices)[j] {
      GatheredColumn(R, L, T, indices, j);
      QuadCellCong(R, T, L.Dblock() + indices[j], P, j, u, x, t, t);
    }
  }

  lemma QuadraticCheckPasses<F(!new)>(R: Field<F>, pts: seq<F>, L: TableauLayout, full: seq<F>, T: seq<seq<F>>,
                                      indices: seq<nat>, u: seq<F>)
    requires IsField(R) && Distinct(pts) && L.Valid() && |pts| >= L.NumColumns() && GoodTableau(R, pts, L, full, T)
    requires IndicesInRange(indices, L.NumColumns() - L.Dblock())
    ensures QuadraticCheck(R, pts, L, GatherRows(R, L, T, indices), indices, u, QuadraticProof(R, L, T, u))
  {
    var x, t, ncol := 3 + L.NumLinearConstraintRows(), L.NumQuadraticTriples(), L.NumColumns();
    var row, sent := QuadRow(R, T, u, x, t, t, ncol), QuadraticProof(R, L, T, u);
    QuadRowCodeword(R, pts, L, T, u, x, t, t);
    assert sent == row[..L.Dblock()];
    ExtensionOfPrefix(R, pts, row, sent, L.Dblock());
    QuadGathered(R, L, T, indices, u, x, t);
  }

  lemma ChunkCodewords<F(!new)>(R: Field<F>, pts: seq<F>, L: TableauLayout, a: seq<F>)
    requires IsField(R) && Distinct(pts) && L.Valid() && |pts| >= L.NumColumns()
    ensures Codewords(R, pts, ChunkRows(R, pts, L, a, L.NumColumns()), L.NumColumns(), L.BlockSize())
  {
    var E := ChunkRows(R, pts, L, a, L.NumColumns());
    forall i | 0 <= i < |E| ensures |E[i]| == L.NumColumns() && Codeword(R, pts, E[i], L.BlockSize()) {
      ExtendedIsCodeword(R, pts, ChunkNodes(R, L, a, i), L.NumColumns());
    }
  }

  /** Extending further does not change the first columns. */
  lemma ChunkPrefix<F>(R: Field<F>, pts: seq<F>, L: TableauLayout, a: seq<F>, m: nat, c: nat)
    requires L.Valid() && |pts| >= L.NumColumns() >= m > c
    ensures SameColumn(R, ChunkRows(R, pts, L, a, m), c, ChunkRows(R, pts, L, a, L.NumColumns()), c)
  {
    var E, D := ChunkRows(R, pts, L, a, m), ChunkRows(R, pts, L, a, L.NumColumns());
    forall r ensures Cell(R, E, r, c) == Cell(R, D, r, c) {
      if 0 <= r < |E| {
        assert E[r][c] == D[r][c];
      }
    }
  }

  lemma DotProofIsPrefix<F(!new)>(R: Field<F>, pts: seq<F>, L: TableauLayout, T: seq<seq<F>>, a: seq<F>)
    requires L.Valid() && |pts| >= L.NumColumns()
    ensures DotProof(R, pts, L, T, a)
      == DotRow(R, T, ChunkRows(R, pts, L, a, L.NumColumns()), L.NumConstraintRows(), L.NumColumns())[..L.Dblock()]
  {
    var n, E, D := L.NumConstraintRows(), ChunkRows(R, pts, L, a, L.Dblock()), ChunkRows(R, pts, L, a, L.NumColumns());
    forall c | 0 <= c < L.Dblock() ensures DotProof(R, pts, L, T, a)[c] == DotRow(R, T, D, n, L.NumColumns())[c] {
      ChunkPrefix(R, pts, L, a, L.Dblock(), c);
      assert SameColumn(R, T, c, T, c);
      DotCellCong(R, T, E, c, T, D, c, n);
    }
  }

  lemma DotGathered<F>(R: Field<F>, L: TableauLayout, T: seq<seq<F>>, E: seq<seq<F>>, indices: seq<nat>, n: nat)
    requires L.Valid() && IndicesInRange(indices, L.NumColumns() - L.Dblock())
    ensures DotRow(R, GatherRows(R, L, T, indices), GatherRows(R, L, E, indices), n, |indices|)
      == Gather(R, L, DotRow(R, T, E, n, L.NumColumns()), indices)
  {
    var P, G, row := GatherRows(R, L, T, indices), GatherRows(R, L, E, indices), DotRow(R, T, E, n, L.NumColumns());
    forall j | 0 <= j < |indices| ensures DotRow(R, P, G, n, |indices|)[j] == Gather(R, L, row, indices)[j] {
      GatheredColumn(R, L, T, indices, j);
      GatheredColumn(R, L, E, indices, j);
      DotCellCong(R, T, E, L.Dblock() + indices[j], P, G, j, n);
    }
  }

  lemma DotRowCheckPasses<F(!new)>(R: Field<F>, pts: seq<F>, L: TableauLayout, full: seq<F>, T: seq<seq<F>>,
                                   indices: seq<nat>, a: seq<F>)
    requires IsField(R) && Distinct(pts) && L.Valid() && |pts| >= L.NumColumns() && GoodTableau(R, pts, L, full, T)
    requires IndicesInRange(indices, L.NumColumns() - L.Dblock())
    ensures DotRowCheck(R, pts, L, GatherRows(R, L, T, indices), indices, a, DotProof(R, pts, L, T, a))
  {
    var n, ncol, E := L.NumConstraintRows(), L.NumColumns(), ChunkRows(R, pts, L, a, L.NumColumns());
    var row := DotRow(R, T, E, n, ncol);
    ChunkCodewords(R, pts, L, a);
    DotRowCodeword(R, pts, L, T, E, n);
    DotProofIsPrefix(R, pts, L, T, a);
    ExtensionOfPrefix(R, pts, row, DotProof(R, pts, L, T, a), L.Dblock());
    DotGathered(R, L, T, E, indices, n);
  }

  lemma ChunkHolds<F(!new)>(R: Field<F>, pts: seq<F>, L: TableauLayout, a: seq<F>, i: nat)
    requires IsField(R) && Distinct(pts) && L.Valid() && |pts| >= L.NumColumns() && i < L.NumConstraintRows()
    ensures ChunkRow(R, L, a, ChunkRows(R, pts, L, a, L.NumColumns()), i)
  {
    var E, nodes := ChunkRows(R, pts, L, a, L.NumColumns()), ChunkNodes(R, L, a, i);
    forall j | 0 <= j < L.WitnessesPerRow() ensures ChunkCell(R, L, a, E, i, j) {
      ExtendedNode(R, pts, nodes, L.NumColumns(), L.NumRequestedColumns() + j);
    }
  }

  /** The witness positions of the dot proof add up to the inner product with the constraint rows. */
  lemma DotProofSum<F(!new)>(R: Field<F>, pts: seq<F>, L: TableauLayout, full: seq<F>, T: seq<seq<F>>, a: seq<F>)
    requires IsField(R) && Distinct(pts) && L.Valid() && |pts| >= L.NumColumns() && GoodTableau(R, pts, L, full, T)
    ensures WitnessSum(R, L, DotProof(R, pts, L, T, a)) == Dot(R, a, full, L.Size())
  {
    var n, ncol, E := L.NumConstraintRows(), L.NumColumns(), ChunkRows(R, pts, L, a, L.NumColumns());
    forall i | 0 <= i < n ensures RowHoldsWitnesses(R, L, full, T, i) && ChunkRow(R, L, a, E, i) {
      ChunkHolds(R, pts, L, a, i);
    }
    TableauWidth(R, pts, L, full, T);
    DotRowSum(R, L, a, full, T, E, n, ncol);
    DotProofIsPrefix(R, pts, L, T, a);
    RangeSumCong(R, DotRow(R, T, E, n, ncol), DotProof(R, pts, L, T, a), L.NumRequestedColumns(), L.WitnessesPerRow());
  }

  /** The quadratic proof is recovered from the two parts that are sent exactly because its middle is zero. */
  lemma StitchedProof<F(!new)>(R: Field<F>, pts: seq<F>, L: TableauLayout, w: seq<F>,
                               quadratic: seq<QuadraticConstraint>, T: seq<seq<F>>, u: seq<F>)
    requires IsField(R) && L.Valid() && |pts| >= L.NumColumns() && QuadraticHold(R, quadratic, w)
    requires GoodTableau(R, pts, L, FullWitness(R, L, w, quadratic), T)
    ensures var p := QuadraticProof(R, L, T, u);
      p[L.NumRequestedColumns()..L.BlockSize()] == Zeros(R, L.BlockSize() - L.NumRequestedColumns())
      && Stitched(R, L, p[..L.NumRequestedColumns()], p[L.BlockSize()..]) == p
  {
    var p, nreq, t := QuadraticProof(R, L, T, u), L.NumRequestedColumns(), L.NumQuadraticTriples();
    forall c | nreq <= c < L.BlockSize() ensures p[c] == R.zero {
      QuadRowIsZero(R, pts, L, w, quadratic, T, u, t, c - nreq);
    }
    assert p[nreq..L.BlockSize()] == Zeros(R, L.BlockSize() - nreq);
    assert p == p[..nreq] + p[nreq..L.BlockSize()] + p[L.BlockSize()..];
  }

  /** The dot product check decides exactly whether the combined linear constraint holds of the committed witness. */
  lemma DotProductCheckDecides<F(!new)>(R: Field<F>, pts: seq<F>, L: TableauLayout, w: seq<F>,
                                        linear: LinearConstraints<F>, linearAlphas: seq<F>,
                                        quadratic: seq<QuadraticConstraint>, quadraticAlphas: seq<F>, T: seq<seq<F>>)
    requires IsField(R) && Distinct(pts) && L.Valid() && |pts| >= L.NumColumns()
      && GoodTableau(R, pts, L, FullWitness(R, L, w, quadratic), T)
    requires |w| == L.numWitnesses && LinearInRange(linear, |w|) && QuadraticInRange(quadratic, |w|)
    ensures var a := InnerProductOf(R, L, linear, linearAlphas, quadratic, quadraticAlphas);
      DotProductCheck(R, L, linear, linearAlphas, DotProof(R, pts, L, T, a))
      <==> AlphaLhs(R, linear.lhs, linearAlphas, w) == Sum(R, |linear.rhs|, RhsRows(R, linear.rhs, linearAlphas))
  {
    var a := InnerProductOf(R, L, linear, linearAlphas, quadratic, quadraticAlphas);
    DotProofSum(R, pts, L, FullWitness(R, L, w, quadratic), T, a);
    InnerProductIdentity(R, L, w, linear, linearAlphas, quadratic, quadraticAlphas);
  }

  /**
   On a tableau of good rows whose constraint rows hold anything at all, the check compares the combination of the right
   hand sides with that of the left hand sides plus the weighted differences between copies and witnesses.
   */
  lemma DotProductCheckOfRows<F(!new)>(R: Field<F>, pts: seq<F>, L: TableauLayout, full: seq<F>,
                                       linear: LinearConstraints<F>, linearAlphas: seq<F>,
                                       quadratic: seq<QuadraticConstraint>, quadraticAlphas: seq<F>, T: seq<seq<F>>)
    requires IsField(R) && Distinct(pts) && L.Valid() && |pts| >= L.NumColumns() && GoodTableau(R, pts, L, full, T)
    requires LinearInRange(linear, L.numWitnesses) && QuadraticInRange(quadratic, L.numWitnesses)
      && L.numWitnesses <= |full|
    ensures var a := InnerProductOf(R, L, linear, linearAlphas, quadratic, quadraticAlphas);
      DotProductCheck(R, L, linear, linearAlphas, DotProof(R, pts, L, T, a))
      <==>
        R.add(AlphaLhs(R, linear.lhs, linearAlphas, full[..L.numWitnesses]),
        Sum(R, NumCopies(L, quadratic), CopyGapsOf(R, L, full, quadratic, quadraticAlphas)))
        == Sum(R, |linear.rhs|, RhsRows(R, linear.rhs, linearAlphas))
  {
    DotProofSum(R, pts, L, full, T, InnerProductOf(R, L, linear, linearAlphas, quadratic, quadraticAlphas));
    InnerProductMeans(R, L, full, linear, linearAlphas, quadratic, quadraticAlphas);
  }

  /** Exactly one wrong copy, with a weight that is not zero, fails the check. */
  lemma WrongCopyFails<F(!new)>(R: Field<F>, pts: seq<F>, L: TableauLayout, full: seq<F>, linear: LinearConstraints<F>,
                                linearAlphas: seq<F>,
                                quadratic: seq<QuadraticConstraint>, quadraticAlphas: seq<F>, T: seq<seq<F>>, kind: nat,
                                  k: nat)
    requires IsField(R) && Distinct(pts) && L.Valid() && |pts| >= L.NumColumns() && GoodTableau(R, pts, L, full, T)
    requires LinearInRange(linear, L.numWitnesses) && QuadraticInRange(quadratic, L.numWitnesses)
      && L.numWitnesses <= |full|
    requires LinearHold(R, linear, full[..L.numWitnesses])
    requires WrongCopyOnly(R, L, full, quadratic, kind, k) && At(R, quadraticAlphas, k * 3 + kind) != R.zero
    ensures !DotProductCheck(R, L, linear, linearAlphas,
      DotProof(R, pts, L, T, InnerProductOf(R, L, linear, linearAlphas, quadratic, quadraticAlphas)))
  {
    DotProductCheckOfRows(R, pts, L, full, linear, linearAlphas, quadratic, quadraticAlphas, T);
    AlphaCombination(R, linear, linearAlphas, full[..L.numWitnesses]);
    WrongCopyShows(R, L, full, quadratic, quadraticAlphas, kind, k);
    var left, gaps := AlphaLhs(R, linear.lhs, linearAlphas, full[..L.numWitnesses]),
      Sum(R, NumCopies(L, quadratic), CopyGapsOf(R, L, full, quadratic, quadraticAlphas));
    if R.add(left, gaps) == left {
      SumAway(R, left, gaps);
    }
  }

  lemma SumAway<F(!new)>(R: Field<F>, a: F, b: F)
    requires IsRing(R) && R.add(a, b) == a
    ensures b == R.zero
  {
    Ring(R, S(A(V(0), V(1)), V(0)), V(1), [a, b]);
    Ring(R, S(V(0), V(0)), Z, [a]);
  }
}
