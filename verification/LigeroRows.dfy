/**
 The rows that the Ligero prover sends and the verifier recomputes (src/ligero/prover.rs, src/ligero/verifier.rs):
 what one cell of them holds, that they are codewords, and what their witness positions add up to.
 */
module LigeroRows {
  import opened Fields
  import opened Sums
  import opened Dots
  import opened Polynomials
  import opened Constraints
  import opened Tableau

  function Cell<F>(R: Field<F>, T: seq<seq<F>>, r: int, c: int): F {
    if 0 <= r < |T| then At(R, T[r], c) else R.zero
  }

  // ----- One cell of each row, after n terms -----

  /** The low-degree test row plus the constraint rows, weighted by u. */
  ghost function LdtCell<F>(R: Field<F>, T: seq<seq<F>>, u: seq<F>, n: nat, c: int): F {
    if n == 0 then Cell(R, T, 0, c) else R.add(LdtCell(R, T, u, n - 1, c), R.mul(At(R, u, n - 1), Cell(R, T, 2 + n, c)))
  }

  /** The linear test row plus the constraint rows, weighted cell by cell by the rows E. */
  ghost function DotCell<F>(R: Field<F>, T: seq<seq<F>>, E: seq<seq<F>>, n: nat, c: int): F {
    if n == 0 then Cell(R, T, 1, c)
      else R.add(DotCell(R, T, E, n - 1, c), R.mul(Cell(R, E, n - 1, c), Cell(R, T, 2 + n, c)))
  }

  /** z - x * y in triple i of the copies; x is the first row of copies and t the number of triples. */
  ghost function TripleCell<F>(R: Field<F>, T: seq<seq<F>>, x: nat, t: nat, i: nat, c: int): F {
    R.sub(Cell(R, T, x + 2 * t + i, c), R.mul(Cell(R, T, x + i, c), Cell(R, T, x + t + i, c)))
  }

  /** The quadratic test row plus the triples, weighted by u. */
  ghost function QuadCell<F>(R: Field<F>, T: seq<seq<F>>, u: seq<F>, x: nat, t: nat, n: nat, c: int): F {
    if n == 0 then Cell(R, T, 2, c)
    else R.add(QuadCell(R, T, u, x, t, n - 1, c), R.mul(At(R, u, n - 1), TripleCell(R, T, x, t, n - 1, c)))
  }

  ghost function LdtRow<F>(R: Field<F>, T: seq<seq<F>>, u: seq<F>, n: nat, width: nat): (row: seq<F>)
    ensures |row| == width && forall c :: 0 <= c < width ==> row[c] == LdtCell(R, T, u, n, c)
  {
    seq(width, (c: nat) => LdtCell(R, T, u, n, c))
  }

  ghost function DotRow<F>(R: Field<F>, T: seq<seq<F>>, E: seq<seq<F>>, n: nat, width: nat): (row: seq<F>)
    ensures |row| == width && forall c :: 0 <= c < width ==> row[c] == DotCell(R, T, E, n, c)
  {
    seq(width, (c: nat) => DotCell(R, T, E, n, c))
  }

  ghost function QuadRow<F>(R: Field<F>, T: seq<seq<F>>, u: seq<F>, x: nat, t: nat, n: nat, width: nat): (row: seq<F>)
    ensures |row| == width && forall c :: 0 <= c < width ==> row[c] == QuadCell(R, T, u, x, t, n, c)
  {
    seq(width, (c: nat) => QuadCell(R, T, u, x, t, n, c))
  }

  // ----- A cell depends on its own column only -----

  ghost predicate SameColumn<F>(R: Field<F>, T: seq<seq<F>>, c: int, P: seq<seq<F>>, d: int) {
    forall r :: Cell(R, T, r, c) == Cell(R, P, r, d)
  }

  lemma {:induction false} LdtCellCong<F>(R: Field<F>, T: seq<seq<F>>, c: int, P: seq<seq<F>>, d: int, u: seq<F>,
                                          n: nat)
    requires SameColumn(R, T, c, P, d)
    ensures LdtCell(R, T, u, n, c) == LdtCell(R, P, u, n, d)
  {
    if n > 0 {
      LdtCellCong(R, T, c, P, d, u, n - 1);
    }
  }

  lemma {:induction false} DotCellCong<F>(R: Field<F>, T: seq<seq<F>>, E: seq<seq<F>>, c: int, P: seq<seq<F>>,
                                          G: seq<seq<F>>, d: int, n: nat)
    requires SameColumn(R, T, c, P, d) && SameColumn(R, E, c, G, d)
    ensures DotCell(R, T, E, n, c) == DotCell(R, P, G, n, d)
  {
    if n > 0 {
      DotCellCong(R, T, E, c, P, G, d, n - 1);
    }
  }

  lemma {:induction false} QuadCellCong<F>(R: Field<F>, T: seq<seq<F>>, c: int, P: seq<seq<F>>, d: int, u: seq<F>,
                                           x: nat, t: nat, n: nat)
    requires SameColumn(R, T, c, P, d)
    ensures QuadCell(R, T, u, x, t, n, c) == QuadCell(R, P, u, x, t, n, d)
  {
    if n > 0 {
      QuadCellCong(R, T, c, P, d, u, x, t, n - 1);
    }
  }

  // ----- The rows are codewords -----

  ghost predicate Codewords<F(!new)>(R: Field<F>, pts: seq<F>, rows: seq<seq<F>>, ncol: nat, m: nat) {
    ncol <= |pts| && forall i :: 0 <= i < |rows| ==> |rows[i]| == ncol && Codeword(R, pts, rows[i], m)
  }

  lemma AddedCodeword<F(!new)>(R: Field<F>, pts: seq<F>, a: seq<F>, b: seq<F>, sum: seq<F>, m: nat)
    requires IsRing(R) && |a| == |b| <= |pts| && Codeword(R, pts, a, m) && Codeword(R, pts, b, m)
    requires sum == AddSeq(R, a, b)
    ensures Codeword(R, pts, sum, m)
  {
    CodewordAdd(R, pts, a, b, m);
  }

  lemma LdtRowFirst<F>(R: Field<F>, T: seq<seq<F>>, u: seq<F>, width: nat)
    requires |T| > 0 && |T[0]| == width
    ensures LdtRow(R, T, u, 0, width) == T[0]
  {
  }

  lemma LdtRowStep<F>(R: Field<F>, T: seq<seq<F>>, u: seq<F>, n: nat, width: nat)
    requires n + 3 < |T| && |T[n + 3]| == width
    ensures LdtRow(R, T, u, n + 1, width) == AddSeq(R, LdtRow(R, T, u, n, width), Scaled(R, At(R, u, n), T[n + 3]))
  {
  }

  lemma {:induction false} LdtRowCodeword<F(!new)>(R: Field<F>, pts: seq<F>, L: TableauLayout, T: seq<seq<F>>,
                                                   u: seq<F>, n: nat)
    requires IsRing(R) && L.Valid() && |pts| >= L.NumColumns() && 3 + n <= |T|
    requires AllLowDegree(R, pts, L, T)
    ensures Codeword(R, pts, LdtRow(R, T, u, n, L.NumColumns()), L.BlockSize())
  {
    var ncol, m := L.NumColumns(), L.BlockSize();
    if n == 0 {
      assert LowDegree(R, pts, L, T, 0);
      LdtRowFirst(R, T, u, ncol);
    } else {
      LdtRowCodeword(R, pts, L, T, u, n - 1);
      assert LowDegree(R, pts, L, T, n + 2);
      CodewordScale(R, pts, At(R, u, n - 1), T[n + 2], m);
      LdtRowStep(R, T, u, n - 1, ncol);
      AddedCodeword(R, pts, LdtRow(R, T, u, n - 1, ncol), Scaled(R, At(R, u, n - 1), T[n + 2]),
        LdtRow(R, T, u, n, ncol), m);
    }
  }

  lemma DotRowFirst<F>(R: Field<F>, T: seq<seq<F>>, E: seq<seq<F>>, width: nat)
    requires |T| > 1 && |T[1]| == width
    ensures DotRow(R, T, E, 0, width) == T[1]
  {
  }

  lemma DotRowStep<F>(R: Field<F>, T: seq<seq<F>>, E: seq<seq<F>>, n: nat, width: nat)
    requires n + 3 < |T| && n < |E| && |T[n + 3]| == |E[n]| == width
    ensures DotRow(R, T, E, n + 1, width) == AddSeq(R, DotRow(R, T, E, n, width), MulSeq(R, E[n], T[n + 3]))
  {
  }

  lemma ProductCodeword<F(!new)>(R: Field<F>, pts: seq<F>, L: TableauLayout, T: seq<seq<F>>, E: seq<seq<F>>, i: nat)
    requires IsRing(R) && L.Valid() && |pts| >= L.NumColumns() && 3 + i < |T| && i < |E|
    requires AllLowDegree(R, pts, L, T)
    requires Codewords(R, pts, E, L.NumColumns(), L.BlockSize())
    ensures |E[i]| == |T[3 + i]| == L.NumColumns() && Codeword(R, pts, MulSeq(R, E[i], T[3 + i]), L.Dblock())
  {
    assert LowDegree(R, pts, L, T, 3 + i);
    CodewordMul(R, pts, E[i], T[3 + i], L.BlockSize(), L.BlockSize());
  }

  lemma DotRowNext<F(!new)>(R: Field<F>, pts: seq<F>, L: TableauLayout, T: seq<seq<F>>, E: seq<seq<F>>, i: nat)
    requires IsRing(R) && L.Valid() && |pts| >= L.NumColumns() && 3 + i < |T| && i < |E|
    requires AllLowDegree(R, pts, L, T)
    requires Codewords(R, pts, E, L.NumColumns(), L.BlockSize())
    requires Codeword(R, pts, DotRow(R, T, E, i, L.NumColumns()), L.Dblock())
    ensures Codeword(R, pts, DotRow(R, T, E, i + 1, L.NumColumns()), L.Dblock())
  {
    var ncol := L.NumColumns();
    ProductCodeword(R, pts, L, T, E, i);
    DotRowStep(R, T, E, i, ncol);
    AddedCodeword(R, pts, DotRow(R, T, E, i, ncol), MulSeq(R, E[i], T[3 + i]), DotRow(R, T, E, i + 1, ncol),
      L.Dblock());
  }

  lemma DotRowStart<F(!new)>(R: Field<F>, pts: seq<F>, L: TableauLayout, T: seq<seq<F>>, E: seq<seq<F>>)
    requires L.Valid() && |pts| >= L.NumColumns() && 3 <= |T| && LowDegree(R, pts, L, T, 1)
    ensures Codeword(R, pts, DotRow(R, T, E, 0, L.NumColumns()), L.Dblock())
  {
    DotRowFirst(R, T, E, L.NumColumns());
  }

  lemma {:induction false} DotRowCodeword<F(!new)>(R: Field<F>, pts: seq<F>, L: TableauLayout, T: seq<seq<F>>,
                                                   E: seq<seq<F>>, n: nat)
    requires IsRing(R) && L.Valid() && |pts| >= L.NumColumns() && 3 + n <= |T| && n <= |E|
    requires AllLowDegree(R, pts, L, T)
    requires Codewords(R, pts, E, L.NumColumns(), L.BlockSize())
    ensures Codeword(R, pts, DotRow(R, T, E, n, L.NumColumns()), L.Dblock())
    decreases n
  {
    if n == 0 {
      DotRowStart(R, pts, L, T, E);
    } else {
      var m := n - 1;
      DotRowCodeword(R, pts, L, T, E, m);
      DotRowNext(R, pts, L, T, E, m);
      assert n == m + 1;
    }
  }

  lemma TripleCodeword<F(!new)>(R: Field<F>, pts: seq<F>, L: TableauLayout, T: seq<seq<F>>, i: nat, j: nat, k: nat,
                                c: F)
    requires IsRing(R) && L.Valid() && |pts| >= L.NumColumns() && 3 <= i < |T| && 3 <= j < |T| && 3 <= k < |T|
    requires AllLowDegree(R, pts, L, T)
    ensures |T[i]| == |T[j]| == |T[k]| == L.NumColumns()
    ensures Codeword(R, pts, Scaled(R, c, SubSeq(R, T[k], MulSeq(R, T[i], T[j]))), L.Dblock())
  {
    var m, d := L.BlockSize(), L.Dblock();
    assert LowDegree(R, pts, L, T, i) && LowDegree(R, pts, L, T, j) && LowDegree(R, pts, L, T, k);
    CodewordMul(R, pts, T[i], T[j], m, m);
    CodewordWiden(R, pts, T[k], m, d);
    CodewordSub(R, pts, T[k], MulSeq(R, T[i], T[j]), d);
    CodewordScale(R, pts, c, SubSeq(R, T[k], MulSeq(R, T[i], T[j])), d);
  }

  lemma QuadRowFirst<F>(R: Field<F>, T: seq<seq<F>>, u: seq<F>, x: nat, t: nat, width: nat)
    requires |T| > 2 && |T[2]| == width
    ensures QuadRow(R, T, u, x, t, 0, width) == T[2]
  {
  }

  lemma QuadRowStep<F>(R: Field<F>, T: seq<seq<F>>, u: seq<F>, x: nat, t: nat, n: nat, width: nat)
    requires x + 2 * t + n < |T| && |T[x + n]| == |T[x + t + n]| == |T[x + 2 * t + n]| == width
    ensures QuadRow(R, T, u, x, t, n + 1, width) == AddSeq(R, QuadRow(R, T, u, x, t, n, width),
      Scaled(R, At(R, u, n), SubSeq(R, T[x + 2 * t + n], MulSeq(R, T[x + n], T[x + t + n]))))
  {
    var i, j, k := x + n, x + t + n, x + 2 * t + n;
    var s := Scaled(R, At(R, u, n), SubSeq(R, T[k], MulSeq(R, T[i], T[j])));
    forall c | 0 <= c < width
      ensures QuadRow(R, T, u, x, t, n + 1, width)[c] == AddSeq(R, QuadRow(R, T, u, x, t, n, width), s)[c]
    {
      assert s[c] == R.mul(At(R, u, n), TripleCell(R, T, x, t, n, c));
    }
  }

  lemma QuadRowNext<F(!new)>(R: Field<F>, pts: seq<F>, L: TableauLayout, T: seq<seq<F>>, u: seq<F>, x: nat, t: nat,
                             n: nat)
    requires IsRing(R) && L.Valid() && |pts| >= L.NumColumns() && 3 <= x && x + 3 * t <= |T| && n < t
    requires AllLowDegree(R, pts, L, T)
    requires Codeword(R, pts, QuadRow(R, T, u, x, t, n, L.NumColumns()), L.Dblock())
    ensures Codeword(R, pts, QuadRow(R, T, u, x, t, n + 1, L.NumColumns()), L.Dblock())
  {
    var i, j, k, ncol := x + n, x + t + n, x + 2 * t + n, L.NumColumns();
    TripleCodeword(R, pts, L, T, i, j, k, At(R, u, n));
    QuadRowStep(R, T, u, x, t, n, ncol);
    AddedCodeword(R, pts, QuadRow(R, T, u, x, t, n, ncol),
                  Scaled(R, At(R, u, n), SubSeq(R, T[k], MulSeq(R, T[i], T[j]))), QuadRow(R, T, u, x, t, n + 1, ncol),
                    L.Dblock());
  }

  lemma QuadRowStart<F(!new)>(R: Field<F>, pts: seq<F>, L: TableauLayout, T: seq<seq<F>>, u: seq<F>, x: nat, t: nat)
    requires L.Valid() && |pts| >= L.NumColumns() && 3 <= |T| && LowDegree(R, pts, L, T, 2)
    ensures Codeword(R, pts, QuadRow(R, T, u, x, t, 0, L.NumColumns()), L.Dblock())
  {
    QuadRowFirst(R, T, u, x, t, L.NumColumns());
  }

  lemma {:induction false} QuadRowCodeword<F(!new)>(R: Field<F>, pts: seq<F>, L: TableauLayout, T: seq<seq<F>>,
                                                    u: seq<F>, x: nat, t: nat, n: nat)
    requires IsRing(R) && L.Valid() && |pts| >= L.NumColumns() && 3 <= x && x + 3 * t <= |T| && n <= t && |T| >= 3
    requires AllLowDegree(R, pts, L, T)
    ensures Codeword(R, pts, QuadRow(R, T, u, x, t, n, L.NumColumns()), L.Dblock())
    decreases n
  {
    if n == 0 {
      QuadRowStart(R, pts, L, T, u, x, t);
    } else {
      var m := n - 1;
      QuadRowCodeword(R, pts, L, T, u, x, t, m);
      QuadRowNext(R, pts, L, T, u, x, t, m);
      assert n == m + 1;
    }
  }

  // ----- The quadratic row vanishes at the witness positions -----

  lemma TripleIsZero<F(!new)>(R: Field<F>, pts: seq<F>, L: TableauLayout, w: seq<F>,
                              quadratic: seq<QuadraticConstraint>,
                              T: seq<seq<F>>, i: nat, j: nat)
    requires IsRing(R) && L.Valid() && |pts| >= L.NumColumns() && QuadraticHold(R, quadratic, w)
    requires GoodTableau(R, pts, L, FullWitness(R, L, w, quadratic), T)
    requires i < L.NumQuadraticTriples() && j < L.WitnessesPerRow()
    ensures TripleCell(R, T, 3 + L.NumLinearConstraintRows(), L.NumQuadraticTriples(), i, L.NumRequestedColumns() + j)
      == R.zero
  {
    var k := i * L.WitnessesPerRow() + j;
    CopyCell(R, pts, L, w, quadratic, T, 0, i, j);
    CopyCell(R, pts, L, w, quadratic, T, 1, i, j);
    CopyCell(R, pts, L, w, quadratic, T, 2, i, j);
    var x, y, z := Copy(R, w, quadratic, 0, k), Copy(R, w, quadratic, 1, k), Copy(R, w, quadratic, 2, k);
    assert R.mul(x, y) == z by {
      MulZero(R, R.zero);
    }
    assert Laws1(R, z);
  }

  lemma CopyCell<F(!new)>(R: Field<F>, pts: seq<F>, L: TableauLayout, w: seq<F>, quadratic: seq<QuadraticConstraint>,
                          T: seq<seq<F>>, kind: nat, i: nat, j: nat)
    requires L.Valid() && |pts| >= L.NumColumns() && GoodTableau(R, pts, L, FullWitness(R, L, w, quadratic), T)
    requires kind < 3 && i < L.NumQuadraticTriples() && j < L.WitnessesPerRow()
    ensures Cell(R, T, 3 + L.FirstCopyRow(kind) + i, L.NumRequestedColumns() + j)
      == Copy(R, w, quadratic, kind, i * L.WitnessesPerRow() + j)
  {
    var r := L.FirstCopyRow(kind) + i;
    assert RowHoldsWitnesses(R, L, FullWitness(R, L, w, quadratic), T, r);
    assert CellHoldsWitness(R, L, FullWitness(R, L, w, quadratic), T[3 + r], r, j);
    CopyRowEntry(R, L, w, quadratic, kind, i, j);
    RowsInside(r, L.NumConstraintRows(), L.WitnessesPerRow());
  }

  lemma {:induction false} QuadRowIsZero<F(!new)>(R: Field<F>, pts: seq<F>, L: TableauLayout, w: seq<F>,
                                                  quadratic: seq<QuadraticConstraint>,
                                                  T: seq<seq<F>>, u: seq<F>, n: nat, j: nat)
    requires IsRing(R) && L.Valid() && |pts| >= L.NumColumns() && QuadraticHold(R, quadratic, w)
    requires GoodTableau(R, pts, L, FullWitness(R, L, w, quadratic), T)
    requires n <= L.NumQuadraticTriples() && j < L.WitnessesPerRow()
    ensures QuadCell(R, T, u, 3 + L.NumLinearConstraintRows(), L.NumQuadraticTriples(), n, L.NumRequestedColumns() + j)
      == R.zero
  {
    if n > 0 {
      QuadRowIsZero(R, pts, L, w, quadratic, T, u, n - 1, j);
      TripleIsZero(R, pts, L, w, quadratic, T, n - 1, j);
      MulZero(R, At(R, u, n - 1));
      assert Laws1(R, R.zero);
    } else {
      assert Cell(R, T, 2, L.NumRequestedColumns() + j) == At(R, T[2], L.NumRequestedColumns() + j);
    }
  }

  // ----- The witness positions of the dot row add up to an inner product -----

  /** nreq zeros, then chunk i of the inner product vector. */
  function ChunkNodes<F>(R: Field<F>, L: TableauLayout, a: seq<F>, i: nat): (nodes: seq<F>)
    ensures |nodes| == L.NumRequestedColumns() + L.WitnessesPerRow()
  {
    Zeros(R, L.NumRequestedColumns()) + seq(L.WitnessesPerRow(), (j: nat) => At(R, a, i * L.WitnessesPerRow() + j))
  }

  /** Chunk rows hold the inner product vector at the witness positions. */
  ghost predicate ChunkCell<F>(R: Field<F>, L: TableauLayout, a: seq<F>, E: seq<seq<F>>, i: nat, j: nat) {
    Cell(R, E, i, L.NumRequestedColumns() + j) == At(R, a, i * L.WitnessesPerRow() + j)
  }

  ghost predicate CellAdded<F>(R: Field<F>, T: seq<seq<F>>, E: seq<seq<F>>, i: nat, before: seq<F>, after: seq<F>,
                               c: int) {
    At(R, after, c) == R.add(At(R, before, c), R.mul(Cell(R, E, i, c), Cell(R, T, 3 + i, c)))
  }

  ghost predicate CellsAdded<F>(R: Field<F>, T: seq<seq<F>>, E: seq<seq<F>>, i: nat, before: seq<F>, after: seq<F>) {
    forall c :: CellAdded(R, T, E, i, before, after, c)
  }

  lemma {:induction false} DotChunk<F(!new)>(R: Field<F>, L: TableauLayout, a: seq<F>, full: seq<F>, T: seq<seq<F>>,
                                             E: seq<seq<F>>,
                                  i: nat, j: nat, before: seq<F>, after: seq<F>)
    requires IsRing(R) && j <= L.WitnessesPerRow()
    requires RowHoldsWitnesses(R, L, full, T, i)
    requires forall k :: 0 <= k < j ==> ChunkCell(R, L, a, E, i, k)
    requires CellsAdded(R, T, E, i, before, after)
    ensures R.add(RangeSum(R, after, L.NumRequestedColumns(), j), Dot(R, a, full, i * L.WitnessesPerRow()))
      == R.add(RangeSum(R, before, L.NumRequestedColumns(), j), Dot(R, a, full, i * L.WitnessesPerRow() + j))
  {
    if j > 0 {
      DotChunk(R, L, a, full, T, E, i, j - 1, before, after);
      AddedChunkCell(R, L, a, full, T, E, i, j, j - 1, before, after);
      NextChunkCell(R, L, a, full, T, E, i, j - 1, i * L.WitnessesPerRow(), before, after);
    }
  }

  lemma AddedChunkCell<F>(R: Field<F>, L: TableauLayout, a: seq<F>, full: seq<F>, T: seq<seq<F>>, E: seq<seq<F>>,
                          i: nat, j: nat, c: nat, before: seq<F>, after: seq<F>)
    requires c < j <= L.WitnessesPerRow() && RowHoldsWitnesses(R, L, full, T, i)
    requires forall k :: 0 <= k < j ==> ChunkCell(R, L, a, E, i, k)
    requires CellsAdded(R, T, E, i, before, after)
    ensures ChunkCell(R, L, a, E, i, c) && CellHoldsWitness(R, L, full, T[3 + i], i, c)
    ensures CellAdded(R, T, E, i, before, after, L.NumRequestedColumns() + c)
  {
  }

  /** One more cell of the chunk. */
  lemma NextChunkCell<F(!new)>(R: Field<F>, L: TableauLayout, a: seq<F>, full: seq<F>, T: seq<seq<F>>, E: seq<seq<F>>,
                         i: nat, j: nat, k: nat, before: seq<F>, after: seq<F>)
    requires IsRing(R) && 3 + i < |T| && k == i * L.WitnessesPerRow()
    requires ChunkCell(R, L, a, E, i, j) && CellHoldsWitness(R, L, full, T[3 + i], i, j)
    requires CellAdded(R, T, E, i, before, after, L.NumRequestedColumns() + j)
    requires R.add(RangeSum(R, after, L.NumRequestedColumns(), j), Dot(R, a, full, k))
      == R.add(RangeSum(R, before, L.NumRequestedColumns(), j), Dot(R, a, full, k + j))
    ensures R.add(RangeSum(R, after, L.NumRequestedColumns(), j + 1), Dot(R, a, full, k))
      == R.add(RangeSum(R, before, L.NumRequestedColumns(), j + 1), Dot(R, a, full, k + j + 1))
  {
    var nreq := L.NumRequestedColumns();
    var p := R.mul(At(R, a, k + j), At(R, full, k + j));
    assert At(R, after, nreq + j) == R.add(At(R, before, nreq + j), p);
    assert Dot(R, a, full, k + j + 1) == R.add(Dot(R, a, full, k + j), p);
    AddAcross(R, RangeSum(R, after, nreq, j), Dot(R, a, full, k), RangeSum(R, before, nreq, j), Dot(R, a, full, k + j),
              At(R, before, nreq + j), p);
  }

  lemma AddAcross<F(!new)>(R: Field<F>, a: F, b: F, c: F, d: F, e: F, p: F)
    requires IsRing(R) && R.add(a, b) == R.add(c, d)
    ensures R.add(R.add(a, R.add(e, p)), b) == R.add(R.add(c, e), R.add(d, p))
  {
    Ring(R, A(A(V(0), A(V(1), V(2))), V(3)), A(A(V(0), V(3)), A(V(1), V(2))), [a, e, p, b]);
    Ring(R, A(A(V(0), V(1)), A(V(2), V(3))), A(A(V(0), V(2)), A(V(1), V(3))), [c, e, d, p]);
  }

  ghost predicate ChunkRow<F>(R: Field<F>, L: TableauLayout, a: seq<F>, E: seq<seq<F>>, i: nat) {
    forall j :: 0 <= j < L.WitnessesPerRow() ==> ChunkCell(R, L, a, E, i, j)
  }

  lemma DotAfter<F(!new)>(R: Field<F>, T: seq<seq<F>>, E: seq<seq<F>>, n: nat, width: nat)
    requires IsRing(R) && n > 0
    requires forall i :: 0 <= i < |T| ==> |T[i]| <= width
    ensures CellsAdded(R, T, E, n - 1, DotRow(R, T, E, n - 1, width), DotRow(R, T, E, n, width))
  {
    forall c {:trigger CellAdded(R, T, E, n - 1, DotRow(R, T, E, n - 1, width), DotRow(R, T, E, n, width), c)}
      ensures CellAdded(R, T, E, n - 1, DotRow(R, T, E, n - 1, width), DotRow(R, T, E, n, width), c)
    {
      if !(0 <= c < width) {
        assert Cell(R, T, 2 + n, c) == R.zero;
        MulZero(R, Cell(R, E, n - 1, c));
        assert Laws1(R, R.zero);
      }
    }
  }

  lemma DotRowSumStep<F(!new)>(R: Field<F>, L: TableauLayout, a: seq<F>, full: seq<F>, T: seq<seq<F>>, E: seq<seq<F>>,
                               i: nat, ncol: nat,
                               before: F, after: F)
    requires IsRing(R) && RowHoldsWitnesses(R, L, full, T, i) && ChunkRow(R, L, a, E, i)
    requires forall r :: 0 <= r < |T| ==> |T[r]| == ncol
    requires before == RangeSum(R, DotRow(R, T, E, i, ncol), L.NumRequestedColumns(), L.WitnessesPerRow())
    requires after == RangeSum(R, DotRow(R, T, E, i + 1, ncol), L.NumRequestedColumns(), L.WitnessesPerRow())
    ensures R.add(after, Dot(R, a, full, i * L.WitnessesPerRow()))
      == R.add(before, Dot(R, a, full, i * L.WitnessesPerRow() + L.WitnessesPerRow()))
  {
    DotAfter(R, T, E, i + 1, ncol);
    DotChunk(R, L, a, full, T, E, i, L.WitnessesPerRow(), DotRow(R, T, E, i, ncol), DotRow(R, T, E, i + 1, ncol));
  }

  ghost function WitnessSum<F>(R: Field<F>, L: TableauLayout, row: seq<F>): F {
    RangeSum(R, row, L.NumRequestedColumns(), L.WitnessesPerRow())
  }

  /** The sum over the witness positions after n rows. */
  lemma {:induction false} DotRowSum<F(!new)>(R: Field<F>, L: TableauLayout, a: seq<F>, full: seq<F>, T: seq<seq<F>>,
                                              E: seq<seq<F>>,
                                              n: nat, ncol: nat)
    requires IsRing(R) && |T| > 1 && RangeSum(R, T[1], L.NumRequestedColumns(), L.WitnessesPerRow()) == R.zero
    requires forall i :: 0 <= i < n ==> RowHoldsWitnesses(R, L, full, T, i) && ChunkRow(R, L, a, E, i)
    requires forall r :: 0 <= r < |T| ==> |T[r]| == ncol
    ensures WitnessSum(R, L, DotRow(R, T, E, n, ncol)) == Dot(R, a, full, n * L.WitnessesPerRow())
    decreases n
  {
    if n == 0 {
      DotRowFirst(R, T, E, ncol);
      assert n * L.WitnessesPerRow() == 0;
    } else {
      var m := n - 1;
      DotRowSum(R, L, a, full, T, E, m, ncol);
      DotRowSumNext(R, L, a, full, T, E, m, ncol);
      assert n == m + 1;
      Distribute3(m, 0, L.WitnessesPerRow());
    }
  }

  lemma DotRowSumNext<F(!new)>(R: Field<F>, L: TableauLayout, a: seq<F>, full: seq<F>, T: seq<seq<F>>, E: seq<seq<F>>,
                               m: nat, ncol: nat)
    requires IsRing(R) && RowHoldsWitnesses(R, L, full, T, m) && ChunkRow(R, L, a, E, m)
    requires forall r :: 0 <= r < |T| ==> |T[r]| == ncol
    requires WitnessSum(R, L, DotRow(R, T, E, m, ncol)) == Dot(R, a, full, m * L.WitnessesPerRow())
    ensures WitnessSum(R, L, DotRow(R, T, E, m + 1, ncol))
      == Dot(R, a, full, m * L.WitnessesPerRow() + L.WitnessesPerRow())
  {
    var before, after := WitnessSum(R, L, DotRow(R, T, E, m, ncol)), WitnessSum(R, L, DotRow(R, T, E, m + 1, ncol));
    DotRowSumStep(R, L, a, full, T, E, m, ncol, before, after);
    CancelLeft(R, after, before, Dot(R, a, full, m * L.WitnessesPerRow() + L.WitnessesPerRow()));
  }

  lemma CancelLeft<F(!new)>(R: Field<F>, s: F, d: F, e: F)
    requires IsRing(R) && R.add(s, d) == R.add(d, e)
    ensures s == e
  {
    assert Laws2(R, d, e);
    Cancel(R, s, e, d);
  }

  lemma TableauWidth<F(!new)>(R: Field<F>, pts: seq<F>, L: TableauLayout, full: seq<F>, T: seq<seq<F>>)
    requires L.Valid() && |pts| >= L.NumColumns() && GoodTableau(R, pts, L, full, T)
    ensures forall i :: 0 <= i < |T| ==> |T[i]| == L.NumColumns()
  {
    forall i | 0 <= i < |T| ensures |T[i]| == L.NumColumns() {
      assert LowDegree(R, pts, L, T, i);
    }
  }
}
