/**
 The Ligero tableau (src/ligero/tableau.rs): its layout, its construction from the witness, the quadratic constraints
 and a stream of random elements, and what the construction guarantees row by row.
 */
module Tableau {
  import opened Fields
  import opened Sums
  import opened Dots
  import opened Polynomials
  import opened Constraints

  datatype LigeroParameters = LigeroParameters(
    nreq: nat,
    witnessesPerRow: nat,
    quadraticConstraintsPerRow: nat,
    blockSize: nat,
    numColumns: nat)

  function DivCeil(a: nat, b: nat): nat
    requires b > 0
  {
    (a + b - 1) / b
  }

  datatype TableauLayout = TableauLayout(parameters: LigeroParameters, numWitnesses: nat, numQuadraticConstraints: nat)
  {
    /** The relations between the parameters that the prover and the verifier assert. */
    ghost predicate Valid() {
      var p := parameters;
      && p.nreq > 0 && p.witnessesPerRow > 0 && p.quadraticConstraintsPerRow > 0
      && p.nreq + p.witnessesPerRow == p.blockSize
      && 2 * p.blockSize - 1 < p.numColumns
      && p.nreq < p.numColumns - (2 * p.blockSize - 1)
    }

    function BlockSize(): nat { parameters.blockSize }

    function NumColumns(): nat { parameters.numColumns }

    function NumRequestedColumns(): nat { parameters.nreq }

    function WitnessesPerRow(): nat { parameters.witnessesPerRow }

    function Dblock(): nat
      requires Valid()
    {
      2 * parameters.blockSize - 1
    }

    function NumQuadraticTriples(): nat
      requires Valid()
    {
      DivCeil(numQuadraticConstraints, parameters.quadraticConstraintsPerRow)
    }

    function NumLinearConstraintRows(): nat
      requires Valid()
    {
      DivCeil(numWitnesses, parameters.witnessesPerRow)
    }

    function NumConstraintRows(): nat
      requires Valid()
    {
      NumLinearConstraintRows() + 3 * NumQuadraticTriples()
    }

    function NumRows(): nat
      requires Valid()
    {
      3 + NumConstraintRows()
    }

    /** The first constraint row with copies of the x, y or z witnesses (kind 0, 1, 2), and the row after all copies. */
    function FirstCopyRow(kind: nat): nat
      requires Valid()
    {
      var lin, t := NumLinearConstraintRows(), NumQuadraticTriples();
      if kind == 0 then lin else if kind == 1 then lin + t else if kind == 2 then lin + 2 * t else lin + 3 * t
    }

    /** Where those copies start in the flattened constraint rows. */
    function CopyStart(kind: nat): nat
      requires Valid()
    {
      FirstCopyRow(kind) * parameters.witnessesPerRow
    }

    function Size(): nat
      requires Valid()
    {
      NumConstraintRows() * parameters.witnessesPerRow
    }
  }

  lemma DivCeilCovers(a: nat, b: nat)
    requires b > 0
    ensures DivCeil(a, b) * b >= a
  {
    var q, r := (a + b - 1) / b, (a + b - 1) % b;
    assert a + b - 1 == q * b + r;
  }

  lemma RowsInside(i: nat, n: nat, wr: nat)
    requires i < n
    ensures (i + 1) * wr == i * wr + wr && i * wr + wr <= n * wr
  {
    var d := n - i - 1;
    assert d * wr >= 0;
    Distribute3(i, d, wr);
  }

  lemma Distribute3(i: nat, d: nat, wr: nat)
    ensures (i + 1) * wr == i * wr + wr && (i + 1 + d) * wr == i * wr + wr + d * wr
  {
  }

  // ----- What the constraint rows hold -----

  function Coordinate(q: QuadraticConstraint, kind: nat): nat {
    if kind == 0 then q.x else if kind == 1 then q.y else q.z
  }

  /** The copy of one coordinate of quadratic constraint k, zero past the last constraint. */
  function Copy<F>(R: Field<F>, w: seq<F>, quadratic: seq<QuadraticConstraint>, kind: nat, k: int): F {
    if 0 <= k < |quadratic| then At(R, w, Coordinate(quadratic[k], kind)) else R.zero
  }

  /** Entry t of the flattened constraint rows: the witnesses, then all x copies, all y copies and all z copies. */
  ghost function FullAt<F>(R: Field<F>, L: TableauLayout, w: seq<F>, quadratic: seq<QuadraticConstraint>, t: int): F
    requires L.Valid()
  {
    if t < L.CopyStart(0) then At(R, w, t)
    else if t < L.CopyStart(1) then Copy(R, w, quadratic, 0, t - L.CopyStart(0))
    else if t < L.CopyStart(2) then Copy(R, w, quadratic, 1, t - L.CopyStart(1))
    else Copy(R, w, quadratic, 2, t - L.CopyStart(2))
  }

  ghost function FullWitness<F>(R: Field<F>, L: TableauLayout, w: seq<F>,
                                quadratic: seq<QuadraticConstraint>): (v: seq<F>)
    requires L.Valid()
    ensures |v| == L.Size()
  {
    seq(L.Size(), (t: nat) => FullAt(R, L, w, quadratic, t))
  }

  // ----- The rows -----

  /** n elements of the random stream from position start on. */
  function Slice<F>(random: nat -> F, start: nat, n: nat): (s: seq<F>)
    ensures |s| == n
  {
    seq(n, (i: nat) => random(start + i))
  }

  function RangeSum<F>(R: Field<F>, v: seq<F>, start: nat, n: nat): F {
    if n == 0 then R.zero else R.add(RangeSum(R, v, start, n - 1), At(R, v, start + n - 1))
  }

  /** Random, except that entry nreq makes the witness positions sum to zero. */
  ghost function LinearTestNodes<F>(R: Field<F>, L: TableauLayout, random: nat -> F, start: nat): (s: seq<F>)
    requires L.Valid()
    ensures |s| == L.Dblock()
  {
    var r, nreq := Slice(random, start, L.Dblock() - 1), L.NumRequestedColumns();
    r[..nreq] + [R.neg(RangeSum(R, r, nreq, L.WitnessesPerRow() - 1))] + r[nreq..]
  }

  /** Random, except for zeros at the witness positions. */
  ghost function QuadraticTestNodes<F>(R: Field<F>, L: TableauLayout, random: nat -> F, start: nat): (s: seq<F>)
    requires L.Valid()
    ensures |s| == L.Dblock()
  {
    var r, nreq := Slice(random, start, L.Dblock() - L.WitnessesPerRow()), L.NumRequestedColumns();
    r[..nreq] + Zeros(R, L.WitnessesPerRow()) + r[nreq..]
  }

  /** nreq random elements, then the next witnessesPerRow entries of the flattened constraint rows. */
  ghost function ConstraintNodes<F>(R: Field<F>, L: TableauLayout, w: seq<F>, quadratic: seq<QuadraticConstraint>,
                                    random: nat -> F, start: nat, i: nat): (s: seq<F>)
    requires L.Valid()
    ensures |s| == L.BlockSize()
  {
    Slice(random, start, L.NumRequestedColumns())
      + seq(L.WitnessesPerRow(), (j: nat) => FullAt(R, L, w, quadratic, i * L.WitnessesPerRow() + j))
  }

  /** Random elements used before constraint row i. */
  function RandomStart(L: TableauLayout, i: nat): nat
    requires L.Valid()
  {
    L.BlockSize() + (L.Dblock() - 1) + (L.Dblock() - L.WitnessesPerRow()) + i * L.NumRequestedColumns()
  }

  /** The values from which row r is extended. */
  ghost function RowNodes<F>(R: Field<F>, L: TableauLayout, w: seq<F>, quadratic: seq<QuadraticConstraint>,
                             random: nat -> F, r: nat): (nodes: seq<F>)
    requires L.Valid()
    ensures |nodes| == if r == 1 || r == 2 then L.Dblock() else L.BlockSize()
  {
    if r == 0 then Slice(random, 0, L.BlockSize())
    else if r == 1 then LinearTestNodes(R, L, random, L.BlockSize())
    else if r == 2 then QuadraticTestNodes(R, L, random, L.BlockSize() + L.Dblock() - 1)
    else ConstraintNodes(R, L, w, quadratic, random, RandomStart(L, r - 3), r - 3)
  }

  /** Row r of the tableau. */
  ghost predicate IsRow<F>(R: Field<F>, pts: seq<F>, L: TableauLayout, w: seq<F>, quadratic: seq<QuadraticConstraint>,
                           random: nat -> F, row: seq<F>, r: nat)
    requires L.Valid() && |pts| >= L.NumColumns()
  {
    row == Extended(R, pts, RowNodes(R, L, w, quadratic, random, r), L.NumColumns())
  }

  // ----- Construction -----

  /** The first entries of the row: random elements, with a zero in the place that is filled in last. */
  ghost function TestRowSoFar<F>(R: Field<F>, r: seq<F>, nreq: nat, index: nat): (row: seq<F>)
    requires nreq <= |r| && index <= |r| + 1
    ensures |row| == index
  {
    if index <= nreq then r[..index] else r[..nreq] + [R.zero] + r[nreq..index - 1]
  }

  /** The sum of the random elements between the zero and the end of the block. */
  ghost function SumSoFar<F>(R: Field<F>, r: seq<F>, nreq: nat, block: nat, index: nat): F
    requires nreq < block
  {
    if index <= nreq + 1 then R.zero else RangeSum(R, r, nreq, (if index <= block then index else block) - nreq - 1)
  }

  lemma SumNext<F>(R: Field<F>, r: seq<F>, nreq: nat, block: nat, index: nat)
    requires nreq < block
    ensures SumSoFar(R, r, nreq, block, index + 1)
      == if nreq + 1 <= index < block then R.add(SumSoFar(R, r, nreq, block, index), At(R, r, index - 1))
         else SumSoFar(R, r, nreq, block, index)
  {
    if nreq + 1 <= index < block {
      var n := index - nreq - 1;
      assert RangeSum(R, r, nreq, 0) == R.zero;
      assert RangeSum(R, r, nreq, n + 1) == R.add(RangeSum(R, r, nreq, n), At(R, r, nreq + n));
    }
  }

  lemma TestRowNext<F>(R: Field<F>, r: seq<F>, nreq: nat, index: nat)
    requires nreq <= |r| && index <= |r|
    ensures TestRowSoFar(R, r, nreq, index + 1)
      == TestRowSoFar(R, r, nreq, index)
        + [if index < nreq then r[index] else if index == nreq then R.zero else r[index - 1]]
  {
  }

  method LinearTestRow<F(!new)>(R: Field<F>, L: TableauLayout, random: nat -> F, start: nat) returns (row: seq<F>)
    requires L.Valid()
    ensures row == LinearTestNodes(R, L, random, start)
  {
    var nreq, sum, next := L.NumRequestedColumns(), R.zero, start;
    ghost var r := Slice(random, start, L.Dblock() - 1);
    row := [];
    for index := 0 to L.Dblock()
      invariant next == start + (if index <= nreq then index else index - 1)
      invariant row == TestRowSoFar(R, r, nreq, index)
      invariant sum == SumSoFar(R, r, nreq, L.BlockSize(), index)
    {
      TestRowNext(R, r, nreq, index);
      SumNext(R, r, nreq, L.BlockSize(), index);
      var element := R.zero;
      if index != nreq {
        element := random(next);
        assert element == r[next - start];
        next := next + 1;
        if nreq + 1 <= index < L.BlockSize() {
          sum := R.add(sum, element);
        }
      }
      row := row + [element];
    }
    assert r[nreq..L.Dblock() - 1] == r[nreq..];
    row := row[nreq := R.neg(sum)];
  }

  method QuadraticTestRow<F(!new)>(R: Field<F>, L: TableauLayout, random: nat -> F, start: nat) returns (row: seq<F>)
    requires L.Valid()
    ensures row == QuadraticTestNodes(R, L, random, start)
  {
    var nreq, block, next := L.NumRequestedColumns(), L.BlockSize(), start;
    ghost var r := Slice(random, start, L.Dblock() - L.WitnessesPerRow());
    row := [];
    for index := 0 to L.Dblock()
      invariant |row| == index
      invariant next
        == start + (if index <= nreq then index else if index <= block then nreq else index - (block - nreq))
      invariant row == if index <= nreq then r[..index]
        else if index <= block then r[..nreq] + Zeros(R, index - nreq)
        else r[..nreq] + Zeros(R, block - nreq) + r[nreq..index - (block - nreq)]
    {
      if index < nreq || index >= block {
        assert random(next) == r[next - start];
        row := row + [random(next)];
        next := next + 1;
      } else {
        row := row + [R.zero];
      }
    }
    assert r[nreq..L.Dblock() - (block - nreq)] == r[nreq..];
  }

  function Min(a: nat, b: nat): nat {
    if a <= b then a else b
  }

  /** One row of x, y or z copies; `next` is the position of that coordinate's iterator over the constraints. */
  method CopyRow<F(!new)>(R: Field<F>, w: seq<F>, quadratic: seq<QuadraticConstraint>, kind: nat, wr: nat, next: nat,
                          ghost c: nat)
      returns (cells: seq<F>, after: nat)
    requires QuadraticInRange(quadratic, |w|) && next == Min(|quadratic|, c)
    ensures cells == seq(wr, (j: nat) => Copy(R, w, quadratic, kind, c + j))
    ensures after == Min(|quadratic|, c + wr)
  {
    cells, after := [], next;
    for j := 0 to wr
      invariant after == Min(|quadratic|, c + j) && |cells| == j
      invariant forall i :: 0 <= i < j ==> cells[i] == Copy(R, w, quadratic, kind, c + i)
    {
      if after < |quadratic| {
        cells := cells + [w[Coordinate(quadratic[after], kind)]];
        after := after + 1;
      } else {
        cells := cells + [R.zero];
      }
    }
  }

  /** Constraint row lin + r of the quadratic part holds copies of kind r / triples. */
  lemma CopyRowEntry<F>(R: Field<F>, L: TableauLayout, w: seq<F>, quadratic: seq<QuadraticConstraint>, kind: nat,
                        r: nat, j: nat)
    requires L.Valid() && kind < 3 && r < L.NumQuadraticTriples() && j < L.WitnessesPerRow()
    ensures FullAt(R, L, w, quadratic, (L.FirstCopyRow(kind) + r) * L.WitnessesPerRow() + j)
      == Copy(R, w, quadratic, kind, r * L.WitnessesPerRow() + j)
  {
    var t, wr := L.NumQuadraticTriples(), L.WitnessesPerRow();
    var base := L.FirstCopyRow(kind);
    RowsInside(r, t, wr);
    CopyBounds(base, r, t, wr);
    assert L.CopyStart(kind) == base * wr;
    CopyStarts(L);
  }

  lemma CopyBounds(base: nat, r: nat, t: nat, wr: nat)
    ensures (base + r) * wr == base * wr + r * wr && (base + t) * wr == base * wr + t * wr
  {
  }

  lemma CopyStarts(L: TableauLayout)
    requires L.Valid()
    ensures L.CopyStart(1) == L.CopyStart(0) + L.NumQuadraticTriples() * L.WitnessesPerRow()
    ensures L.CopyStart(2) == L.CopyStart(1) + L.NumQuadraticTriples() * L.WitnessesPerRow()
    ensures L.Size() == L.CopyStart(2) + L.NumQuadraticTriples() * L.WitnessesPerRow()
    ensures L.CopyStart(0) >= L.numWitnesses
  {
    var lin, t, wr := L.NumLinearConstraintRows(), L.NumQuadraticTriples(), L.WitnessesPerRow();
    CopyBounds(lin, t, t, wr);
    CopyBounds(lin + t, t, t, wr);
    CopyBounds(lin + 2 * t, t, t, wr);
    assert lin + t + t == lin + 2 * t && lin + 2 * t + t == L.NumConstraintRows();
    DivCeilCovers(L.numWitnesses, wr);
  }

  lemma WitnessRowEntry<F>(R: Field<F>, L: TableauLayout, w: seq<F>, quadratic: seq<QuadraticConstraint>, i: nat,
                           j: nat)
    requires L.Valid() && i < L.NumLinearConstraintRows() && j < L.WitnessesPerRow()
    ensures FullAt(R, L, w, quadratic, i * L.WitnessesPerRow() + j) == At(R, w, i * L.WitnessesPerRow() + j)
  {
    RowsInside(i, L.NumLinearConstraintRows(), L.WitnessesPerRow());
    assert L.CopyStart(0) == L.NumLinearConstraintRows() * L.WitnessesPerRow();
  }

  lemma RandomStep(L: TableauLayout, i: nat)
    requires L.Valid()
    ensures RandomStart(L, i + 1) == RandomStart(L, i) + L.NumRequestedColumns()
  {
    Distribute3(i, 0, L.NumRequestedColumns());
  }

  /** The rows built so far are the first rows of the tableau. */
  ghost predicate RowsDone<F>(R: Field<F>, pts: seq<F>, L: TableauLayout, w: seq<F>,
                              quadratic: seq<QuadraticConstraint>,
                              random: nat -> F, rows: seq<seq<F>>)
    requires L.Valid() && |pts| >= L.NumColumns()
  {
    forall r :: 0 <= r < |rows| ==> IsRow(R, pts, L, w, quadratic, random, rows[r], r)
  }

  lemma ConstraintRowDone<F>(R: Field<F>, pts: seq<F>, L: TableauLayout, w: seq<F>, quadratic: seq<QuadraticConstraint>,
                             random: nat -> F, rows: seq<seq<F>>, cells: seq<F>)
    requires L.Valid() && |pts| >= L.NumColumns() && |rows| >= 3 && |cells| == L.WitnessesPerRow()
    requires RowsDone(R, pts, L, w, quadratic, random, rows)
    requires forall j :: 0 <= j < |cells| ==>
      cells[j] == FullAt(R, L, w, quadratic, (|rows| - 3) * L.WitnessesPerRow() + j)
    ensures var nodes := Slice(random, RandomStart(L, |rows| - 3), L.NumRequestedColumns()) + cells;
      RowsDone(R, pts, L, w, quadratic, random, rows + [Extended(R, pts, nodes, L.NumColumns())])
  {
    var i := |rows| - 3;
    var nodes := Slice(random, RandomStart(L, i), L.NumRequestedColumns()) + cells;
    assert nodes == ConstraintNodes(R, L, w, quadratic, random, RandomStart(L, i), i);
    AppendRow(R, pts, L, w, quadratic, random, rows, Extended(R, pts, nodes, L.NumColumns()));
  }

  lemma AppendRow<F>(R: Field<F>, pts: seq<F>, L: TableauLayout, w: seq<F>, quadratic: seq<QuadraticConstraint>,
                     random: nat -> F, rows: seq<seq<F>>, row: seq<F>)
    requires L.Valid() && |pts| >= L.NumColumns() && RowsDone(R, pts, L, w, quadratic, random, rows)
    requires IsRow(R, pts, L, w, quadratic, random, row, |rows|)
    ensures RowsDone(R, pts, L, w, quadratic, random, rows + [row])
  {
    var all := rows + [row];
    forall r | 0 <= r < |all| ensures IsRow(R, pts, L, w, quadratic, random, all[r], r) {
      if r < |rows| {
        assert IsRow(R, pts, L, w, quadratic, random, rows[r], r);
      }
    }
  }

  /** The rows of the witnesses. */
  method WitnessRows<F(!new)>(R: Field<F>, pts: seq<F>, L: TableauLayout, w: seq<F>,
                              ghost quadratic: seq<QuadraticConstraint>,
                              random: nat -> F, rows: seq<seq<F>>)
      returns (contents: seq<seq<F>>, next: nat)
    requires L.Valid() && |pts| >= L.NumColumns() && |rows| == 3 && RowsDone(R, pts, L, w, quadratic, random, rows)
    ensures |contents| == 3 + L.NumLinearConstraintRows() && next == RandomStart(L, |contents| - 3)
    ensures RowsDone(R, pts, L, w, quadratic, random, contents)
  {
    contents, next := rows, RandomStart(L, 0);
    var wr := L.WitnessesPerRow();
    for i := 0 to L.NumLinearConstraintRows()
      invariant |contents| == 3 + i && next == RandomStart(L, i)
      invariant RowsDone(R, pts, L, w, quadratic, random, contents)
    {
      var elements := seq(wr, (j: nat) => At(R, w, i * wr + j));
      forall j | 0 <= j < wr ensures elements[j] == FullAt(R, L, w, quadratic, i * wr + j) {
        WitnessRowEntry(R, L, w, quadratic, i, j);
      }
      ConstraintRowDone(R, pts, L, w, quadratic, random, contents, elements);
      var nodes := Slice(random, next, L.NumRequestedColumns()) + elements;
      contents := contents + [Extended(R, pts, nodes, L.NumColumns())];
      RandomStep(L, i);
      next := next + L.NumRequestedColumns();
    }
  }

  /** The rows of the copies of one coordinate of the quadratic constraints. */
  method CopyRows<F(!new)>(R: Field<F>, pts: seq<F>, L: TableauLayout, w: seq<F>, quadratic: seq<QuadraticConstraint>,
                           random: nat -> F, kind: nat, rows: seq<seq<F>>, start: nat)
      returns (contents: seq<seq<F>>, next: nat)
    requires L.Valid() && |pts| >= L.NumColumns() && kind < 3 && QuadraticInRange(quadratic, |w|)
    requires |rows| == 3 + L.FirstCopyRow(kind) && start == RandomStart(L, L.FirstCopyRow(kind))
    requires RowsDone(R, pts, L, w, quadratic, random, rows)
    ensures |contents| == 3 + L.FirstCopyRow(kind + 1) && next == RandomStart(L, L.FirstCopyRow(kind + 1))
    ensures RowsDone(R, pts, L, w, quadratic, random, contents)
  {
    contents, next := rows, start;
    var position := 0;
    var wr := L.WitnessesPerRow();
    ghost var base := L.FirstCopyRow(kind);
    for i := 0 to L.NumQuadraticTriples()
      invariant |contents| == 3 + base + i && next == RandomStart(L, base + i) && position == Min(|quadratic|, i * wr)
      invariant RowsDone(R, pts, L, w, quadratic, random, contents)
    {
      var cells;
      cells, position := CopyRow(R, w, quadratic, kind, wr, position, i * wr);
      Distribute3(i, 0, wr);
      forall j | 0 <= j < wr ensures cells[j] == FullAt(R, L, w, quadratic, (base + i) * wr + j) {
        CopyRowEntry(R, L, w, quadratic, kind, i, j);
      }
      ConstraintRowDone(R, pts, L, w, quadratic, random, contents, cells);
      var nodes := Slice(random, next, L.NumRequestedColumns()) + cells;
      contents := contents + [Extended(R, pts, nodes, L.NumColumns())];
      RandomStep(L, base + i);
      next := next + L.NumRequestedColumns();
    }
  }

  lemma TestRowIs<F>(R: Field<F>, pts: seq<F>, L: TableauLayout, w: seq<F>, quadratic: seq<QuadraticConstraint>,
                     random: nat -> F, nodes: seq<F>, r: nat)
    requires L.Valid() && |pts| >= L.NumColumns() && r < 3 && nodes == RowNodes(R, L, w, quadratic, random, r)
    ensures IsRow(R, pts, L, w, quadratic, random, Extended(R, pts, nodes, L.NumColumns()), r)
  {
  }

  /** The low-degree, linear and quadratic test rows. */
  method TestRows<F(!new)>(R: Field<F>, pts: seq<F>, L: TableauLayout, ghost w: seq<F>,
                           ghost quadratic: seq<QuadraticConstraint>,
                           random: nat -> F)
      returns (rows: seq<seq<F>>)
    requires L.Valid() && |pts| >= L.NumColumns()
    ensures |rows| == 3 && RowsDone(R, pts, L, w, quadratic, random, rows)
  {
    var lowDegreeTestRow := Slice(random, 0, L.BlockSize());
    var linearTestRow := LinearTestRow(R, L, random, L.BlockSize());
    var quadraticTestRow := QuadraticTestRow(R, L, random, L.BlockSize() + L.Dblock() - 1);
    var ncol := L.NumColumns();
    TestRowIs(R, pts, L, w, quadratic, random, lowDegreeTestRow, 0);
    TestRowIs(R, pts, L, w, quadratic, random, linearTestRow, 1);
    TestRowIs(R, pts, L, w, quadratic, random, quadraticTestRow, 2);
    rows :=
      [Extended(R, pts, lowDegreeTestRow, ncol), Extended(R, pts, linearTestRow, ncol),
      Extended(R, pts, quadraticTestRow, ncol)];
  }

  /** `build_with_field_element_generator` */
  method Build<F(!new)>(R: Field<F>, pts: seq<F>, L: TableauLayout, w: seq<F>, quadratic: seq<QuadraticConstraint>,
                        random: nat -> F)
      returns (contents: seq<seq<F>>)
    requires L.Valid() && |pts| >= L.NumColumns() && |w| == L.numWitnesses
    requires |quadratic| == L.numQuadraticConstraints && QuadraticInRange(quadratic, |w|)
    ensures |contents| == L.NumRows() && RowsDone(R, pts, L, w, quadratic, random, contents)
  {
    contents := TestRows(R, pts, L, w, quadratic, random);
    var next;
    contents, next := WitnessRows(R, pts, L, w, quadratic, random, contents);
    contents, next := CopyRows(R, pts, L, w, quadratic, random, 0, contents, next);
    contents, next := CopyRows(R, pts, L, w, quadratic, random, 1, contents, next);
    contents, next := CopyRows(R, pts, L, w, quadratic, random, 2, contents, next);
  }

  // ----- What the construction guarantees -----

  ghost predicate LowDegree<F(!new)>(R: Field<F>, pts: seq<F>, L: TableauLayout, T: seq<seq<F>>, r: nat)
    requires L.Valid() && |pts| >= L.NumColumns() && r < |T|
  {
    |T[r]| == L.NumColumns() && Codeword(R, pts, T[r], if r == 1 || r == 2 then L.Dblock() else L.BlockSize())
  }

  ghost predicate AllLowDegree<F(!new)>(R: Field<F>, pts: seq<F>, L: TableauLayout, T: seq<seq<F>>)
    requires L.Valid() && |pts| >= L.NumColumns()
  {
    forall r :: 0 <= r < |T| ==> LowDegree(R, pts, L, T, r)
  }

  ghost predicate RowHoldsWitnesses<F>(R: Field<F>, L: TableauLayout, full: seq<F>, T: seq<seq<F>>, i: nat) {
    3 + i < |T| && |T[3 + i]| == L.NumColumns() && CellsHoldWitnesses(R, L, full, T[3 + i], i)
  }

  ghost predicate CellsHoldWitnesses<F>(R: Field<F>, L: TableauLayout, full: seq<F>, row: seq<F>, i: nat) {
    forall j :: 0 <= j < L.WitnessesPerRow() ==> CellHoldsWitness(R, L, full, row, i, j)
  }

  ghost predicate CellHoldsWitness<F>(R: Field<F>, L: TableauLayout, full: seq<F>, row: seq<F>, i: nat, j: nat) {
    At(R, row, L.NumRequestedColumns() + j) == At(R, full, i * L.WitnessesPerRow() + j)
  }

  /**
   Every row is a codeword of its degree; the witness positions of the linear test row sum to zero and those of the
   quadratic test row are zero; the witness positions of the constraint rows hold the flattened constraint vector.
   */
  ghost predicate GoodTableau<F(!new)>(R: Field<F>, pts: seq<F>, L: TableauLayout, full: seq<F>, T: seq<seq<F>>)
    requires L.Valid() && |pts| >= L.NumColumns()
  {
    && |T| == L.NumRows() && |full| == L.Size()
    && AllLowDegree(R, pts, L, T)
    && RangeSum(R, T[1], L.NumRequestedColumns(), L.WitnessesPerRow()) == R.zero
    && (forall c {:trigger At(R, T[2], c)} :: L.NumRequestedColumns() <= c < L.BlockSize() ==> At(R, T[2], c) == R.zero)
    && (forall i :: 0 <= i < L.NumConstraintRows() ==> RowHoldsWitnesses(R, L, full, T, i))
  }

  lemma {:induction false} RangeSumShift<F(!new)>(R: Field<F>, u: seq<F>, v: seq<F>, start: nat, n: nat, first: F)
    requires IsRing(R) && start + n <= |v| && |u| == |v| + 1
    requires u[start] == first
    requires forall i {:trigger u[i]} :: start < i <= start + n ==> u[i] == v[i - 1]
    ensures RangeSum(R, u, start, n + 1) == R.add(first, RangeSum(R, v, start, n))
  {
    if n == 0 {
      assert RangeSum(R, u, start, 1) == R.add(RangeSum(R, u, start, 0), first);
      assert Laws2(R, R.zero, first);
    } else {
      RangeSumShift(R, u, v, start, n - 1, first);
      assert u[start + n] == v[start + n - 1];
      assert Laws3(R, first, RangeSum(R, v, start, n - 1), v[start + n - 1]);
    }
  }

  lemma {:induction false} RangeSumCong<F>(R: Field<F>, u: seq<F>, v: seq<F>, start: nat, n: nat)
    requires forall i {:trigger At(R, u, i)} :: start <= i < start + n ==> At(R, u, i) == At(R, v, i)
    ensures RangeSum(R, u, start, n) == RangeSum(R, v, start, n)
  {
    if n > 0 {
      RangeSumCong(R, u, v, start, n - 1);
    }
  }

  lemma LinearTestSumsToZero<F(!new)>(R: Field<F>, L: TableauLayout, random: nat -> F, start: nat)
    requires IsRing(R) && L.Valid()
    ensures RangeSum(R, LinearTestNodes(R, L, random, start), L.NumRequestedColumns(), L.WitnessesPerRow()) == R.zero
  {
    var nodes, r := LinearTestNodes(R, L, random, start), Slice(random, start, L.Dblock() - 1);
    var nreq, n := L.NumRequestedColumns(), L.WitnessesPerRow() - 1;
    var s := RangeSum(R, r, nreq, n);
    RangeSumShift(R, nodes, r, nreq, n, R.neg(s));
    assert Laws1(R, s) && Laws2(R, s, R.neg(s));
  }

  lemma ExtendedNode<F(!new)>(R: Field<F>, pts: seq<F>, nodes: seq<F>, n: nat, i: nat)
    requires IsField(R) && Distinct(pts) && |nodes| <= n <= |pts| && i < |nodes|
    ensures At(R, Extended(R, pts, nodes, n), i) == nodes[i]
  {
    ExtendedIsCodeword(R, pts, nodes, n);
  }

  lemma ConstraintCell<F(!new)>(R: Field<F>, pts: seq<F>, L: TableauLayout, w: seq<F>,
                                quadratic: seq<QuadraticConstraint>,
                                random: nat -> F, row: seq<F>, i: nat, j: nat)
    requires IsField(R) && Distinct(pts) && L.Valid() && |pts| >= L.NumColumns()
    requires i < L.NumConstraintRows() && j < L.WitnessesPerRow() && IsRow(R, pts, L, w, quadratic, random, row, 3 + i)
    ensures CellHoldsWitness(R, L, FullWitness(R, L, w, quadratic), row, i, j)
  {
    ConstraintNode(R, L, w, quadratic, random, i, j);
    ExtendedNode(R, pts, RowNodes(R, L, w, quadratic, random, 3 + i), L.NumColumns(), L.NumRequestedColumns() + j);
  }

  lemma ConstraintRowHolds<F(!new)>(R: Field<F>, pts: seq<F>, L: TableauLayout, w: seq<F>,
                                    quadratic: seq<QuadraticConstraint>,
                                    random: nat -> F, T: seq<seq<F>>, i: nat)
    requires IsField(R) && Distinct(pts) && L.Valid() && |pts| >= L.NumColumns()
    requires |T| == L.NumRows() && i < L.NumConstraintRows() && IsRow(R, pts, L, w, quadratic, random, T[3 + i], 3 + i)
    ensures RowHoldsWitnesses(R, L, FullWitness(R, L, w, quadratic), T, i)
  {
    var row := T[3 + i];
    forall j | 0 <= j < L.WitnessesPerRow() ensures CellHoldsWitness(R, L, FullWitness(R, L, w, quadratic), row, i, j) {
      ConstraintCell(R, pts, L, w, quadratic, random, row, i, j);
    }
  }

  lemma ConstraintNode<F>(R: Field<F>, L: TableauLayout, w: seq<F>, quadratic: seq<QuadraticConstraint>,
                          random: nat -> F, i: nat, j: nat)
    requires L.Valid() && i < L.NumConstraintRows() && j < L.WitnessesPerRow()
    ensures RowNodes(R, L, w, quadratic, random, 3 + i)[L.NumRequestedColumns() + j]
      == At(R, FullWitness(R, L, w, quadratic), i * L.WitnessesPerRow() + j)
  {
    var wr := L.WitnessesPerRow();
    RowsInside(i, L.NumConstraintRows(), wr);
    assert FullWitness(R, L, w, quadratic)[i * wr + j] == FullAt(R, L, w, quadratic, i * wr + j);
  }

  lemma RowLowDegree<F(!new)>(R: Field<F>, pts: seq<F>, L: TableauLayout, w: seq<F>,
                              quadratic: seq<QuadraticConstraint>,
                              random: nat -> F, T: seq<seq<F>>, r: nat)
    requires IsField(R) && Distinct(pts) && L.Valid() && |pts| >= L.NumColumns() && r < |T|
    requires IsRow(R, pts, L, w, quadratic, random, T[r], r)
    ensures LowDegree(R, pts, L, T, r)
  {
    ExtendedIsCodeword(R, pts, RowNodes(R, L, w, quadratic, random, r), L.NumColumns());
  }

  lemma LinearTestRowGood<F(!new)>(R: Field<F>, pts: seq<F>, L: TableauLayout, w: seq<F>,
                                   quadratic: seq<QuadraticConstraint>,
                                   random: nat -> F, row: seq<F>)
    requires IsField(R) && Distinct(pts) && L.Valid() && |pts| >= L.NumColumns()
    requires IsRow(R, pts, L, w, quadratic, random, row, 1)
    ensures RangeSum(R, row, L.NumRequestedColumns(), L.WitnessesPerRow()) == R.zero
  {
    var nodes := LinearTestNodes(R, L, random, L.BlockSize());
    RowStartsWithNodes(R, pts, nodes, row, L.NumColumns());
    LinearTestSumsToZero(R, L, random, L.BlockSize());
    RangeSumOfNodes(R, row, nodes, L.NumRequestedColumns(), L.WitnessesPerRow());
  }

  ghost predicate StartsWith<F>(R: Field<F>, row: seq<F>, nodes: seq<F>) {
    forall i {:trigger At(R, row, i)} :: 0 <= i < |nodes| ==> At(R, row, i) == At(R, nodes, i)
  }

  lemma RowStartsWithNodes<F(!new)>(R: Field<F>, pts: seq<F>, nodes: seq<F>, row: seq<F>, n: nat)
    requires IsField(R) && Distinct(pts) && |nodes| <= n <= |pts| && row == Extended(R, pts, nodes, n)
    ensures StartsWith(R, row, nodes)
  {
    forall i {:trigger At(R, row, i)} | 0 <= i < |nodes| ensures At(R, row, i) == At(R, nodes, i) {
      ExtendedNode(R, pts, nodes, n, i);
    }
  }

  lemma RangeSumOfNodes<F>(R: Field<F>, row: seq<F>, nodes: seq<F>, start: nat, n: nat)
    requires StartsWith(R, row, nodes) && start + n <= |nodes|
    ensures RangeSum(R, row, start, n) == RangeSum(R, nodes, start, n)
  {
    RangeSumCong(R, row, nodes, start, n);
  }

  lemma QuadraticTestRowGood<F(!new)>(R: Field<F>, pts: seq<F>, L: TableauLayout, w: seq<F>,
                                      quadratic: seq<QuadraticConstraint>,
                                      random: nat -> F, row: seq<F>)
    requires IsField(R) && Distinct(pts) && L.Valid() && |pts| >= L.NumColumns()
    requires IsRow(R, pts, L, w, quadratic, random, row, 2)
    ensures forall c {:trigger At(R, row, c)} ::
      L.NumRequestedColumns() <= c < L.BlockSize() ==> At(R, row, c) == R.zero
  {
    var nodes := RowNodes(R, L, w, quadratic, random, 2);
    ExtendedIsCodeword(R, pts, nodes, L.NumColumns());
    forall c {:trigger At(R, row, c)} | L.NumRequestedColumns() <= c < L.BlockSize() ensures At(R, row, c) == R.zero {
      assert row[c] == nodes[c];
    }
  }

  lemma BuildIsGood<F(!new)>(R: Field<F>, pts: seq<F>, L: TableauLayout, w: seq<F>, quadratic: seq<QuadraticConstraint>,
                             random: nat -> F, T: seq<seq<F>>)
    requires IsField(R) && Distinct(pts) && L.Valid() && |pts| >= L.NumColumns()
    requires |T| == L.NumRows() && RowsDone(R, pts, L, w, quadratic, random, T)
    ensures GoodTableau(R, pts, L, FullWitness(R, L, w, quadratic), T)
  {
    forall r | 0 <= r < |T| ensures LowDegree(R, pts, L, T, r) {
      RowLowDegree(R, pts, L, w, quadratic, random, T, r);
    }
    forall i | 0 <= i < L.NumConstraintRows() ensures RowHoldsWitnesses(R, L, FullWitness(R, L, w, quadratic), T, i) {
      ConstraintRowHolds(R, pts, L, w, quadratic, random, T, i);
    }
    LinearTestRowGood(R, pts, L, w, quadratic, random, T[1]);
    QuadraticTestRowGood(R, pts, L, w, quadratic, random, T[2]);
  }

  // ----- Every random element is fresh -----

  /** The entries of the first part of a row that do not follow from the witness, the sum or the zeros. */
  ghost predicate IsRandomCell(L: TableauLayout, r: nat, i: nat)
    requires L.Valid()
  {
    && r < L.NumRows()
    && if r == 0 then i < L.BlockSize()
       else if r == 1 then i < L.Dblock() && i != L.NumRequestedColumns()
       else if r == 2 then i < L.Dblock() && !(L.NumRequestedColumns() <= i < L.BlockSize())
       else i < L.NumRequestedColumns()
  }

  /** The number of random cells before this one, row by row. */
  ghost function RandomIndex(L: TableauLayout, r: nat, i: nat): int
    requires L.Valid() && IsRandomCell(L, r, i)
  {
    var block, nreq := L.BlockSize(), L.NumRequestedColumns();
    if r == 0 then i
    else if r == 1 then block + (if i < nreq then i else i - 1)
    else if r == 2 then block + (L.Dblock() - 1) + (if i < nreq then i else i - L.WitnessesPerRow())
    else block + (L.Dblock() - 1) + (L.Dblock() - L.WitnessesPerRow()) + (r - 3) * nreq + i
  }

  lemma RandomNode<F>(R: Field<F>, L: TableauLayout, w: seq<F>, quadratic: seq<QuadraticConstraint>, random: nat -> F,
                      r: nat, i: nat)
    requires L.Valid() && IsRandomCell(L, r, i)
    ensures RandomIndex(L, r, i) >= 0 && i < |RowNodes(R, L, w, quadratic, random, r)|
    ensures RowNodes(R, L, w, quadratic, random, r)[i] == random(RandomIndex(L, r, i))
  {
    if r >= 3 {
      ProductNotNegative(r - 3, L.NumRequestedColumns());
    }
  }

  lemma ProductNotNegative(a: nat, b: nat)
    ensures a * b >= 0
  {
  }

  lemma RandomIndexGrows(L: TableauLayout, r: nat, i: nat, s: nat, k: nat)
    requires L.Valid() && IsRandomCell(L, r, i) && IsRandomCell(L, s, k) && r < s
    ensures RandomIndex(L, r, i) < RandomIndex(L, s, k)
  {
    var nreq := L.NumRequestedColumns();
    if s >= 3 {
      ProductNotNegative(s - 3, nreq);
    }
    if r >= 3 {
      RowsInside(r - 3, s - 3, nreq);
    }
  }

  /** Every random cell of a tableau holds an element of the stream of its own: no two cells use the same one. */
  lemma RandomCellsAreFresh<F(!new)>(R: Field<F>, pts: seq<F>, L: TableauLayout, w: seq<F>,
                                     quadratic: seq<QuadraticConstraint>,
                                     random: nat -> F, T: seq<seq<F>>, r: nat, i: nat, s: nat, k: nat)
    requires IsField(R) && Distinct(pts) && L.Valid() && |pts| >= L.NumColumns()
    requires |T| == L.NumRows() && RowsDone(R, pts, L, w, quadratic, random, T)
    requires IsRandomCell(L, r, i) && IsRandomCell(L, s, k)
    ensures RandomIndex(L, r, i) >= 0 && At(R, T[r], i) == random(RandomIndex(L, r, i))
    ensures RandomIndex(L, r, i) == RandomIndex(L, s, k) ==> r == s && i == k
  {
    RandomNode(R, L, w, quadratic, random, r, i);
    assert IsRow(R, pts, L, w, quadratic, random, T[r], r);
    ExtendedNode(R, pts, RowNodes(R, L, w, quadratic, random, r), L.NumColumns(), i);
    if r < s {
      RandomIndexGrows(L, r, i, s, k);
    } else if s < r {
      RandomIndexGrows(L, s, k, r, i);
    }
  }
}
