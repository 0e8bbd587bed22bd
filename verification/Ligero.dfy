/**
 The Ligero prover and verifier as they run (src/ligero/prover.rs, src/ligero/verifier.rs, src/ligero/mod.rs), and the
 completeness of the whole protocol.
 */
module Ligero {
  import opened Fields
  import opened Sums
  import opened Dots
  import opened Polynomials
  import opened Constraints
  import opened Tableau
  import opened LigeroRows
  import opened InnerProduct
  import opened LigeroChecks
  import opened LigeroEquations
  import FS = FiatShamir
  import Merkle
  import Bytes

  datatype LigeroChallenges<F> = LigeroChallenges(
    lowDegreeTestBlind: seq<F>,
    linearConstraintAlphas: seq<F>,
    quadraticConstraintAlphas: seq<F>,
    quadraticProofBlind: seq<F>)

  /** `N` is the type of digests and `C` of nonces. */
  datatype LigeroProof<F, N, C> = LigeroProof(
    lowDegreeTestProof: seq<F>,
    dotProof: seq<F>,
    quadraticLow: seq<F>,
    quadraticHigh: seq<F>,
    merkleTreeNonces: seq<C>,
    tableauColumns: seq<seq<F>>,
    inclusionProof: seq<N>)

  /** The hash of a leaf from its nonce and the tableau column, and the hash of two children. */
  datatype Hashes<!F, !N, !C> = Hashes(leaf: (C, seq<F>) -> N, children: Merkle.Hash<N>)

  // ----- The transcript -----

  function HashOfA(): seq<Bytes.Byte> {
    [0xde, 0xad, 0xbe, 0xef] + seq(28, (i: nat) => 0)
  }

  ghost function AfterHashOfA<F>(h: FS.History<F>): FS.History<F> {
    h + [FS.Write(FS.Bytes(HashOfA()))]
  }

  /** The history once the first k of the four challenges are drawn. */
  ghost function AfterChallenges<F>(h: FS.History<F>, L: TableauLayout, linear: nat, quadratic: nat,
                                    k: nat): FS.History<F>
    requires L.Valid()
  {
    var h1 := h + [FS.Draw(L.NumConstraintRows())];
    var h2 := h1 + [FS.Draw(linear)];
    var h3 := h2 + [FS.Draw(3 * quadratic)];
    if k == 0 then h else if k == 1 then h1 else if k == 2 then h2 else if k == 3 then h3
      else h3 + [FS.Draw(L.NumQuadraticTriples())]
  }

  ghost function ChallengesFrom<F>(o: FS.Oracle<F>, h: FS.History<F>, L: TableauLayout, linear: nat,
                                   quadratic: nat): LigeroChallenges<F>
    requires L.Valid()
  {
    LigeroChallenges(
      o.challenge(AfterChallenges(h, L, linear, quadratic, 0), L.NumConstraintRows()),
      o.challenge(AfterChallenges(h, L, linear, quadratic, 1), linear),
      o.challenge(AfterChallenges(h, L, linear, quadratic, 2), 3 * quadratic),
      o.challenge(AfterChallenges(h, L, linear, quadratic, 3), L.NumQuadraticTriples()))
  }

  ghost function AfterProof<F>(h: FS.History<F>, ldt: seq<F>, dot: seq<F>, low: seq<F>, high: seq<F>): FS.History<F> {
    h + [FS.Write(FS.Elements(ldt))] + [FS.Write(FS.Elements(dot))] + [FS.Write(FS.Elements(low))]
      + [FS.Write(FS.Elements(high))]
  }

  /** The challenges and the requested columns of a run that starts with history h. */
  ghost function RunChallenges<F>(o: FS.Oracle<F>, h: FS.History<F>, L: TableauLayout, linear: nat,
                                  quadratic: nat): LigeroChallenges<F>
    requires L.Valid()
  {
    ChallengesFrom(o, AfterHashOfA(h), L, linear, quadratic)
  }

  ghost function RunHistory<F>(h: FS.History<F>, L: TableauLayout, linear: nat, quadratic: nat,
                               ldt: seq<F>, dot: seq<F>, low: seq<F>, high: seq<F>): FS.History<F>
    requires L.Valid()
  {
    AfterProof(AfterChallenges(AfterHashOfA(h), L, linear, quadratic, 4), ldt, dot, low, high)
  }

  ghost function RunIndices<F>(o: FS.Oracle<F>, h: FS.History<F>, L: TableauLayout): seq<nat>
    requires L.Valid()
  {
    o.naturals(h, L.NumColumns() - L.Dblock(), L.NumRequestedColumns())
  }

  /** `write_hash_of_a` and `LigeroChallenges::generate` */
  method Generate<F(!new)>(transcript: FS.Transcript<F>, L: TableauLayout, linear: nat, quadratic: nat)
      returns (challenges: LigeroChallenges<F>)
    requires L.Valid() && FS.ValidOracle(transcript.oracle)
    modifies transcript
    ensures challenges == RunChallenges(transcript.oracle, old(transcript.history), L, linear, quadratic)
    ensures transcript.history == AfterChallenges(AfterHashOfA(old(transcript.history)), L, linear, quadratic, 4)
    ensures ChallengeLengths(challenges, L, linear, quadratic)
  {
    transcript.Append(FS.Bytes(HashOfA()));
    var lowDegreeTestBlind := transcript.GenerateChallenge(L.NumConstraintRows());
    var linearConstraintAlphas := transcript.GenerateChallenge(linear);
    var quadraticConstraintAlphas := transcript.GenerateChallenge(3 * quadratic);
    var quadraticProofBlind := transcript.GenerateChallenge(L.NumQuadraticTriples());
    challenges :=
      LigeroChallenges(lowDegreeTestBlind, linearConstraintAlphas, quadraticConstraintAlphas, quadraticProofBlind);
  }

  ghost predicate ChallengeLengths<F>(c: LigeroChallenges<F>, L: TableauLayout, linear: nat, quadratic: nat)
    requires L.Valid()
  {
    && |c.lowDegreeTestBlind| == L.NumConstraintRows() && |c.linearConstraintAlphas| == linear
    && |c.quadraticConstraintAlphas| == 3 * quadratic && |c.quadraticProofBlind| == L.NumQuadraticTriples()
  }

  /** `write_proof` */
  method WriteProof<F(!new)>(transcript: FS.Transcript<F>, ldt: seq<F>, dot: seq<F>, low: seq<F>, high: seq<F>)
    modifies transcript
    ensures transcript.history == AfterProof(old(transcript.history), ldt, dot, low, high)
  {
    transcript.Append(FS.Elements(ldt));
    transcript.Append(FS.Elements(dot));
    transcript.Append(FS.Elements(low));
    transcript.Append(FS.Elements(high));
  }

  // ----- Accumulation -----

  method AddMultiple<F(!new)>(R: Field<F>, row: seq<F>, k: F, other: seq<F>) returns (r: seq<F>)
    requires |row| <= |other|
    ensures |r| == |row| && forall c :: 0 <= c < |row| ==> r[c] == R.add(row[c], R.mul(k, other[c]))
  {
    r := row;
    for c := 0 to |row|
      invariant |r| == |row|
      invariant forall i :: 0 <= i < c ==> r[i] == R.add(row[i], R.mul(k, other[i]))
      invariant forall i :: c <= i < |row| ==> r[i] == row[i]
    {
      r := r[c := R.add(r[c], R.mul(k, other[c]))];
    }
  }

  method AddProduct<F(!new)>(R: Field<F>, row: seq<F>, a: seq<F>, b: seq<F>) returns (r: seq<F>)
    requires |row| <= |a| && |row| <= |b|
    ensures |r| == |row| && forall c :: 0 <= c < |row| ==> r[c] == R.add(row[c], R.mul(a[c], b[c]))
  {
    r := row;
    for c := 0 to |row|
      invariant |r| == |row|
      invariant forall i :: 0 <= i < c ==> r[i] == R.add(row[i], R.mul(a[i], b[i]))
      invariant forall i :: c <= i < |row| ==> r[i] == row[i]
    {
      r := r[c := R.add(r[c], R.mul(a[c], b[c]))];
    }
  }

  method AddTriple<F(!new)>(R: Field<F>, row: seq<F>, k: F, x: seq<F>, y: seq<F>, z: seq<F>) returns (r: seq<F>)
    requires |row| <= |x| && |row| <= |y| && |row| <= |z|
    ensures |r| == |row| && forall c ::
      0 <= c < |row| ==> r[c] == R.add(row[c], R.mul(k, R.sub(z[c], R.mul(x[c], y[c]))))
  {
    r := row;
    for c := 0 to |row|
      invariant |r| == |row|
      invariant forall i :: 0 <= i < c ==> r[i] == R.add(row[i], R.mul(k, R.sub(z[i], R.mul(x[i], y[i]))))
      invariant forall i :: c <= i < |row| ==> r[i] == row[i]
    {
      r := r[c := R.add(r[c], R.mul(k, R.sub(z[c], R.mul(x[c], y[c]))))];
    }
  }

  ghost predicate AtLeastWide<F>(T: seq<seq<F>>, rows: nat, width: nat) {
    |T| == rows && forall r :: 0 <= r < |T| ==> |T[r]| >= width
  }

  /** The blinded sum of the rows, of the tableau for the prover and of the requested columns for the verifier. */
  method SumLowDegree<F(!new)>(R: Field<F>, T: seq<seq<F>>, u: seq<F>, width: nat) returns (row: seq<F>)
    requires AtLeastWide(T, 3 + |u|, width)
    ensures row == LdtRow(R, T, u, |u|, width)
  {
    row := T[0][..width];
    for i := 0 to |u|
      invariant row == LdtRow(R, T, u, i, width)
    {
      row := AddMultiple(R, row, u[i], T[3 + i]);
    }
  }

  method SumQuadratic<F(!new)>(R: Field<F>, L: TableauLayout, T: seq<seq<F>>, u: seq<F>, width: nat)
      returns (row: seq<F>)
    requires L.Valid() && AtLeastWide(T, L.NumRows(), width) && |u| == L.NumQuadraticTriples()
    ensures row == QuadRow(R, T, u, 3 + L.NumLinearConstraintRows(), |u|, |u|, width)
  {
    row := T[2][..width];
    var x, t := 3 + L.NumLinearConstraintRows(), |u|;
    for i := 0 to t
      invariant row == QuadRow(R, T, u, x, t, i, width)
    {
      ghost var before := row;
      row := AddTriple(R, row, u[i], T[x + i], T[x + t + i], T[x + 2 * t + i]);
      forall c | 0 <= c < width ensures row[c] == QuadCell(R, T, u, x, t, i + 1, c) {
        assert before[c] == QuadCell(R, T, u, x, t, i, c);
        TripleAt(R, T, x, t, i, c);
      }
    }
  }

  lemma TripleAt<F>(R: Field<F>, T: seq<seq<F>>, x: nat, t: nat, i: nat, c: nat)
    requires x + 2 * t + i < |T| && c < |T[x + i]| && c < |T[x + t + i]| && c < |T[x + 2 * t + i]|
    ensures TripleCell(R, T, x, t, i, c) == R.sub(T[x + 2 * t + i][c], R.mul(T[x + i][c], T[x + t + i][c]))
  {
  }

  lemma DotAccumulated<F>(R: Field<F>, T: seq<seq<F>>, E: seq<seq<F>>, i: nat, before: seq<F>, after: seq<F>)
    requires i < |E| && 3 + i < |T| && |before| == |after| <= |E[i]| && |before| <= |T[3 + i]|
    requires before == DotRow(R, T, E, i, |before|)
    requires forall c :: 0 <= c < |after| ==> after[c] == R.add(before[c], R.mul(E[i][c], T[3 + i][c]))
    ensures after == DotRow(R, T, E, i + 1, |before|)
  {
  }

  /** The prover's sum of products with the extended inner product vector. */
  method SumDotProof<F(!new)>(R: Field<F>, pts: seq<F>, L: TableauLayout, T: seq<seq<F>>, a: seq<F>)
      returns (row: seq<F>)
    requires L.Valid() && |pts| >= L.NumColumns() && AtLeastWide(T, L.NumRows(), L.Dblock())
    ensures row == DotProof(R, pts, L, T, a)
  {
    var width := L.Dblock();
    ghost var E := ChunkRows(R, pts, L, a, width);
    row := T[1][..width];
    DotRowInitially(R, T, E, width);
    for i := 0 to L.NumConstraintRows()
      invariant |row| == width && row == DotRow(R, T, E, i, width)
    {
      var extended := Extended(R, pts, ChunkNodes(R, L, a, i), width);
      row := AddDotRow(R, T, E, i, row, extended);
    }
  }

  lemma DotRowInitially<F>(R: Field<F>, T: seq<seq<F>>, E: seq<seq<F>>, width: nat)
    requires |T| > 1 && width <= |T[1]|
    ensures T[1][..width] == DotRow(R, T, E, 0, width)
  {
  }

  /** One more row of products; `weights` is row i of E. */
  method AddDotRow<F(!new)>(R: Field<F>, T: seq<seq<F>>, ghost E: seq<seq<F>>, i: nat, before: seq<F>, weights: seq<F>)
      returns (row: seq<F>)
    requires i < |E| && weights == E[i] && 3 + i < |T| && |before| <= |weights| && |before| <= |T[3 + i]|
    requires before == DotRow(R, T, E, i, |before|)
    ensures |row| == |before| && row == DotRow(R, T, E, i + 1, |before|)
  {
    row := AddProduct(R, before, weights, T[3 + i]);
    DotAccumulated(R, T, E, i, before, row);
  }

  /** The verifier's, at the requested columns. */
  method SumDotColumns<F(!new)>(R: Field<F>, pts: seq<F>, L: TableauLayout, P: seq<seq<F>>, indices: seq<nat>,
                                a: seq<F>) returns (row: seq<F>)
    requires L.Valid() && |pts| >= L.NumColumns() && AtLeastWide(P, L.NumRows(), |indices|)
    ensures row
      == DotRow(R, P, GatherRows(R, L, ChunkRows(R, pts, L, a, L.NumColumns()), indices), L.NumConstraintRows(),
      |indices|)
  {
    ghost var G := GatherRows(R, L, ChunkRows(R, pts, L, a, L.NumColumns()), indices);
    row := P[1][..|indices|];
    for i := 0 to L.NumConstraintRows()
      invariant row == DotRow(R, P, G, i, |indices|)
    {
      var gathered := Gather(R, L, Extended(R, pts, ChunkNodes(R, L, a, i), L.NumColumns()), indices);
      row := AddDotRow(R, P, G, i, row, gathered);
    }
  }

  // ----- Commitment -----

  /** Column c of the rows. */
  function Column<F>(R: Field<F>, T: seq<seq<F>>, c: nat): (column: seq<F>)
    ensures |column| == |T| && forall r :: 0 <= r < |T| ==> column[r] == Cell(R, T, r, c)
  {
    seq(|T|, (r: nat) => Cell(R, T, r, c))
  }

  ghost predicate LeafIs<F, N, C>(R: Field<F>, H: Hashes<F, N, C>, L: TableauLayout, T: seq<seq<F>>, nonces: seq<C>,
                                  digests: seq<N>, i: nat)
    requires L.Valid() && |nonces| == L.NumColumns() - L.Dblock() && |digests| == 2 * |nonces| && i < |nonces|
  {
    digests[|nonces| + i] == H.leaf(nonces[i], Column(R, T, L.Dblock() + i))
  }

  /** A built Merkle tree whose leaves are the columns after the first DBLOCK. */
  ghost predicate Commits<F, N(!new), C>(R: Field<F>, H: Hashes<F, N, C>, L: TableauLayout, T: seq<seq<F>>,
                                         nonces: seq<C>, digests: seq<N>)
    requires L.Valid()
  {
    && |nonces| == L.NumColumns() - L.Dblock() && |digests| == 2 * |nonces|
    && Merkle.Built(H.children, digests)
    && forall i :: 0 <= i < |nonces| ==> LeafIs(R, H, L, T, nonces, digests, i)
  }

  /** `commit_with_merkle_tree_nonce_generator` */
  method Commit<F(!new), N(==, !new), C>(R: Field<F>, H: Hashes<F, N, C>, L: TableauLayout, T: seq<seq<F>>,
                                         nonce: nat -> C, emptyNode: N, emptyNonce: C)
      returns (tree: Merkle.MerkleTree<N, C>)
    requires L.Valid()
    ensures fresh(tree) && tree.Valid() && tree.hash == H.children && tree.leafCount == L.NumColumns() - L.Dblock()
    ensures Commits(R, H, L, T, tree.nonces, tree.digests)
    ensures forall i :: 0 <= i < tree.leafCount ==> tree.nonces[i] == nonce(i)
  {
    var size := L.NumColumns() - L.Dblock();
    tree := new Merkle.MerkleTree(H.children, size, emptyNode, emptyNonce);
    for i := 0 to size
      invariant tree.Valid() && tree.leafCount == size && tree.hash == H.children && fresh(tree)
      invariant forall k :: 0 <= k < i ==> LeafIs(R, H, L, T, tree.nonces, tree.digests, k)
      invariant forall k :: 0 <= k < i ==> tree.nonces[k] == nonce(k)
    {
      ghost var digests, nonces := tree.digests, tree.nonces;
      tree.SetLeaf(i, H.leaf(nonce(i), Column(R, T, L.Dblock() + i)), nonce(i));
      forall k | 0 <= k < i + 1 ensures LeafIs(R, H, L, T, tree.nonces, tree.digests, k) {
        assert k < i ==> LeafIs(R, H, L, T, nonces, digests, k);
      }
    }
    ghost var leaves := tree.digests;
    tree.Build();
    forall k | 0 <= k < size ensures LeafIs(R, H, L, T, tree.nonces, tree.digests, k) {
      assert LeafIs(R, H, L, T, tree.nonces, leaves, k);
      assert tree.digests[size + k] == tree.digests[size..][k] && leaves[size + k] == leaves[size..][k];
    }
  }

  // ----- Proving -----

  ghost function ProofFor<F, N, C>(R: Field<F>, pts: seq<F>, L: TableauLayout, T: seq<seq<F>>,
                                   linear: LinearConstraints<F>,
                                   quadratic: seq<QuadraticConstraint>, ch: LigeroChallenges<F>, indices: seq<nat>,
                                   nonces: seq<C>, digests: seq<N>): LigeroProof<F, N, C>
    requires L.Valid() && |pts| >= L.NumColumns() && |nonces| == L.NumColumns() - L.Dblock()
      && |digests| == 2 * |nonces|
    requires IndicesInRange(indices, |nonces|)
  {
    var a := InnerProductOf(R, L, linear, ch.linearConstraintAlphas, quadratic, ch.quadraticConstraintAlphas);
    var q := QuadraticProof(R, L, T, ch.quadraticProofBlind);
    LigeroProof(LowDegreeTestProof(R, L, T, ch.lowDegreeTestBlind), DotProof(R, pts, L, T, a),
                q[..L.NumRequestedColumns()], q[L.BlockSize()..],
                NoncesAt(nonces, indices), GatherRows(R, L, T, indices),
                Merkle.ProofFrom(|nonces|, indices, digests, |nonces| - 1))
  }

  function NoncesAt<C>(nonces: seq<C>, indices: seq<nat>): (r: seq<C>)
    requires IndicesInRange(indices, |nonces|)
    ensures |r| == |indices| && forall j :: 0 <= j < |indices| ==> r[j] == nonces[indices[j]]
  {
    seq(|indices|, (j: nat) requires j < |indices| => nonces[indices[j]])
  }

  /** The history from which the columns are requested, for the four vectors of a proof. */
  ghost function ProofHistory<F, N, C>(h: FS.History<F>, L: TableauLayout, linear: nat, quadratic: nat,
                                       p: LigeroProof<F, N, C>): FS.History<F>
    requires L.Valid()
  {
    RunHistory(h, L, linear, quadratic, p.lowDegreeTestProof, p.dotProof, p.quadraticLow, p.quadraticHigh)
  }

  /** The last four messages before the columns are requested are the four vectors, so the history determines them. */
  lemma ProofHistoryDetermines<F, N, C>(h: FS.History<F>, g: FS.History<F>, L: TableauLayout, linear: nat,
                                        quadratic: nat,
                                        p: LigeroProof<F, N, C>, q: LigeroProof<F, N, C>)
    requires L.Valid() && ProofHistory(h, L, linear, quadratic, p) == ProofHistory(g, L, linear, quadratic, q)
    ensures h == g && p.lowDegreeTestProof == q.lowDegreeTestProof && p.dotProof == q.dotProof
    ensures p.quadraticLow == q.quadraticLow && p.quadraticHigh == q.quadraticHigh
  {
    var s, t := ProofHistory(h, L, linear, quadratic, p), ProofHistory(g, L, linear, quadratic, q);
    assert |s| == |h| + 9 && |t| == |g| + 9;
    assert h == s[..|h|] && g == t[..|g|];
    assert s[|h| + 5] == t[|g| + 5] && s[|h| + 6] == t[|g| + 6] && s[|h| + 7] == t[|g| + 7] && s[|h| + 8] == t[|g| + 8];
  }

  ghost predicate Requested(L: TableauLayout, indices: seq<nat>)
    requires L.Valid()
  {
    |indices| == L.NumRequestedColumns() && IndicesInRange(indices, L.NumColumns() - L.Dblock())
  }

  /** `proof` is what the prover sends in a run from history h, for the tableau T and the Merkle tree over it. */
  ghost predicate ProofOfRun<F, N, C>(R: Field<F>, pts: seq<F>, L: TableauLayout, o: FS.Oracle<F>, h: FS.History<F>,
                                      T: seq<seq<F>>,
                                      linear: LinearConstraints<F>, quadratic: seq<QuadraticConstraint>, nonces: seq<C>,
                                        digests: seq<N>,
                                      proof: LigeroProof<F, N, C>)
    requires L.Valid() && |pts| >= L.NumColumns() && |nonces| == L.NumColumns() - L.Dblock()
      && |digests| == 2 * |nonces|
  {
    var indices := RunIndices(o, ProofHistory(h, L, |linear.rhs|, |quadratic|, proof), L);
    Requested(L, indices)
    && proof
      == ProofFor(R, pts, L, T, linear, quadratic, RunChallenges(o, h, L, |linear.rhs|, |quadratic|), indices, nonces,
      digests)
  }

  method GatherColumns<F(!new)>(R: Field<F>, L: TableauLayout, T: seq<seq<F>>, indices: seq<nat>)
      returns (P: seq<seq<F>>)
    requires L.Valid() && AtLeastWide(T, L.NumRows(), L.NumColumns())
      && IndicesInRange(indices, L.NumColumns() - L.Dblock())
    ensures P == GatherRows(R, L, T, indices)
  {
    P := [];
    for r := 0 to |T|
      invariant |P| == r && forall i :: 0 <= i < r ==> P[i] == Gather(R, L, T[i], indices)
    {
      P := P + [Gather(R, L, T[r], indices)];
    }
  }

  /** The vectors that the prover sends before the columns are requested. */
  method ProofVectors<F(!new)>(R: Field<F>, pts: seq<F>, L: TableauLayout, T: seq<seq<F>>, linear: LinearConstraints<F>,
                               quadratic: seq<QuadraticConstraint>, ch: LigeroChallenges<F>, ghost w: seq<F>)
      returns (ldt: seq<F>, dot: seq<F>, low: seq<F>, high: seq<F>)
    requires IsField(R) && L.Valid() && |pts| >= L.NumColumns() && ChallengeLengths(ch, L, |linear.rhs|, |quadratic|)
    requires LinearInRange(linear, L.numWitnesses) && QuadraticInRange(quadratic, L.numWitnesses)
    requires GoodTableau(R, pts, L, FullWitness(R, L, w, quadratic), T) && QuadraticHold(R, quadratic, w)
    ensures ldt == LowDegreeTestProof(R, L, T, ch.lowDegreeTestBlind)
    ensures dot
      == DotProof(R, pts, L, T,
      InnerProductOf(R, L, linear, ch.linearConstraintAlphas, quadratic, ch.quadraticConstraintAlphas))
    ensures low == QuadraticProof(R, L, T, ch.quadraticProofBlind)[..L.NumRequestedColumns()]
    ensures high == QuadraticProof(R, L, T, ch.quadraticProofBlind)[L.BlockSize()..]
  {
    TableauWidth(R, pts, L, FullWitness(R, L, w, quadratic), T);
    ldt := SumLowDegree(R, T, ch.lowDegreeTestBlind, L.BlockSize());
    var a := InnerProductVector(R, L, linear, ch.linearConstraintAlphas, quadratic, ch.quadraticConstraintAlphas);
    dot := SumDotProof(R, pts, L, T, a);
    low, high := QuadraticParts(R, pts, L, T, quadratic, ch.quadraticProofBlind, w);
  }

  /** The parts of the quadratic proof that are sent; the source asserts that the part between them is zero. */
  method QuadraticParts<F(!new)>(R: Field<F>, pts: seq<F>, L: TableauLayout, T: seq<seq<F>>,
                                 ghost quadratic: seq<QuadraticConstraint>, u: seq<F>, ghost w: seq<F>)
      returns (low: seq<F>, high: seq<F>)
    requires IsField(R) && L.Valid() && |pts| >= L.NumColumns() && |u| == L.NumQuadraticTriples()
      && AtLeastWide(T, L.NumRows(), L.Dblock())
    requires GoodTableau(R, pts, L, FullWitness(R, L, w, quadratic), T) && QuadraticHold(R, quadratic, w)
    ensures low == QuadraticProof(R, L, T, u)[..L.NumRequestedColumns()]
      && high == QuadraticProof(R, L, T, u)[L.BlockSize()..]
  {
    var q := SumQuadratic(R, L, T, u, L.Dblock());
    StitchedProof(R, pts, L, w, quadratic, T, u);
    assert q[L.NumRequestedColumns()..L.BlockSize()] == Zeros(R, L.BlockSize() - L.NumRequestedColumns());
    low, high := q[..L.NumRequestedColumns()], q[L.BlockSize()..];
  }

  /** Write the proof vectors to the transcript and draw the columns to open. */
  method RequestColumns<F(!new)>(transcript: FS.Transcript<F>, L: TableauLayout, ldt: seq<F>, dot: seq<F>, low: seq<F>,
                                 high: seq<F>)
      returns (indices: seq<nat>)
    requires L.Valid() && FS.ValidOracle(transcript.oracle)
    modifies transcript
    ensures indices == RunIndices(transcript.oracle, AfterProof(old(transcript.history), ldt, dot, low, high), L)
      && Requested(L, indices)
    ensures transcript.history == AfterProof(old(transcript.history), ldt, dot, low, high)
      + [FS.DrawNaturals(L.NumColumns() - L.Dblock(), L.NumRequestedColumns())]
  {
    WriteProof(transcript, ldt, dot, low, high);
    indices := transcript.GenerateNaturalsWithoutReplacement(L.NumColumns() - L.Dblock(), L.NumRequestedColumns());
  }

  /**
   `prove`. The witness that the tableau was built from has to satisfy the quadratic constraints, or the assertion that
   the middle of the quadratic proof is zero fails.
   */
  method Prove<F(!new), N(==, !new), C>(R: Field<F>, pts: seq<F>, L: TableauLayout, transcript: FS.Transcript<F>,
                                        T: seq<seq<F>>,
                                        tree: Merkle.MerkleTree<N, C>, linear: LinearConstraints<F>,
                                          quadratic: seq<QuadraticConstraint>,
                                        ghost w: seq<F>)
      returns (proof: LigeroProof<F, N, C>)
    requires IsField(R) && L.Valid() && |pts| >= L.NumColumns() && FS.ValidOracle(transcript.oracle)
    requires LinearInRange(linear, L.numWitnesses) && QuadraticInRange(quadratic, L.numWitnesses)
    requires GoodTableau(R, pts, L, FullWitness(R, L, w, quadratic), T) && QuadraticHold(R, quadratic, w)
    requires tree.Valid() && tree.leafCount == L.NumColumns() - L.Dblock()
    modifies transcript
    ensures ProofOfRun(R, pts, L, transcript.oracle, old(transcript.history), T, linear, quadratic, tree.nonces,
      tree.digests, proof)
    ensures transcript.history == ProofHistory(old(transcript.history), L, |linear.rhs|, |quadratic|, proof)
      + [FS.DrawNaturals(L.NumColumns() - L.Dblock(), L.NumRequestedColumns())]
  {
    var ch := Generate(transcript, L, |linear.rhs|, |quadratic|);
    var ldt, dot, low, high := ProofVectors(R, pts, L, T, linear, quadratic, ch, w);
    var indices := RequestColumns(transcript, L, ldt, dot, low, high);
    TableauWidth(R, pts, L, FullWitness(R, L, w, quadratic), T);
    var nonces, columns, inclusionProof := OpenColumns(R, L, T, tree, indices);
    proof := LigeroProof(ldt, dot, low, high, nonces, columns, inclusionProof);
    PartsOfProof(R, pts, L, T, linear, quadratic, ch, indices, tree.nonces, tree.digests, proof);
  }

  lemma PartsOfProof<F(!new), N(!new), C>(R: Field<F>, pts: seq<F>, L: TableauLayout, T: seq<seq<F>>,
                                          linear: LinearConstraints<F>,
                                          quadratic: seq<QuadraticConstraint>, ch: LigeroChallenges<F>,
                                            indices: seq<nat>,
                                          nonces: seq<C>, digests: seq<N>, proof: LigeroProof<F, N, C>)
    requires L.Valid() && |pts| >= L.NumColumns() && |nonces| == L.NumColumns() - L.Dblock()
      && |digests| == 2 * |nonces|
    requires IndicesInRange(indices, |nonces|)
    requires proof.lowDegreeTestProof == LowDegreeTestProof(R, L, T, ch.lowDegreeTestBlind)
    requires var a := InnerProductOf(R, L, linear, ch.linearConstraintAlphas, quadratic, ch.quadraticConstraintAlphas);
      proof.dotProof == DotProof(R, pts, L, T, a)
    requires proof.quadraticLow == QuadraticProof(R, L, T, ch.quadraticProofBlind)[..L.NumRequestedColumns()]
    requires proof.quadraticHigh == QuadraticProof(R, L, T, ch.quadraticProofBlind)[L.BlockSize()..]
    requires proof.merkleTreeNonces == NoncesAt(nonces, indices) && proof.tableauColumns == GatherRows(R, L, T, indices)
    requires proof.inclusionProof == Merkle.ProofFrom(|nonces|, indices, digests, |nonces| - 1)
    ensures proof == ProofFor(R, pts, L, T, linear, quadratic, ch, indices, nonces, digests)
  {
  }

  method OpenColumns<F(!new), N(==, !new), C>(R: Field<F>, L: TableauLayout, T: seq<seq<F>>, tree: Merkle.MerkleTree<N,
                                              C>, indices: seq<nat>)
      returns (nonces: seq<C>, columns: seq<seq<F>>, inclusionProof: seq<N>)
    requires L.Valid() && tree.Valid() && tree.leafCount == L.NumColumns() - L.Dblock()
    requires AtLeastWide(T, L.NumRows(), L.NumColumns()) && IndicesInRange(indices, tree.leafCount)
    ensures nonces == NoncesAt(tree.nonces, indices) && columns == GatherRows(R, L, T, indices)
    ensures inclusionProof == Merkle.ProofFrom(tree.leafCount, indices, tree.digests, tree.leafCount - 1)
  {
    nonces := NoncesAt(tree.nonces, indices);
    columns := GatherColumns(R, L, T, indices);
    inclusionProof := tree.Prove(indices);
  }

  // ----- Verifying -----

  /** The shape of a decoded proof. */
  ghost predicate WellFormedProof<F, N, C>(L: TableauLayout, proof: LigeroProof<F, N, C>)
    requires L.Valid()
  {
    && |proof.lowDegreeTestProof| == L.BlockSize() && |proof.dotProof| == L.Dblock()
    && |proof.quadraticLow| == L.NumRequestedColumns() && |proof.quadraticHigh| == L.Dblock() - L.BlockSize()
    && |proof.merkleTreeNonces| == L.NumRequestedColumns()
    && |proof.tableauColumns| == L.NumRows()
    && forall r :: 0 <= r < |proof.tableauColumns| ==> |proof.tableauColumns[r]| == L.NumRequestedColumns()
  }

  /** The leaves recomputed from the columns of the proof. */
  function IncludedNodes<F, N, C>(R: Field<F>, H: Hashes<F, N, C>, columns: seq<seq<F>>,
                                  nonces: seq<C>): (nodes: seq<N>)
    ensures |nodes| == |nonces| && forall j ::
      0 <= j < |nonces| ==> nodes[j] == H.leaf(nonces[j], Column(R, columns, j))
  {
    seq(|nonces|, (j: nat) requires j < |nonces| => H.leaf(nonces[j], Column(R, columns, j)))
  }

  /** The conjunction of the verifier's checks, for given challenges and requested columns. */
  ghost predicate Checks<F, N, C>(R: Field<F>, pts: seq<F>, H: Hashes<F, N, C>, L: TableauLayout, root: N,
                                  proof: LigeroProof<F, N, C>,
                                  linear: LinearConstraints<F>, quadratic: seq<QuadraticConstraint>,
                                  ch: LigeroChallenges<F>, indices: seq<nat>)
    requires L.Valid() && |pts| >= L.NumColumns() && WellFormedProof(L, proof)
  {
    var a := InnerProductOf(R, L, linear, ch.linearConstraintAlphas, quadratic, ch.quadraticConstraintAlphas);
    && DotProductCheck(R, L, linear, ch.linearConstraintAlphas, proof.dotProof)
    && ColumnChecks(R, pts, H, L, root, proof, a, ch, indices)
  }

  /** The checks on the requested columns; a is the inner product vector. */
  ghost predicate ColumnChecks<F, N, C>(R: Field<F>, pts: seq<F>, H: Hashes<F, N, C>, L: TableauLayout, root: N,
                                        proof: LigeroProof<F, N, C>,
                                        a: seq<F>, ch: LigeroChallenges<F>, indices: seq<nat>)
    requires L.Valid() && |pts| >= L.NumColumns() && WellFormedProof(L, proof)
  {
    var P := proof.tableauColumns;
    && LowDegreeCheck(R, pts, L, P, indices, ch.lowDegreeTestBlind, proof.lowDegreeTestProof)
    && DotRowCheck(R, pts, L, P, indices, a, proof.dotProof)
    && QuadraticCheck(R, pts, L, P, indices, ch.quadraticProofBlind,
      Stitched(R, L, proof.quadraticLow, proof.quadraticHigh))
    && Merkle.Accepts(H.children, root, L.NumColumns() - L.Dblock(), IncludedNodes(R, H, P, proof.merkleTreeNonces),
      indices, proof.inclusionProof)
  }

  /** The checks, with the challenges that the verifier's own transcript gives. */
  ghost predicate VerifierAccepts<F, N, C>(R: Field<F>, pts: seq<F>, H: Hashes<F, N, C>, L: TableauLayout,
                                           o: FS.Oracle<F>, h: FS.History<F>,
                                           root: N, proof: LigeroProof<F, N, C>, linear: LinearConstraints<F>,
                                             quadratic: seq<QuadraticConstraint>)
    requires L.Valid() && |pts| >= L.NumColumns() && WellFormedProof(L, proof)
  {
    Checks(R, pts, H, L, root, proof, linear, quadratic, RunChallenges(o, h, L, |linear.rhs|, |quadratic|),
           RunIndices(o, ProofHistory(h, L, |linear.rhs|, |quadratic|, proof), L))
  }

  // ----- What acceptance means -----

  /** The equations that an accepted proof satisfies, and the root that its leaves lead to. */
  ghost predicate EquationsHold<F, N, C>(R: Field<F>, pts: seq<F>, H: Hashes<F, N, C>, L: TableauLayout, root: N,
                                         proof: LigeroProof<F, N, C>,
                                         linear: LinearConstraints<F>, quadratic: seq<QuadraticConstraint>,
                                         ch: LigeroChallenges<F>, indices: seq<nat>)
    requires L.Valid() && |pts| >= L.NumColumns() && WellFormedProof(L, proof) && Requested(L, indices)
  {
    var P := proof.tableauColumns;
    var a := InnerProductOf(R, L, linear, ch.linearConstraintAlphas, quadratic, ch.quadraticConstraintAlphas);
    && ProductEquation(R, L, linear, ch.linearConstraintAlphas, proof.dotProof)
    && (forall j :: 0 <= j < |indices| ==>
          LowDegreeEquation(R, pts, L, P, ch.lowDegreeTestBlind, proof.lowDegreeTestProof, indices[j], j))
    && (forall j :: 0 <= j < |indices| ==> DotEquation(R, pts, L, P, a, proof.dotProof, indices[j], j))
    && (forall j :: 0 <= j < |indices| ==>
          QuadraticEquation(R, pts, L, P, ch.quadraticProofBlind, proof.quadraticLow, proof.quadraticHigh, indices[j],
            j))
    && Merkle.Accepts(H.children, root, L.NumColumns() - L.Dblock(), IncludedNodes(R, H, P, proof.merkleTreeNonces),
      indices, proof.inclusionProof)
  }

  /** For any proof, honest or not, the checks are these equations. */
  lemma ChecksAreEquations<F(!new), N, C>(R: Field<F>, pts: seq<F>, H: Hashes<F, N, C>, L: TableauLayout, root: N,
                                          proof: LigeroProof<F, N, C>,
                                          linear: LinearConstraints<F>, quadratic: seq<QuadraticConstraint>,
                                          ch: LigeroChallenges<F>, indices: seq<nat>)
    requires IsRing(R) && L.Valid() && |pts| >= L.NumColumns() && WellFormedProof(L, proof) && Requested(L, indices)
    ensures Checks(R, pts, H, L, root, proof, linear, quadratic, ch, indices)
      <==> EquationsHold(R, pts, H, L, root, proof, linear, quadratic, ch, indices)
  {
    var P := proof.tableauColumns;
    var a := InnerProductOf(R, L, linear, ch.linearConstraintAlphas, quadratic, ch.quadraticConstraintAlphas);
    ProductMeans(R, L, linear, ch.linearConstraintAlphas, proof.dotProof);
    LowDegreeMeans(R, pts, L, P, indices, ch.lowDegreeTestBlind, proof.lowDegreeTestProof);
    DotRowMeans(R, pts, L, P, indices, a, proof.dotProof);
    QuadraticMeans(R, pts, L, P, indices, ch.quadraticProofBlind, proof.quadraticLow, proof.quadraticHigh);
  }

  /** The equations, with the challenges of a run from history h. */
  ghost predicate RunEquations<F, N, C>(R: Field<F>, pts: seq<F>, H: Hashes<F, N, C>, L: TableauLayout, o: FS.Oracle<F>,
                                        h: FS.History<F>,
                                        root: N, proof: LigeroProof<F, N, C>, linear: LinearConstraints<F>,
                                          quadratic: seq<QuadraticConstraint>)
    requires L.Valid() && |pts| >= L.NumColumns() && WellFormedProof(L, proof)
  {
    var indices := RunIndices(o, ProofHistory(h, L, |linear.rhs|, |quadratic|, proof), L);
    && Requested(L, indices)
    && EquationsHold(R, pts, H, L, root, proof, linear, quadratic, RunChallenges(o, h, L, |linear.rhs|, |quadratic|),
      indices)
  }

  lemma AcceptanceIsEquations<F(!new), N, C>(R: Field<F>, pts: seq<F>, H: Hashes<F, N, C>, L: TableauLayout,
                                             o: FS.Oracle<F>, h: FS.History<F>,
                                             root: N, proof: LigeroProof<F, N, C>, linear: LinearConstraints<F>,
                                               quadratic: seq<QuadraticConstraint>)
    requires IsRing(R) && L.Valid() && |pts| >= L.NumColumns() && WellFormedProof(L, proof) && FS.ValidOracle(o)
    ensures VerifierAccepts(R, pts, H, L, o, h, root, proof, linear, quadratic)
      <==> RunEquations(R, pts, H, L, o, h, root, proof, linear, quadratic)
  {
    var after := ProofHistory(h, L, |linear.rhs|, |quadratic|, proof);
    assert FS.NaturalsShape(o, after, L.NumColumns() - L.Dblock(), L.NumRequestedColumns());
    ChecksAreEquations(R, pts, H, L, root, proof, linear, quadratic, RunChallenges(o, h, L, |linear.rhs|, |quadratic|),
      RunIndices(o, after, L));
  }

  /** A column of the proof, with its nonce, has the hash of the committed column, with its nonce. */
  ghost predicate SameLeaf<F, N, C>(R: Field<F>, H: Hashes<F, N, C>, L: TableauLayout, T: seq<seq<F>>, nonces: seq<C>,
                                    proof: LigeroProof<F, N, C>, index: nat, j: nat)
    requires L.Valid() && WellFormedProof(L, proof) && j < L.NumRequestedColumns() && index < |nonces|
  {
    var sent := seq(|proof.tableauColumns|, (r: nat) => Cell(R, proof.tableauColumns, r, j));
    var committed := seq(|T|, (r: nat) => Cell(R, T, r, L.Dblock() + index));
    H.leaf(proof.merkleTreeNonces[j], sent) == H.leaf(nonces[index], committed)
  }

  /** Against the commitment to a tableau, every accepted column hashes like the committed one, or two nodes collide. */
  lemma AcceptedColumnsAreCommitted<F(!new), N(!new), C>(R: Field<F>, H: Hashes<F, N, C>, L: TableauLayout,
                                                         T: seq<seq<F>>, nonces: seq<C>,
                                                         digests: seq<N>, proof: LigeroProof<F, N, C>,
                                                           indices: seq<nat>)
    requires L.Valid() && WellFormedProof(L, proof) && Commits(R, H, L, T, nonces, digests) && Requested(L, indices)
    requires forall i, j :: 0 <= i < j < |indices| ==> indices[i] != indices[j]
    requires Merkle.Accepts(H.children, digests[1], |nonces|,
      IncludedNodes(R, H, proof.tableauColumns, proof.merkleTreeNonces), indices,
                            proof.inclusionProof)
    ensures (forall j :: 0 <= j < |indices| ==> SameLeaf(R, H, L, T, nonces, proof, indices[j], j))
      || Merkle.Collision(H.children, digests, |nonces|,
        IncludedNodes(R, H, proof.tableauColumns, proof.merkleTreeNonces), indices,
                          proof.inclusionProof)
  {
    var nodes := IncludedNodes(R, H, proof.tableauColumns, proof.merkleTreeNonces);
    Merkle.MerkleBindingDistinct(H.children, digests, |nonces|, nodes, indices, proof.inclusionProof);
    if forall k :: 0 <= k < |nodes| ==> nodes[k] == digests[|nonces| + indices[k]] {
      forall j | 0 <= j < |indices| ensures SameLeaf(R, H, L, T, nonces, proof, indices[j], j) {
        LeafOfColumn(R, H, L, T, nonces, digests, proof, indices[j], j);
      }
    }
  }

  lemma LeafOfColumn<F, N(!new), C>(R: Field<F>, H: Hashes<F, N, C>, L: TableauLayout, T: seq<seq<F>>, nonces: seq<C>,
                                    digests: seq<N>, proof: LigeroProof<F, N, C>, index: nat, j: nat)
    requires L.Valid() && WellFormedProof(L, proof) && Commits(R, H, L, T, nonces, digests) && index < |nonces|
    requires j < L.NumRequestedColumns()
    requires IncludedNodes(R, H, proof.tableauColumns, proof.merkleTreeNonces)[j] == digests[|nonces| + index]
    ensures SameLeaf(R, H, L, T, nonces, proof, index, j)
  {
    assert LeafIs(R, H, L, T, nonces, digests, index);
    assert seq(|T|, (r: nat) => Cell(R, T, r, L.Dblock() + index)) == Column(R, T, L.Dblock() + index);
    assert seq(|proof.tableauColumns|, (r: nat) => Cell(R, proof.tableauColumns, r, j))
      == Column(R, proof.tableauColumns, j);
  }

  /**
   A prover that commits to a witness with exactly one violated quadratic constraint, and otherwise follows the
   protocol, is rejected if the blind of its row is not zero.
   */
  lemma ViolationIsRejected<F(!new), N(!new), C>(R: Field<F>, pts: seq<F>, H: Hashes<F, N, C>, L: TableauLayout,
                                                 o: FS.Oracle<F>, h: FS.History<F>,
                                                 w: seq<F>, linear: LinearConstraints<F>,
                                                   quadratic: seq<QuadraticConstraint>, T: seq<seq<F>>,
                                                 nonces: seq<C>, digests: seq<N>, proof: LigeroProof<F, N, C>, i: nat,
                                                   j: nat)
    requires IsField(R) && Distinct(pts) && L.Valid() && |pts| >= L.NumColumns() && FS.ValidOracle(o)
    requires GoodTableau(R, pts, L, FullWitness(R, L, w, quadratic), T) && Commits(R, H, L, T, nonces, digests)
    requires ProofOfRun(R, pts, L, o, h, T, linear, quadratic, nonces, digests, proof) && WellFormedProof(L, proof)
    requires i < L.NumQuadraticTriples() && j < L.WitnessesPerRow()
    requires ViolatesOnly(R, quadratic, w, i * L.WitnessesPerRow() + j)
    requires At(R, RunChallenges(o, h, L, |linear.rhs|, |quadratic|).quadraticProofBlind, i) != R.zero
    ensures !VerifierAccepts(R, pts, H, L, o, h, digests[1], proof, linear, quadratic)
  {
    var after := ProofHistory(h, L, |linear.rhs|, |quadratic|, proof);
    var ch, indices := RunChallenges(o, h, L, |linear.rhs|, |quadratic|), RunIndices(o, after, L);
    assert FS.NaturalsShape(o, after, L.NumColumns() - L.Dblock(), L.NumRequestedColumns());
    ViolationIsFound(R, pts, L, w, quadratic, T, indices, ch.quadraticProofBlind, i, j);
  }

  /**
   A prover that commits to a witness that meets the linear constraints, with exactly one wrong copy in the rows for the
   quadratic constraints, and otherwise follows the protocol, is rejected if the weight of that copy is not zero.
   */
  lemma WrongCopyIsRejected<F(!new), N(!new), C>(R: Field<F>, pts: seq<F>, H: Hashes<F, N, C>, L: TableauLayout,
                                                 o: FS.Oracle<F>, h: FS.History<F>,
                                                 full: seq<F>, linear: LinearConstraints<F>,
                                                   quadratic: seq<QuadraticConstraint>, T: seq<seq<F>>,
                                                 nonces: seq<C>, digests: seq<N>, proof: LigeroProof<F, N, C>,
                                                   kind: nat, k: nat)
    requires IsField(R) && Distinct(pts) && L.Valid() && |pts| >= L.NumColumns() && GoodTableau(R, pts, L, full, T)
    requires Commits(R, H, L, T, nonces, digests)
    requires LinearInRange(linear, L.numWitnesses) && QuadraticInRange(quadratic, L.numWitnesses)
      && L.numWitnesses <= |full|
    requires ProofOfRun(R, pts, L, o, h, T, linear, quadratic, nonces, digests, proof) && WellFormedProof(L, proof)
    requires LinearHold(R, linear, full[..L.numWitnesses]) && WrongCopyOnly(R, L, full, quadratic, kind, k)
    requires At(R, RunChallenges(o, h, L, |linear.rhs|, |quadratic|).quadraticConstraintAlphas, k * 3 + kind) != R.zero
    ensures !VerifierAccepts(R, pts, H, L, o, h, digests[1], proof, linear, quadratic)
  {
    var ch := RunChallenges(o, h, L, |linear.rhs|, |quadratic|);
    WrongCopyFails(R, pts, L, full, linear, ch.linearConstraintAlphas, quadratic, ch.quadraticConstraintAlphas, T, kind,
      k);
  }

  method FoldRightHandSides<F(!new)>(R: Field<F>, rhs: seq<F>, alphas: seq<F>) returns (sum: F)
    requires |rhs| == |alphas|
    ensures sum == Sum(R, |rhs|, RhsRows(R, rhs, alphas))
  {
    sum := R.zero;
    for c := 0 to |rhs|
      invariant sum == Sum(R, c, RhsRows(R, rhs, alphas))
    {
      sum := R.add(sum, R.mul(rhs[c], alphas[c]));
      assert RhsRows(R, rhs, alphas)(c) == RhsRow(R, rhs, alphas, c);
    }
  }

  method FoldWitnessPositions<F(!new)>(R: Field<F>, L: TableauLayout, dotProof: seq<F>) returns (sum: F)
    requires L.NumRequestedColumns() + L.WitnessesPerRow() <= |dotProof|
    ensures sum == WitnessSum(R, L, dotProof)
  {
    sum := R.zero;
    for j := 0 to L.WitnessesPerRow()
      invariant sum == RangeSum(R, dotProof, L.NumRequestedColumns(), j)
    {
      sum := R.add(sum, dotProof[L.NumRequestedColumns() + j]);
    }
  }

  /** `verify`: accepts exactly when all checks hold. */
  method Verify<F(!new, ==), N(==), C>(R: Field<F>, pts: seq<F>, H: Hashes<F, N, C>, L: TableauLayout,
                                       transcript: FS.Transcript<F>,
                                       commitment: N, proof: LigeroProof<F, N, C>, linear: LinearConstraints<F>,
                                         quadratic: seq<QuadraticConstraint>)
      returns (ok: bool)
    requires L.Valid() && |pts| >= L.NumColumns() && WellFormedProof(L, proof) && FS.ValidOracle(transcript.oracle)
    requires LinearInRange(linear, L.numWitnesses) && QuadraticInRange(quadratic, L.numWitnesses)
    modifies transcript
    ensures ok
      <==>
      VerifierAccepts(R, pts, H, L, transcript.oracle, old(transcript.history), commitment, proof, linear, quadratic)
    ensures IsRing(R) ==>
      (ok
        <==>
        RunEquations(R, pts, H, L, transcript.oracle, old(transcript.history), commitment, proof, linear, quadratic))
    ensures transcript.history == ProofHistory(old(transcript.history), L, |linear.rhs|, |quadratic|, proof)
      + [FS.DrawNaturals(L.NumColumns() - L.Dblock(), L.NumRequestedColumns())]
  {
    var ch := Generate(transcript, L, |linear.rhs|, |quadratic|);
    var indices :=
      RequestColumns(transcript, L, proof.lowDegreeTestProof, proof.dotProof, proof.quadraticLow, proof.quadraticHigh);
    ok := CheckAll(R, pts, H, L, commitment, proof, linear, quadratic, ch, indices);
    if IsRing(R) {
      AcceptanceIsEquations(R, pts, H, L, transcript.oracle, old(transcript.history), commitment, proof, linear,
        quadratic);
    }
  }

  method CheckAll<F(!new, ==), N(==), C>(R: Field<F>, pts: seq<F>, H: Hashes<F, N, C>, L: TableauLayout,
                                         commitment: N, proof: LigeroProof<F, N, C>, linear: LinearConstraints<F>,
                                           quadratic: seq<QuadraticConstraint>,
                                         ch: LigeroChallenges<F>, indices: seq<nat>)
      returns (ok: bool)
    requires L.Valid() && |pts| >= L.NumColumns() && WellFormedProof(L, proof)
    requires LinearInRange(linear, L.numWitnesses) && QuadraticInRange(quadratic, L.numWitnesses)
    requires ChallengeLengths(ch, L, |linear.rhs|, |quadratic|) && Requested(L, indices)
    ensures ok <==> Checks(R, pts, H, L, commitment, proof, linear, quadratic, ch, indices)
  {
    var P, ncol := proof.tableauColumns, L.NumColumns();
    var wantLowDegreeRow := SumLowDegree(R, P, ch.lowDegreeTestBlind, |indices|);
    if wantLowDegreeRow != Gather(R, L, Extended(R, pts, proof.lowDegreeTestProof, ncol), indices) {
      return false;
    }
    var wantDotProduct := FoldRightHandSides(R, linear.rhs, ch.linearConstraintAlphas);
    var proofDotProduct := FoldWitnessPositions(R, L, proof.dotProof);
    if wantDotProduct != proofDotProduct {
      return false;
    }
    var a := InnerProductVector(R, L, linear, ch.linearConstraintAlphas, quadratic, ch.quadraticConstraintAlphas);
    var wantDotRow := SumDotColumns(R, pts, L, P, indices, a);
    if wantDotRow != Gather(R, L, Extended(R, pts, proof.dotProof, ncol), indices) {
      return false;
    }
    var wantQuadraticRow := SumQuadratic(R, L, P, ch.quadraticProofBlind, |indices|);
    var stitched := Stitched(R, L, proof.quadraticLow, proof.quadraticHigh);
    if wantQuadraticRow != Gather(R, L, Extended(R, pts, stitched, ncol), indices) {
      return false;
    }
    ok :=
      Merkle.Verify(H.children, commitment, ncol - L.Dblock(), IncludedNodes(R, H, P, proof.merkleTreeNonces), indices,
      proof.inclusionProof);
  }

  // ----- Completeness -----

  /** The leaves that the verifier recomputes from an honest proof are those of the tree. */
  lemma HonestLeaves<F, N(!new), C>(R: Field<F>, H: Hashes<F, N, C>, L: TableauLayout, T: seq<seq<F>>, nonces: seq<C>,
                                    digests: seq<N>, indices: seq<nat>, j: nat)
    requires L.Valid() && Commits(R, H, L, T, nonces, digests) && IndicesInRange(indices, |nonces|) && j < |indices|
    ensures IncludedNodes(R, H, GatherRows(R, L, T, indices), NoncesAt(nonces, indices))[j]
      == digests[|nonces| + indices[j]]
  {
    var P, c := GatherRows(R, L, T, indices), L.Dblock() + indices[j];
    GatheredColumn(R, L, T, indices, j);
    assert Column(R, P, j) == Column(R, T, c);
    assert LeafIs(R, H, L, T, nonces, digests, indices[j]);
  }

  lemma HonestInclusion<F, N(!new), C>(R: Field<F>, H: Hashes<F, N, C>, L: TableauLayout, T: seq<seq<F>>,
                                       nonces: seq<C>, digests: seq<N>, indices: seq<nat>)
    requires L.Valid() && Commits(R, H, L, T, nonces, digests) && Requested(L, indices)
    ensures Merkle.Accepts(H.children, digests[1], |nonces|,
      IncludedNodes(R, H, GatherRows(R, L, T, indices), NoncesAt(nonces, indices)), indices,
                           Merkle.ProofFrom(|nonces|, indices, digests, |nonces| - 1))
  {
    var nodes := IncludedNodes(R, H, GatherRows(R, L, T, indices), NoncesAt(nonces, indices));
    forall j | 0 <= j < |nodes| ensures nodes[j] == digests[|nonces| + indices[j]] {
      HonestLeaves(R, H, L, T, nonces, digests, indices, j);
    }
    Merkle.MerkleCompleteness(H.children, digests, |nonces|, nodes, indices);
  }

  /** What the prover commits to: a tableau built from w, and a Merkle tree over it. */
  ghost predicate HonestCommitment<F(!new), N(!new), C>(R: Field<F>, pts: seq<F>, H: Hashes<F, N, C>, L: TableauLayout,
                                                        w: seq<F>,
                                                        quadratic: seq<QuadraticConstraint>, T: seq<seq<F>>,
                                                          nonces: seq<C>, digests: seq<N>)
  {
    && IsField(R) && Distinct(pts) && L.Valid() && |pts| >= L.NumColumns()
    && |w| == L.numWitnesses && QuadraticInRange(quadratic, |w|) && QuadraticHold(R, quadratic, w)
    && GoodTableau(R, pts, L, FullWitness(R, L, w, quadratic), T)
    && Commits(R, H, L, T, nonces, digests)
  }

  lemma ProofForShape<F(!new), N(!new), C>(R: Field<F>, pts: seq<F>, H: Hashes<F, N, C>, L: TableauLayout, w: seq<F>,
                                           linear: LinearConstraints<F>,
                                           quadratic: seq<QuadraticConstraint>, T: seq<seq<F>>, nonces: seq<C>,
                                             digests: seq<N>,
                                           ch: LigeroChallenges<F>, indices: seq<nat>)
    requires HonestCommitment(R, pts, H, L, w, quadratic, T, nonces, digests) && Requested(L, indices)
    ensures WellFormedProof(L, ProofFor(R, pts, L, T, linear, quadratic, ch, indices, nonces, digests))
  {
  }

  lemma StitchedCheckPasses<F(!new)>(R: Field<F>, pts: seq<F>, L: TableauLayout, w: seq<F>,
                                     quadratic: seq<QuadraticConstraint>, T: seq<seq<F>>,
                                     indices: seq<nat>, u: seq<F>)
    requires IsField(R) && Distinct(pts) && L.Valid() && |pts| >= L.NumColumns() && QuadraticHold(R, quadratic, w)
    requires GoodTableau(R, pts, L, FullWitness(R, L, w, quadratic), T) && Requested(L, indices)
    ensures var q := QuadraticProof(R, L, T, u);
      QuadraticCheck(R, pts, L, GatherRows(R, L, T, indices), indices, u,
        Stitched(R, L, q[..L.NumRequestedColumns()], q[L.BlockSize()..]))
  {
    QuadraticCheckPasses(R, pts, L, FullWitness(R, L, w, quadratic), T, indices, u);
    StitchedProof(R, pts, L, w, quadratic, T, u);
  }

  /** The checks on the requested columns pass. */
  lemma HonestColumns<F(!new), N(!new), C>(R: Field<F>, pts: seq<F>, H: Hashes<F, N, C>, L: TableauLayout, w: seq<F>,
                                           linear: LinearConstraints<F>,
                                           quadratic: seq<QuadraticConstraint>, T: seq<seq<F>>, nonces: seq<C>,
                                             digests: seq<N>,
                                           ch: LigeroChallenges<F>, indices: seq<nat>, proof: LigeroProof<F, N, C>)
    requires HonestCommitment(R, pts, H, L, w, quadratic, T, nonces, digests) && Requested(L, indices)
    requires proof == ProofFor(R, pts, L, T, linear, quadratic, ch, indices, nonces, digests)
      && WellFormedProof(L, proof)
    ensures ColumnChecks(R, pts, H, L, digests[1], proof,
                         InnerProductOf(R, L, linear, ch.linearConstraintAlphas, quadratic,
                           ch.quadraticConstraintAlphas), ch, indices)
  {
    var full := FullWitness(R, L, w, quadratic);
    var a := InnerProductOf(R, L, linear, ch.linearConstraintAlphas, quadratic, ch.quadraticConstraintAlphas);
    LowDegreeCheckPasses(R, pts, L, full, T, indices, ch.lowDegreeTestBlind);
    DotRowCheckPasses(R, pts, L, full, T, indices, a);
    StitchedCheckPasses(R, pts, L, w, quadratic, T, indices, ch.quadraticProofBlind);
    HonestInclusion(R, H, L, T, nonces, digests, indices);
  }

  /**
   For an honest commitment every check passes except that the dot product check decides the combined linear constraint:
   whatever the parameters, the pads, the nonces, the challenges and the requested columns.
   */
  lemma HonestChecks<F(!new), N(!new), C>(R: Field<F>, pts: seq<F>, H: Hashes<F, N, C>, L: TableauLayout, w: seq<F>,
                                          linear: LinearConstraints<F>,
                                          quadratic: seq<QuadraticConstraint>, T: seq<seq<F>>, nonces: seq<C>,
                                            digests: seq<N>,
                                          ch: LigeroChallenges<F>, indices: seq<nat>, proof: LigeroProof<F, N, C>)
    requires HonestCommitment(R, pts, H, L, w, quadratic, T, nonces, digests) && Requested(L, indices)
      && LinearInRange(linear, |w|)
    requires proof == ProofFor(R, pts, L, T, linear, quadratic, ch, indices, nonces, digests)
    ensures WellFormedProof(L, proof)
    ensures Checks(R, pts, H, L, digests[1], proof, linear, quadratic, ch, indices)
      <==>
        AlphaLhs(R, linear.lhs, ch.linearConstraintAlphas, w)
        == Sum(R, |linear.rhs|, RhsRows(R, linear.rhs, ch.linearConstraintAlphas))
  {
    ProofForShape(R, pts, H, L, w, linear, quadratic, T, nonces, digests, ch, indices);
    HonestColumns(R, pts, H, L, w, linear, quadratic, T, nonces, digests, ch, indices, proof);
    DotProductCheckDecides(R, pts, L, w, linear, ch.linearConstraintAlphas, quadratic, ch.quadraticConstraintAlphas, T);
  }

  /** Completeness: if the witness also satisfies the linear constraints, the verifier accepts the prover's proof. */
  lemma LigeroCompleteness<F(!new), N(!new), C>(R: Field<F>, pts: seq<F>, H: Hashes<F, N, C>, L: TableauLayout,
                                                o: FS.Oracle<F>, h: FS.History<F>,
                                                w: seq<F>, linear: LinearConstraints<F>,
                                                  quadratic: seq<QuadraticConstraint>, T: seq<seq<F>>,
                                                nonces: seq<C>, digests: seq<N>, proof: LigeroProof<F, N, C>)
    requires HonestCommitment(R, pts, H, L, w, quadratic, T, nonces, digests)
    requires LinearInRange(linear, |w|) && LinearHold(R, linear, w)
    requires ProofOfRun(R, pts, L, o, h, T, linear, quadratic, nonces, digests, proof)
    ensures WellFormedProof(L, proof) && VerifierAccepts(R, pts, H, L, o, h, digests[1], proof, linear, quadratic)
  {
    var ch := RunChallenges(o, h, L, |linear.rhs|, |quadratic|);
    var indices := RunIndices(o, ProofHistory(h, L, |linear.rhs|, |quadratic|, proof), L);
    AlphaCombination(R, linear, ch.linearConstraintAlphas, w);
    HonestChecks(R, pts, H, L, w, linear, quadratic, T, nonces, digests, ch, indices, proof);
  }

  /**
   A prover whose witness violates exactly one linear constraint is rejected if the weight of that row is not zero.
   */
  lemma OneRowIsRejected<F(!new), N(!new), C>(R: Field<F>, pts: seq<F>, H: Hashes<F, N, C>, L: TableauLayout,
                                              o: FS.Oracle<F>, h: FS.History<F>,
                                              w: seq<F>, linear: LinearConstraints<F>,
                                                quadratic: seq<QuadraticConstraint>, T: seq<seq<F>>,
                                              nonces: seq<C>, digests: seq<N>, proof: LigeroProof<F, N, C>, k: nat)
    requires HonestCommitment(R, pts, H, L, w, quadratic, T, nonces, digests)
    requires LinearInRange(linear, |w|) && ViolatesRow(R, linear, w, k)
    requires ProofOfRun(R, pts, L, o, h, T, linear, quadratic, nonces, digests, proof)
    requires At(R, RunChallenges(o, h, L, |linear.rhs|, |quadratic|).linearConstraintAlphas, k) != R.zero
    ensures WellFormedProof(L, proof) && !VerifierAccepts(R, pts, H, L, o, h, digests[1], proof, linear, quadratic)
  {
    var ch := RunChallenges(o, h, L, |linear.rhs|, |quadratic|);
    var indices := RunIndices(o, ProofHistory(h, L, |linear.rhs|, |quadratic|, proof), L);
    OneRowShows(R, linear, ch.linearConstraintAlphas, w, k);
    HonestChecks(R, pts, H, L, w, linear, quadratic, T, nonces, digests, ch, indices, proof);
  }

  /**
   A whole run: build the tableau, commit, prove and verify, with the two sides starting from equal transcripts. For
   every witness that satisfies the constraints, all randomness and all challenges, the verifier accepts and both
   transcripts end equal.
   */
  method CommitProveVerify<F(!new, ==), N(==, !new), C>(R: Field<F>, pts: seq<F>, H: Hashes<F, N, C>, L: TableauLayout,
                                                        w: seq<F>,
                                                        linear: LinearConstraints<F>,
                                                          quadratic: seq<QuadraticConstraint>, random: nat -> F,
                                                        nonce: nat -> C, emptyNode: N, emptyNonce: C,
                                                        prover: FS.Transcript<F>, verifier: FS.Transcript<F>)
      returns (ok: bool)
    requires IsField(R) && Distinct(pts) && L.Valid() && |pts| >= L.NumColumns() && |w| == L.numWitnesses
    requires LinearInRange(linear, |w|) && LinearHold(R, linear, w)
    requires QuadraticInRange(quadratic, |w|) && QuadraticHold(R, quadratic, w)
      && |quadratic| == L.numQuadraticConstraints
    requires prover != verifier && prover.oracle == verifier.oracle && prover.history == verifier.history
      && FS.ValidOracle(prover.oracle)
    modifies prover, verifier
    ensures ok && prover.history == verifier.history
  {
    var T := Build(R, pts, L, w, quadratic, random);
    BuildIsGood(R, pts, L, w, quadratic, random, T);
    var tree := Commit(R, H, L, T, nonce, emptyNode, emptyNonce);
    var root := tree.Root();
    ghost var h := prover.history;
    var proof := Prove(R, pts, L, prover, T, tree, linear, quadratic, w);
    LigeroCompleteness(R, pts, H, L, prover.oracle, h, w, linear, quadratic, T, tree.nonces, tree.digests, proof);
    ok := Verify(R, pts, H, L, verifier, root, proof, linear, quadratic);
  }
}
