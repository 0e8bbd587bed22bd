/**
 The inner product vector of src/ligero/prover.rs: one linear form on the flattened constraint rows that combines all
 linear constraints, and the equality of every copied witness with its original.
 */
module InnerProduct {
  import opened Fields
  import opened Sums
  import opened Dots
  import opened Constraints
  import opened Tableau
  import opened LigeroRows

  /** The contributions of the first n terms of the linear constraints. */
  ghost function LinearVector<F>(R: Field<F>, size: nat, lhs: seq<LhsTerm<F>>, alphas: seq<F>, n: nat): (v: seq<F>)
    requires n <= |lhs|
    ensures |v| == size
  {
    if n == 0 then Zeros(R, size)
    else
      var t := lhs[n - 1];
      AddAt(R, LinearVector(R, size, lhs, alphas, n - 1), t.witnessIndex, R.mul(At(R, alphas, t.constraint), t.factor))
  }

  /** Weigh the difference of entries a and b by x. */
  function AddPair<F>(R: Field<F>, v: seq<F>, a: nat, b: nat, x: F): (r: seq<F>)
    ensures |r| == |v|
  {
    AddAt(R, AddAt(R, v, a, x), b, R.neg(x))
  }

  ghost function CopyStep<F>(R: Field<F>, L: TableauLayout, v: seq<F>, q: QuadraticConstraint, alphas: seq<F>,
                             k: nat): (r: seq<F>)
    requires L.Valid()
    ensures |r| == |v|
  {
    var x := AddPair(R, v, L.CopyStart(0) + k, q.x, At(R, alphas, k * 3));
    var y := AddPair(R, x, L.CopyStart(1) + k, q.y, At(R, alphas, k * 3 + 1));
    AddPair(R, y, L.CopyStart(2) + k, q.z, At(R, alphas, k * 3 + 2))
  }

  /** The contributions of the first n quadratic constraints on top of v. */
  ghost function CopyVector<F>(R: Field<F>, L: TableauLayout, v: seq<F>, quadratic: seq<QuadraticConstraint>,
                               alphas: seq<F>, n: nat): (r: seq<F>)
    requires L.Valid() && n <= |quadratic|
    ensures |r| == |v|
  {
    if n == 0 then v else CopyStep(R, L, CopyVector(R, L, v, quadratic, alphas, n - 1), quadratic[n - 1], alphas, n - 1)
  }

  /** How many quadratic constraints have copies in the tableau. */
  function NumCopies(L: TableauLayout, quadratic: seq<QuadraticConstraint>): (n: nat)
    requires L.Valid()
    ensures n <= |quadratic|
  {
    Min(|quadratic|, L.NumQuadraticTriples() * L.WitnessesPerRow())
  }

  /** All of them, if a row has room for the constraints that are laid out for it. */
  lemma AllCopied(L: TableauLayout, quadratic: seq<QuadraticConstraint>)
    requires L.Valid() && |quadratic| == L.numQuadraticConstraints
      && L.parameters.quadraticConstraintsPerRow <= L.WitnessesPerRow()
    ensures NumCopies(L, quadratic) == |quadratic|
  {
    var t, qr, wr := L.NumQuadraticTriples(), L.parameters.quadraticConstraintsPerRow, L.WitnessesPerRow();
    DivCeilCovers(|quadratic|, qr);
    assert t * qr + t * (wr - qr) == t * wr;
    assert t * (wr - qr) >= 0;
  }

  ghost function InnerProductOf<F>(R: Field<F>, L: TableauLayout, linear: LinearConstraints<F>, linearAlphas: seq<F>,
                                   quadratic: seq<QuadraticConstraint>, quadraticAlphas: seq<F>): (v: seq<F>)
    requires L.Valid()
    ensures |v| == L.Size()
  {
    CopyVector(R, L, LinearVector(R, L.Size(), linear.lhs, linearAlphas, |linear.lhs|), quadratic, quadraticAlphas,
      NumCopies(L, quadratic))
  }

  // ----- The method -----

  method LinearTerms<F(!new)>(R: Field<F>, L: TableauLayout, linear: LinearConstraints<F>, alphas: seq<F>)
      returns (v: seq<F>)
    requires L.Valid() && LinearInRange(linear, L.numWitnesses) && |alphas| == |linear.rhs|
    ensures v == LinearVector(R, L.Size(), linear.lhs, alphas, |linear.lhs|)
  {
    CopyStarts(L);
    v := Zeros(R, L.Size());
    for n := 0 to |linear.lhs|
      invariant v == LinearVector(R, L.Size(), linear.lhs, alphas, n)
    {
      var t := linear.lhs[n];
      v := v[t.witnessIndex := R.add(v[t.witnessIndex], R.mul(alphas[t.constraint], t.factor))];
    }
  }

  method CopyTerms<F(!new)>(R: Field<F>, L: TableauLayout, v: seq<F>, q: QuadraticConstraint, alphas: seq<F>,
                            index: nat) returns (r: seq<F>)
    requires L.Valid() && |v| == L.Size() && index < L.NumQuadraticTriples() * L.WitnessesPerRow()
      && index * 3 + 2 < |alphas|
    requires q.x < L.numWitnesses && q.y < L.numWitnesses && q.z < L.numWitnesses
    ensures r == CopyStep(R, L, v, q, alphas, index)
  {
    CopyStarts(L);
    var xs, ys, zs := L.CopyStart(0), L.CopyStart(1), L.CopyStart(2);
    var alphaX, alphaY, alphaZ := alphas[index * 3], alphas[index * 3 + 1], alphas[index * 3 + 2];
    r := v[xs + index := R.add(v[xs + index], alphaX)];
    r := r[q.x := R.sub(r[q.x], alphaX)];
    assert r == AddPair(R, v, xs + index, q.x, alphaX);
    ghost var x := r;
    r := r[ys + index := R.add(r[ys + index], alphaY)];
    r := r[q.y := R.sub(r[q.y], alphaY)];
    assert r == AddPair(R, x, ys + index, q.y, alphaY);
    ghost var y := r;
    r := r[zs + index := R.add(r[zs + index], alphaZ)];
    r := r[q.z := R.sub(r[q.z], alphaZ)];
    assert r == AddPair(R, y, zs + index, q.z, alphaZ);
  }

  /** The constraints whose copies are in one triple of rows. */
  method CopyRowTerms<F(!new)>(R: Field<F>, L: TableauLayout, v: seq<F>, ghost first: seq<F>,
                               quadratic: seq<QuadraticConstraint>, alphas: seq<F>,
                               start: nat, ghost done: nat)
      returns (r: seq<F>, ghost after: nat)
    requires L.Valid() && |first| == L.Size()
      && start + L.WitnessesPerRow() <= L.NumQuadraticTriples() * L.WitnessesPerRow()
    requires QuadraticInRange(quadratic, L.numWitnesses) && |alphas| == 3 * |quadratic|
    requires done == Min(|quadratic|, start) && v == CopyVector(R, L, first, quadratic, alphas, done)
    ensures after == Min(|quadratic|, start + L.WitnessesPerRow())
      && r == CopyVector(R, L, first, quadratic, alphas, after)
  {
    r, after := v, done;
    for j := 0 to L.WitnessesPerRow()
      invariant after == Min(|quadratic|, start + j) && r == CopyVector(R, L, first, quadratic, alphas, after)
    {
      var index := j + start;
      if index >= |quadratic| {
        break;
      }
      r := CopyTerms(R, L, r, quadratic[index], alphas, index);
      after := after + 1;
    }
  }

  /** `inner_product_vector` */
  method InnerProductVector<F(!new)>(R: Field<F>, L: TableauLayout, linear: LinearConstraints<F>, linearAlphas: seq<F>,
                                     quadratic: seq<QuadraticConstraint>, quadraticAlphas: seq<F>)
      returns (v: seq<F>)
    requires L.Valid() && LinearInRange(linear, L.numWitnesses) && |linearAlphas| == |linear.rhs|
    requires QuadraticInRange(quadratic, L.numWitnesses) && |quadraticAlphas| == 3 * |quadratic|
    ensures v == InnerProductOf(R, L, linear, linearAlphas, quadratic, quadraticAlphas)
  {
    v := LinearTerms(R, L, linear, linearAlphas);
    v := AllCopyTerms(R, L, v, quadratic, quadraticAlphas);
  }

  method AllCopyTerms<F(!new)>(R: Field<F>, L: TableauLayout, first: seq<F>, quadratic: seq<QuadraticConstraint>,
                               quadraticAlphas: seq<F>)
      returns (v: seq<F>)
    requires L.Valid() && |first| == L.Size()
    requires QuadraticInRange(quadratic, L.numWitnesses) && |quadraticAlphas| == 3 * |quadratic|
    ensures v == CopyVector(R, L, first, quadratic, quadraticAlphas, NumCopies(L, quadratic))
  {
    v := first;
    ghost var done := 0;
    var wr := L.WitnessesPerRow();
    for i := 0 to L.NumQuadraticTriples()
      invariant done == Min(|quadratic|, i * wr) && v == CopyVector(R, L, first, quadratic, quadraticAlphas, done)
    {
      RowsInside(i, L.NumQuadraticTriples(), wr);
      v, done := CopyRowTerms(R, L, v, first, quadratic, quadraticAlphas, i * wr, done);
    }
  }

  // ----- Its inner product with the constraint rows -----

  lemma {:induction false} DotLinear<F(!new)>(R: Field<F>, size: nat, linear: LinearConstraints<F>, alphas: seq<F>,
                                              w: seq<F>, full: seq<F>, n: nat)
    requires IsRing(R) && LinearInRange(linear, |w|) && |w| <= size && n <= |linear.lhs|
    requires forall t :: 0 <= t < |w| ==> At(R, full, t) == w[t]
    ensures Dot(R, LinearVector(R, size, linear.lhs, alphas, n), full, size) == AlphaLhs(R, linear.lhs[..n], alphas, w)
    decreases n
  {
    if n == 0 {
      DotZeros(R, size, full, size);
    } else {
      var m := n - 1;
      var t := linear.lhs[m];
      DotLinear(R, size, linear, alphas, w, full, m);
      assert linear.lhs[..n][..m] == linear.lhs[..m];
      DotAddAt(R, LinearVector(R, size, linear.lhs, alphas, m), full, t.witnessIndex,
        R.mul(At(R, alphas, t.constraint), t.factor), size);
      assert n == m + 1;
    }
  }

  /** x times the difference of entries a and b. */
  ghost function Gap<F>(R: Field<F>, full: seq<F>, a: nat, b: nat, x: F): F {
    R.mul(x, R.sub(At(R, full, a), At(R, full, b)))
  }

  lemma DotPair<F(!new)>(R: Field<F>, v: seq<F>, full: seq<F>, a: nat, b: nat, x: F)
    requires IsRing(R) && a < |v| && b < |v|
    ensures Dot(R, AddPair(R, v, a, b, x), full, |v|) == R.add(Dot(R, v, full, |v|), Gap(R, full, a, b, x))
  {
    DotAddAt(R, v, full, a, x, |v|);
    DotAddAt(R, AddAt(R, v, a, x), full, b, R.neg(x), |v|);
    PairRing(R, Dot(R, v, full, |v|), x, At(R, full, a), At(R, full, b));
  }

  lemma PairRing<F(!new)>(R: Field<F>, d: F, x: F, f: F, g: F)
    requires IsRing(R)
    ensures R.add(R.add(d, R.mul(x, f)), R.mul(R.neg(x), g)) == R.add(d, R.mul(x, R.sub(f, g)))
  {
    Ring(R, A(A(V(0), M(V(1), V(2))), M(N(V(1)), V(3))), A(V(0), M(V(1), S(V(2), V(3)))), [d, x, f, g]);
  }

  /**
   What quadratic constraint k adds: its three copies minus the witnesses that they copy, each with its own weight.
   */
  ghost function CopyGap<F>(R: Field<F>, L: TableauLayout, full: seq<F>, q: QuadraticConstraint, alphas: seq<F>,
                            k: nat): F
    requires L.Valid()
  {
    R.add(R.add(Gap(R, full, L.CopyStart(0) + k, q.x, At(R, alphas, k * 3)),
      Gap(R, full, L.CopyStart(1) + k, q.y, At(R, alphas, k * 3 + 1))),
      Gap(R, full, L.CopyStart(2) + k, q.z, At(R, alphas, k * 3 + 2)))
  }

  ghost function CopyGapsOf<F>(R: Field<F>, L: TableauLayout, full: seq<F>, quadratic: seq<QuadraticConstraint>,
                               alphas: seq<F>): int -> F
    requires L.Valid()
  {
    (k: int) => if 0 <= k < |quadratic| then CopyGap(R, L, full, quadratic[k], alphas, k) else R.zero
  }

  /** The flattened constraint rows hold each witness and each copy. */
  lemma FullEntry<F>(R: Field<F>, L: TableauLayout, w: seq<F>, quadratic: seq<QuadraticConstraint>, kind: nat, k: nat)
    requires L.Valid() && |w| == L.numWitnesses && QuadraticInRange(quadratic, |w|) && kind < 3
      && k < NumCopies(L, quadratic)
    ensures var full := FullWitness(R, L, w, quadratic);
      L.CopyStart(kind) + k < L.Size() && Coordinate(quadratic[k], kind) < L.Size()
      && At(R, full, L.CopyStart(kind) + k) == At(R, full, Coordinate(quadratic[k], kind))
  {
    CopyStarts(L);
  }

  lemma FullIsWitness<F>(R: Field<F>, L: TableauLayout, w: seq<F>, quadratic: seq<QuadraticConstraint>)
    requires L.Valid() && |w| == L.numWitnesses
    ensures |w| <= L.Size() && forall t :: 0 <= t < |w| ==> At(R, FullWitness(R, L, w, quadratic), t) == w[t]
  {
    CopyStarts(L);
  }

  lemma DotCopyStep<F(!new)>(R: Field<F>, L: TableauLayout, v: seq<F>, q: QuadraticConstraint, alphas: seq<F>, k: nat,
                             full: seq<F>)
    requires IsRing(R) && L.Valid() && q.x < |v| && q.y < |v| && q.z < |v|
    requires L.CopyStart(0) + k < |v| && L.CopyStart(1) + k < |v| && L.CopyStart(2) + k < |v|
    ensures Dot(R, CopyStep(R, L, v, q, alphas, k), full, |v|)
      == R.add(Dot(R, v, full, |v|), CopyGap(R, L, full, q, alphas, k))
  {
    ThreePairs(R, v, full, L.CopyStart(0) + k, q.x, At(R, alphas, k * 3), L.CopyStart(1) + k, q.y,
      At(R, alphas, k * 3 + 1),
               L.CopyStart(2) + k, q.z, At(R, alphas, k * 3 + 2));
  }

  lemma ThreePairs<F(!new)>(R: Field<F>, v: seq<F>, full: seq<F>, a: nat, b: nat, x: F, c: nat, d: nat, y: F, e: nat,
                            f: nat, z: F)
    requires IsRing(R) && a < |v| && b < |v| && c < |v| && d < |v| && e < |v| && f < |v|
    ensures Dot(R, AddPair(R, AddPair(R, AddPair(R, v, a, b, x), c, d, y), e, f, z), full, |v|)
      == R.add(Dot(R, v, full, |v|), R.add(R.add(Gap(R, full, a, b, x), Gap(R, full, c, d, y)), Gap(R, full, e, f, z)))
  {
    DotPair(R, v, full, a, b, x);
    DotPair(R, AddPair(R, v, a, b, x), full, c, d, y);
    DotPair(R, AddPair(R, AddPair(R, v, a, b, x), c, d, y), full, e, f, z);
    ThreeAdded(R, Dot(R, v, full, |v|), Gap(R, full, a, b, x), Gap(R, full, c, d, y), Gap(R, full, e, f, z));
  }

  lemma ThreeAdded<F(!new)>(R: Field<F>, d: F, a: F, b: F, c: F)
    requires IsRing(R)
    ensures R.add(R.add(R.add(d, a), b), c) == R.add(d, R.add(R.add(a, b), c))
  {
    Ring(R, A(A(A(V(0), V(1)), V(2)), V(3)), A(V(0), A(A(V(1), V(2)), V(3))), [d, a, b, c]);
  }

  lemma CopyInside(L: TableauLayout, quadratic: seq<QuadraticConstraint>, k: nat)
    requires L.Valid() && QuadraticInRange(quadratic, L.numWitnesses) && k < NumCopies(L, quadratic)
    ensures L.CopyStart(0) + k < L.Size() && L.CopyStart(1) + k < L.Size() && L.CopyStart(2) + k < L.Size()
    ensures quadratic[k].x < L.Size() && quadratic[k].y < L.Size() && quadratic[k].z < L.Size()
  {
    CopyStarts(L);
  }

  lemma {:induction false} DotCopies<F(!new)>(R: Field<F>, L: TableauLayout, quadratic: seq<QuadraticConstraint>,
                                              alphas: seq<F>, v: seq<F>, full: seq<F>, n: nat)
    requires IsRing(R) && L.Valid() && QuadraticInRange(quadratic, L.numWitnesses) && |v| == L.Size()
      && n <= NumCopies(L, quadratic)
    ensures Dot(R, CopyVector(R, L, v, quadratic, alphas, n), full, |v|)
      == R.add(Dot(R, v, full, |v|), Sum(R, n, CopyGapsOf(R, L, full, quadratic, alphas)))
  {
    if n == 0 {
      assert Laws1(R, Dot(R, v, full, |v|));
    } else {
      var m := n - 1;
      DotCopies(R, L, quadratic, alphas, v, full, m);
      CopyInside(L, quadratic, m);
      DotCopyStep(R, L, CopyVector(R, L, v, quadratic, alphas, m), quadratic[m], alphas, m, full);
      NextGap(R, L, quadratic, alphas, full, m, Dot(R, v, full, |v|));
      assert n == m + 1;
    }
  }

  lemma NextGap<F(!new)>(R: Field<F>, L: TableauLayout, quadratic: seq<QuadraticConstraint>, alphas: seq<F>,
                         full: seq<F>, m: nat, d: F)
    requires IsRing(R) && L.Valid() && m < |quadratic|
    ensures R.add(d, Sum(R, m + 1, CopyGapsOf(R, L, full, quadratic, alphas)))
      == R.add(R.add(d, Sum(R, m, CopyGapsOf(R, L, full, quadratic, alphas))),
        CopyGap(R, L, full, quadratic[m], alphas, m))
  {
    var gaps := CopyGapsOf(R, L, full, quadratic, alphas);
    assert gaps(m) == CopyGap(R, L, full, quadratic[m], alphas, m);
    assert Laws3(R, d, Sum(R, m, gaps), gaps(m));
  }

  /**
   What the inner product vector weighs, whatever the constraint rows hold: the left hand sides of the linear
   constraints for the witnesses in them, and for every quadratic constraint the differences between its copies and
   those witnesses.
   */
  lemma InnerProductMeans<F(!new)>(R: Field<F>, L: TableauLayout, full: seq<F>, linear: LinearConstraints<F>,
                                   linearAlphas: seq<F>,
                                   quadratic: seq<QuadraticConstraint>, quadraticAlphas: seq<F>)
    requires IsRing(R) && L.Valid() && LinearInRange(linear, L.numWitnesses)
      && QuadraticInRange(quadratic, L.numWitnesses)
    requires L.numWitnesses <= |full|
    ensures Dot(R, InnerProductOf(R, L, linear, linearAlphas, quadratic, quadraticAlphas), full, L.Size())
      == R.add(AlphaLhs(R, linear.lhs, linearAlphas, full[..L.numWitnesses]),
        Sum(R, NumCopies(L, quadratic), CopyGapsOf(R, L, full, quadratic, quadraticAlphas)))
  {
    var w, v := full[..L.numWitnesses], LinearVector(R, L.Size(), linear.lhs, linearAlphas, |linear.lhs|);
    CopyStarts(L);
    DotCopies(R, L, quadratic, quadraticAlphas, v, full, NumCopies(L, quadratic));
    DotLinear(R, L.Size(), linear, linearAlphas, w, full, |linear.lhs|);
    assert linear.lhs[..|linear.lhs|] == linear.lhs;
  }

  lemma NoGap<F(!new)>(R: Field<F>, full: seq<F>, a: nat, b: nat, x: F)
    requires IsRing(R) && At(R, full, a) == At(R, full, b)
    ensures Gap(R, full, a, b, x) == R.zero
  {
    SubZero(R, At(R, full, a), At(R, full, b));
    MulZero(R, x);
  }

  lemma NoCopyGap<F(!new)>(R: Field<F>, L: TableauLayout, full: seq<F>, q: QuadraticConstraint, alphas: seq<F>, k: nat)
    requires IsRing(R) && L.Valid() && At(R, full, L.CopyStart(0) + k) == At(R, full, q.x)
    requires At(R, full, L.CopyStart(1) + k) == At(R, full, q.y) && At(R, full, L.CopyStart(2) + k) == At(R, full, q.z)
    ensures CopyGap(R, L, full, q, alphas, k) == R.zero
  {
    NoGap(R, full, L.CopyStart(0) + k, q.x, At(R, alphas, k * 3));
    NoGap(R, full, L.CopyStart(1) + k, q.y, At(R, alphas, k * 3 + 1));
    NoGap(R, full, L.CopyStart(2) + k, q.z, At(R, alphas, k * 3 + 2));
    assert Laws1(R, R.zero);
  }

  /**
   The copies cancel: applied to the constraint rows of a witness, the inner product vector is the combination of the
   left hand sides of the linear constraints, whatever the witness, the constraints and the challenges.
   */
  lemma InnerProductIdentity<F(!new)>(R: Field<F>, L: TableauLayout, w: seq<F>, linear: LinearConstraints<F>,
                                      linearAlphas: seq<F>,
                                      quadratic: seq<QuadraticConstraint>, quadraticAlphas: seq<F>)
    requires IsRing(R) && L.Valid() && |w| == L.numWitnesses && LinearInRange(linear, |w|)
      && QuadraticInRange(quadratic, |w|)
    ensures Dot(R, InnerProductOf(R, L, linear, linearAlphas, quadratic, quadraticAlphas),
      FullWitness(R, L, w, quadratic), L.Size())
      == AlphaLhs(R, linear.lhs, linearAlphas, w)
  {
    var full := FullWitness(R, L, w, quadratic);
    FullIsWitness(R, L, w, quadratic);
    assert full[..L.numWitnesses] == w;
    InnerProductMeans(R, L, full, linear, linearAlphas, quadratic, quadraticAlphas);
    FullHasNoGaps(R, L, w, quadratic, quadraticAlphas, full);
    assert Laws1(R, AlphaLhs(R, linear.lhs, linearAlphas, w));
  }

  lemma FullHasNoGaps<F(!new)>(R: Field<F>, L: TableauLayout, w: seq<F>, quadratic: seq<QuadraticConstraint>,
                               alphas: seq<F>, full: seq<F>)
    requires IsRing(R) && L.Valid() && |w| == L.numWitnesses && QuadraticInRange(quadratic, |w|)
      && full == FullWitness(R, L, w, quadratic)
    ensures Sum(R, NumCopies(L, quadratic), CopyGapsOf(R, L, full, quadratic, alphas)) == R.zero
  {
    var gaps := CopyGapsOf(R, L, full, quadratic, alphas);
    forall k | 0 <= k < NumCopies(L, quadratic) ensures gaps(k) == R.zero {
      FullEntry(R, L, w, quadratic, 0, k);
      FullEntry(R, L, w, quadratic, 1, k);
      FullEntry(R, L, w, quadratic, 2, k);
      NoCopyGap(R, L, full, quadratic[k], alphas, k);
    }
    SumZero(R, NumCopies(L, quadratic), gaps);
  }

  // ----- One wrong copy -----

  /** Among the constraint rows, exactly one copy differs from the witness that it copies. */
  ghost predicate WrongCopyOnly<F>(R: Field<F>, L: TableauLayout, full: seq<F>, quadratic: seq<QuadraticConstraint>,
                                   kind: nat, k: nat)
    requires L.Valid()
  {
    && kind < 3 && k < NumCopies(L, quadratic)
    && forall c, i :: 0 <= c < 3 && 0 <= i < NumCopies(L, quadratic) ==>
      (IsCopied(R, L, full, quadratic, c, i) <==> !(c == kind && i == k))
  }

  ghost predicate IsCopied<F>(R: Field<F>, L: TableauLayout, full: seq<F>, quadratic: seq<QuadraticConstraint>,
                              kind: nat, k: nat)
    requires L.Valid() && k < |quadratic|
  {
    At(R, full, L.CopyStart(kind) + k) == At(R, full, Coordinate(quadratic[k], kind))
  }

  lemma GapShows<F(!new)>(R: Field<F>, full: seq<F>, a: nat, b: nat, x: F)
    requires IsField(R) && x != R.zero && At(R, full, a) != At(R, full, b)
    ensures Gap(R, full, a, b, x) != R.zero
  {
    SubZero(R, At(R, full, a), At(R, full, b));
    if Gap(R, full, a, b, x) == R.zero {
      NoZeroDivisors(R, x, R.sub(At(R, full, a), At(R, full, b)));
    }
  }

  lemma OneOfThree<F(!new)>(R: Field<F>, a: F)
    requires IsRing(R)
    ensures R.add(R.add(a, R.zero), R.zero) == a && R.add(R.add(R.zero, a), R.zero) == a
      && R.add(R.add(R.zero, R.zero), a) == a
  {
    assert Laws1(R, a) && Laws1(R, R.zero) && Laws2(R, R.zero, a);
  }

  lemma WrongCopyGap<F(!new)>(R: Field<F>, L: TableauLayout, full: seq<F>, quadratic: seq<QuadraticConstraint>,
                              alphas: seq<F>, kind: nat, k: nat)
    requires IsField(R) && L.Valid() && WrongCopyOnly(R, L, full, quadratic, kind, k)
      && At(R, alphas, k * 3 + kind) != R.zero
    ensures CopyGap(R, L, full, quadratic[k], alphas, k) != R.zero
  {
    var q := quadratic[k];
    assert IsCopied(R, L, full, quadratic, 0, k) <==> kind != 0;
    assert IsCopied(R, L, full, quadratic, 1, k) <==> kind != 1;
    assert IsCopied(R, L, full, quadratic, 2, k) <==> kind != 2;
    var a, b := L.CopyStart(kind) + k, Coordinate(q, kind);
    GapShows(R, full, a, b, At(R, alphas, k * 3 + kind));
    OneOfThree(R, Gap(R, full, a, b, At(R, alphas, k * 3 + kind)));
    if kind != 0 {
      NoGap(R, full, L.CopyStart(0) + k, q.x, At(R, alphas, k * 3));
    }
    if kind != 1 {
      NoGap(R, full, L.CopyStart(1) + k, q.y, At(R, alphas, k * 3 + 1));
    }
    if kind != 2 {
      NoGap(R, full, L.CopyStart(2) + k, q.z, At(R, alphas, k * 3 + 2));
    }
  }

  /** If exactly one copy is wrong and its weight is not zero, the differences do not cancel. */
  lemma WrongCopyShows<F(!new)>(R: Field<F>, L: TableauLayout, full: seq<F>, quadratic: seq<QuadraticConstraint>,
                                alphas: seq<F>, kind: nat, k: nat)
    requires IsField(R) && L.Valid() && WrongCopyOnly(R, L, full, quadratic, kind, k)
      && At(R, alphas, k * 3 + kind) != R.zero
    ensures Sum(R, NumCopies(L, quadratic), CopyGapsOf(R, L, full, quadratic, alphas)) != R.zero
  {
    var gaps, n := CopyGapsOf(R, L, full, quadratic, alphas), NumCopies(L, quadratic);
    forall i | 0 <= i < n && i != k ensures gaps(i) == R.zero {
      assert IsCopied(R, L, full, quadratic, 0, i) && IsCopied(R, L, full, quadratic, 1, i)
        && IsCopied(R, L, full, quadratic, 2, i);
      NoCopyGap(R, L, full, quadratic[i], alphas, i);
    }
    SumSingle(R, n, gaps, k);
    WrongCopyGap(R, L, full, quadratic, alphas, kind, k);
    assert gaps(k) == CopyGap(R, L, full, quadratic[k], alphas, k);
  }
}
