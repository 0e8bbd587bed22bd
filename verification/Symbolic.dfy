/**
 Symbolic expressions (src/sumcheck/constraints/mod.rs): values that are known up to pads, which stay positions in the
 witness.
 */
module Symbolic {
  import opened Fields
  import opened Sums
  import opened Constraints
  import opened Options

  /** known, or known + factor * W[witnessIndex] */
  datatype Term<F> = Term(known: F, witnessIndex: Option<nat>, factor: F)

  function NewTerm<F>(R: Field<F>, index: nat): Term<F> {
    Term(R.zero, Some(index), R.one)
  }

  function FromKnown<F>(R: Field<F>, known: F): Term<F> {
    Term(known, None, R.one)
  }

  function AddKnown<F>(R: Field<F>, t: Term<F>, x: F): Term<F> {
    t.(known := R.add(t.known, x))
  }

  function ScaleTerm<F>(R: Field<F>, t: Term<F>, x: F): Term<F> {
    t.(known := R.mul(t.known, x), factor := R.mul(t.factor, x))
  }

  ghost function PadOf<F>(R: Field<F>, w: seq<F>, index: Option<nat>): F {
    if index.Some? then At(R, w, index.value) else R.zero
  }

  ghost function TermValue<F>(R: Field<F>, t: Term<F>, w: seq<F>): F {
    R.add(t.known, R.mul(t.factor, PadOf(R, w, t.witnessIndex)))
  }

  /** A sum of terms that contributes to one linear constraint. */
  datatype Expression<F> = Expression(known: F, constraint: nat, terms: seq<LhsTerm<F>>)

  function NewExpression<F>(R: Field<F>, constraint: nat): Expression<F> {
    Expression(R.zero, constraint, [])
  }

  function AddTerm<F>(R: Field<F>, e: Expression<F>, t: Term<F>): Expression<F> {
    Expression(R.add(e.known, t.known), e.constraint,
               if t.witnessIndex.Some? then e.terms + [LhsTerm(e.constraint, t.witnessIndex.value, t.factor)]
                 else e.terms)
  }

  function ScaledTerms<F>(R: Field<F>, terms: seq<LhsTerm<F>>, x: F): (r: seq<LhsTerm<F>>)
    ensures |r| == |terms| && forall i :: 0 <= i < |r| ==> r[i] == terms[i].(factor := R.mul(terms[i].factor, x))
  {
    seq(|terms|, (i: nat) requires i < |terms| => terms[i].(factor := R.mul(terms[i].factor, x)))
  }

  function ScaleExpression<F>(R: Field<F>, e: Expression<F>, x: F): Expression<F> {
    Expression(R.mul(e.known, x), e.constraint, ScaledTerms(R, e.terms, x))
  }

  /** Every term has the given constraint number and a position in the witness. */
  ghost predicate Tagged<F>(terms: seq<LhsTerm<F>>, constraint: nat, witnesses: nat) {
    forall i :: 0 <= i < |terms| ==> terms[i].constraint == constraint && terms[i].witnessIndex < witnesses
  }

  ghost function ExpressionValue<F>(R: Field<F>, e: Expression<F>, w: seq<F>): F {
    R.add(e.known, LhsSum(R, e.terms, w, e.constraint))
  }

  lemma LhsSumAppend<F>(R: Field<F>, terms: seq<LhsTerm<F>>, t: LhsTerm<F>, w: seq<F>, c: int)
    ensures LhsSum(R, terms + [t], w, c)
      == if t.constraint == c then R.add(LhsSum(R, terms, w, c), R.mul(t.factor, At(R, w, t.witnessIndex)))
        else LhsSum(R, terms, w, c)
  {
    assert (terms + [t])[..|terms|] == terms;
  }

  lemma AddTermValue<F(!new)>(R: Field<F>, e: Expression<F>, t: Term<F>, w: seq<F>)
    requires IsRing(R)
    ensures ExpressionValue(R, AddTerm(R, e, t), w) == R.add(ExpressionValue(R, e, w), TermValue(R, t, w))
  {
    var s, p := LhsSum(R, e.terms, w, e.constraint), PadOf(R, w, t.witnessIndex);
    if t.witnessIndex.Some? {
      LhsSumAppend(R, e.terms, LhsTerm(e.constraint, t.witnessIndex.value, t.factor), w, e.constraint);
    } else {
      MulZero(R, t.factor);
      assert Laws1(R, s);
    }
    AddSwap(R, e.known, t.known, s, R.mul(t.factor, p));
    AddSwap(R, e.known, s, t.known, R.mul(t.factor, p));
  }

  lemma {:induction false} ScaledSum<F(!new)>(R: Field<F>, terms: seq<LhsTerm<F>>, x: F, w: seq<F>, c: int)
    requires IsRing(R)
    ensures LhsSum(R, ScaledTerms(R, terms, x), w, c) == R.mul(LhsSum(R, terms, w, c), x)
  {
    if |terms| == 0 {
      MulZero(R, x);
    } else {
      var last := |terms| - 1;
      var t := terms[last];
      ScaledSum(R, terms[..last], x, w, c);
      assert ScaledTerms(R, terms, x)[..last] == ScaledTerms(R, terms[..last], x);
      ScaleStep(R, LhsSum(R, terms[..last], w, c), t.factor, At(R, w, t.witnessIndex), x);
    }
  }

  lemma ScaleStep<F(!new)>(R: Field<F>, s: F, f: F, v: F, x: F)
    requires IsRing(R)
    ensures R.add(R.mul(s, x), R.mul(R.mul(f, x), v)) == R.mul(R.add(s, R.mul(f, v)), x)
  {
    Ring(R, A(M(V(0), V(1)), M(M(V(2), V(1)), V(3))), M(A(V(0), M(V(2), V(3))), V(1)), [s, x, f, v]);
  }

  lemma ScaleValue<F(!new)>(R: Field<F>, e: Expression<F>, x: F, w: seq<F>)
    requires IsRing(R)
    ensures ExpressionValue(R, ScaleExpression(R, e, x), w) == R.mul(ExpressionValue(R, e, w), x)
  {
    ScaledSum(R, e.terms, x, w, e.constraint);
    Ring(R, A(M(V(0), V(1)), M(V(2), V(1))), M(A(V(0), V(2)), V(1)), [e.known, x, LhsSum(R, e.terms, w, e.constraint)]);
  }

  /** (W[index] + known) * x */
  function PaddedTerm<F>(R: Field<F>, index: nat, known: F, x: F): Term<F> {
    ScaleTerm(R, AddKnown(R, NewTerm(R, index), known), x)
  }

  lemma PaddedTermValue<F(!new)>(R: Field<F>, index: nat, known: F, x: F, w: seq<F>)
    requires IsRing(R)
    ensures TermValue(R, PaddedTerm(R, index, known, x), w) == R.mul(R.add(known, At(R, w, index)), x)
  {
    Ring(R, A(M(A(Z, V(0)), V(1)), M(M(O, V(1)), V(2))), M(A(V(0), V(2)), V(1)), [known, x, At(R, w, index)]);
  }

  lemma {:induction false} LhsSumConcat<F(!new)>(R: Field<F>, a: seq<LhsTerm<F>>, b: seq<LhsTerm<F>>, w: seq<F>, c: int)
    requires IsRing(R)
    ensures LhsSum(R, a + b, w, c) == R.add(LhsSum(R, a, w, c), LhsSum(R, b, w, c))
    decreases |b|
  {
    if |b| == 0 {
      assert a + b == a;
      assert Laws1(R, LhsSum(R, a, w, c));
    } else {
      var last := |b| - 1;
      var t, rest := b[last], b[..last];
      LhsSumConcat(R, a, rest, w, c);
      assert a + b == (a + rest) + [t] && b == rest + [t];
      LhsSumAppend(R, a + rest, t, w, c);
      LhsSumAppend(R, rest, t, w, c);
      assert Laws3(R, LhsSum(R, a, w, c), LhsSum(R, rest, w, c), R.mul(t.factor, At(R, w, t.witnessIndex)));
    }
  }

  /** Terms of other constraints add nothing. */
  lemma {:induction false} LhsSumOther<F>(R: Field<F>, terms: seq<LhsTerm<F>>, w: seq<F>, c: int)
    requires forall i :: 0 <= i < |terms| ==> terms[i].constraint != c
    ensures LhsSum(R, terms, w, c) == R.zero
  {
    if |terms| > 0 {
      LhsSumOther(R, terms[..|terms| - 1], w, c);
    }
  }
}
