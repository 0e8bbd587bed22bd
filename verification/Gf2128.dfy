/**
 Multiplication in GF(2^128) with bit arrays (src/fields/field2_128/backend_naive_loop.rs): a carry-less product,
 reduced in place modulo x^128 + x^7 + x^2 + x + 1.
 */
module Gf2128 {
  import Sums

  const SIZE: nat := 128

  function Xor(a: bool, b: bool): bool {
    a != b
  }

  /** Bit k of a sequence, false where it has none. */
  function Bit(s: seq<bool>, k: int): bool {
    if 0 <= k < |s| then s[k] else false
  }

  // ----- Integers and bits -----

  /** `decompose` */
  function Decompose(value: nat, n: nat): (bits: seq<bool>)
    ensures |bits| == n
  {
    if n == 0 then [] else [value % 2 == 1] + Decompose(value / 2, n - 1)
  }

  function Compose(bits: seq<bool>): (value: nat)
  {
    if |bits| == 0 then 0 else (if bits[0] then 1 else 0) + 2 * Compose(bits[1..])
  }

  lemma {:induction false} ComposeRoundTrip(bits: seq<bool>)
    ensures Compose(bits) < Sums.Exp2(|bits|) && Decompose(Compose(bits), |bits|) == bits
  {
    if |bits| > 0 {
      ComposeRoundTrip(bits[1..]);
      assert Compose(bits) / 2 == Compose(bits[1..]);
      assert bits == [bits[0]] + bits[1..];
    }
  }

  // ----- The carry-less product -----

  /** The sum over j from a to b - 1 of x_j * y_(k - j). */
  ghost function ProductRange(x: seq<bool>, y: seq<bool>, k: int, a: int, b: int): bool
    decreases b - a
  {
    if b <= a then false else Xor(ProductRange(x, y, k, a, b - 1), Bit(x, b - 1) && Bit(y, k - (b - 1)))
  }

  /** Coefficient k of the product of two polynomials over GF(2). */
  ghost function Coefficient(x: seq<bool>, y: seq<bool>, k: int): bool {
    ProductRange(x, y, k, 0, |x|)
  }

  lemma {:induction false} RangeJoin(x: seq<bool>, y: seq<bool>, k: int, a: int, m: int, b: int)
    requires a <= m <= b
    ensures ProductRange(x, y, k, a, b) == Xor(ProductRange(x, y, k, a, m), ProductRange(x, y, k, m, b))
    decreases b - m
  {
    if m < b {
      RangeJoin(x, y, k, a, m, b - 1);
    }
  }

  /** Terms outside either polynomial add nothing. */
  lemma {:induction false} RangeOutside(x: seq<bool>, y: seq<bool>, k: int, a: int, b: int)
    requires forall j :: a <= j < b ==> !Bit(x, j) || !Bit(y, k - j)
    ensures !ProductRange(x, y, k, a, b)
    decreases b - a
  {
    if a < b {
      RangeOutside(x, y, k, a, b - 1);
    }
  }

  /** The terms that the two product loops add up are all that matter. */
  lemma CoefficientRange(x: seq<bool>, y: seq<bool>, k: nat, a: nat, b: nat)
    requires |x| == |y| == SIZE && k < 2 * SIZE - 1
    requires a == (if k < SIZE then 0 else k - (SIZE - 1)) && b == (if k < SIZE then k + 1 else SIZE)
    ensures ProductRange(x, y, k, a, b) == Coefficient(x, y, k)
  {
    RangeJoin(x, y, k, 0, a, |x|);
    RangeJoin(x, y, k, a, b, |x|);
    RangeOutside(x, y, k, 0, a);
    RangeOutside(x, y, k, b, |x|);
  }

  method CarrylessProduct(x: seq<bool>, y: seq<bool>) returns (product: seq<bool>)
    requires |x| == |y| == SIZE
    ensures |product| == 2 * SIZE - 1 && forall k :: 0 <= k < |product| ==> product[k] == Coefficient(x, y, k)
  {
    product := seq(2 * SIZE - 1, (k: nat) => false);
    for i := 0 to 2 * SIZE - 1
      invariant |product| == 2 * SIZE - 1
      invariant forall k :: 0 <= k < i ==> product[k] == Coefficient(x, y, k)
    {
      var first, last := if i < SIZE then 0 else i - (SIZE - 1), if i < SIZE then i + 1 else SIZE;
      var out := false;
      for j := first to last
        invariant out == ProductRange(x, y, i, first, j)
      {
        out := Xor(out, x[j] && y[i - j]);
      }
      CoefficientRange(x, y, i, first, last);
      product := product[i := out];
    }
  }

  // ----- Reduction -----

  /** Coefficient k of q times x^128 + x^7 + x^2 + x + 1. */
  ghost function TimesModulus(q: seq<bool>, k: int): bool {
    Xor(Xor(Xor(Xor(Bit(q, k - 128), Bit(q, k - 7)), Bit(q, k - 2)), Bit(q, k - 1)), Bit(q, k))
  }

  /** p = r + q * (x^128 + x^7 + x^2 + x + 1), coefficient by coefficient. */
  ghost predicate Divides(p: seq<bool>, q: seq<bool>, r: seq<bool>) {
    forall k {:trigger Bit(p, k)} :: Bit(p, k) == Xor(Bit(r, k), TimesModulus(q, k))
  }

  function Flip(s: seq<bool>, k: nat): (r: seq<bool>)
    requires k < |s|
    ensures |r| == |s|
  {
    s[k := !s[k]]
  }

  ghost predicate ClearFrom(s: seq<bool>, k: nat) {
    forall j :: k <= j < |s| ==> !s[j]
  }

  /** One step of the reduction moves the multiple x^i of the modulus from the remainder to the quotient. */
  lemma DivideStep(p: seq<bool>, q: seq<bool>, r: seq<bool>, i: nat)
    requires |r| == 2 * SIZE - 1 && |q| == SIZE - 1 && i < |q| && !q[i] && Divides(p, q, r)
    ensures Divides(p, q[i := true], Flip(Flip(Flip(Flip(Flip(r, i + 128), i + 7), i + 2), i + 1), i))
  {
    var s := Flip(Flip(Flip(Flip(Flip(r, i + 128), i + 7), i + 2), i + 1), i);
    var t := q[i := true];
    forall k {:trigger Bit(p, k)} ensures Bit(p, k) == Xor(Bit(s, k), TimesModulus(t, k)) {
      assert Bit(p, k) == Xor(Bit(r, k), TimesModulus(q, k));
    }
  }

  /** The reduction loop: keeps the residue class and clears every bit from 128 up. */
  method Reduce(product: seq<bool>) returns (r: seq<bool>, ghost q: seq<bool>)
    requires |product| == 2 * SIZE - 1
    ensures |r| == |product| && |q| == SIZE - 1 && Divides(product, q, r) && ClearFrom(r, SIZE)
  {
    r := product;
    q := seq(SIZE - 1, (k: nat) => false);
    var i := SIZE - 1;
    while i > 0
      invariant 0 <= i <= SIZE - 1 && |r| == |product| && |q| == SIZE - 1
      invariant Divides(product, q, r) && ClearFrom(r, SIZE + i) && forall k :: 0 <= k < i ==> !q[k]
    {
      i := i - 1;
      if r[i + 128] {
        DivideStep(product, q, r, i);
        q := q[i := true];
        r := Flip(r, i + 128);
        r := Flip(r, i + 7);
        r := Flip(r, i + 2);
        r := Flip(r, i + 1);
        r := Flip(r, i);
      }
    }
  }

  // ----- Multiplication -----

  /** z is the remainder of the product of x and y, with quotient q. */
  ghost predicate RemainderWith(x: seq<bool>, y: seq<bool>, q: seq<bool>, z: seq<bool>) {
    |q| == SIZE - 1 && forall k {:trigger Bit(z, k)} ::
      0 <= k < 2 * SIZE - 1 ==> Coefficient(x, y, k) == Xor(Bit(z, k), TimesModulus(q, k))
  }

  /** z is the product of x and y in GF(2^128). */
  ghost predicate IsProduct(x: seq<bool>, y: seq<bool>, z: seq<bool>) {
    |z| == SIZE && exists q: seq<bool> :: RemainderWith(x, y, q, z)
  }

  /** `galois_multiply` on bits */
  method MultiplyBits(x: seq<bool>, y: seq<bool>) returns (z: seq<bool>)
    requires |x| == |y| == SIZE
    ensures IsProduct(x, y, z)
  {
    var product := CarrylessProduct(x, y);
    ghost var q;
    var r;
    r, q := Reduce(product);
    z := r[..SIZE];
    forall k {:trigger Bit(z, k)} | 0 <= k < 2 * SIZE - 1 ensures Coefficient(x, y, k)
      == Xor(Bit(z, k), TimesModulus(q, k)) {
      assert Bit(product, k) == Xor(Bit(r, k), TimesModulus(q, k));
    }
    assert RemainderWith(x, y, q, z);
  }

  /** `galois_multiply` */
  method GaloisMultiply(x: nat, y: nat) returns (z: nat)
    requires x < Sums.Exp2(SIZE) && y < Sums.Exp2(SIZE)
    ensures z < Sums.Exp2(SIZE) && IsProduct(Decompose(x, SIZE), Decompose(y, SIZE), Decompose(z, SIZE))
  {
    var bits := MultiplyBits(Decompose(x, SIZE), Decompose(y, SIZE));
    z := Compose(bits);
    ComposeRoundTrip(bits);
  }

  // ----- The remainder is unique -----

  lemma {:induction false} QuotientUnique(q: seq<bool>, z: seq<bool>, s: seq<bool>, t: seq<bool>, i: nat)
    requires |q| == |s| == SIZE - 1 && |z| == |t| == SIZE && i <= SIZE - 1
    requires forall k ::
      0 <= k < 2 * SIZE - 1 ==> Xor(Bit(z, k), TimesModulus(q, k)) == Xor(Bit(t, k), TimesModulus(s, k))
    ensures forall k :: i <= k < SIZE - 1 ==> q[k] == s[k]
    decreases SIZE - 1 - i
  {
    if i < SIZE - 1 {
      QuotientUnique(q, z, s, t, i + 1);
      assert Xor(Bit(z, i + 128), TimesModulus(q, i + 128)) == Xor(Bit(t, i + 128), TimesModulus(s, i + 128));
    }
  }

  /** Division by the modulus determines the remainder, so the product in GF(2^128) is well defined. */
  lemma ProductUnique(x: seq<bool>, y: seq<bool>, z: seq<bool>, t: seq<bool>)
    requires IsProduct(x, y, z) && IsProduct(x, y, t)
    ensures z == t
  {
    var q :| RemainderWith(x, y, q, z);
    var s :| RemainderWith(x, y, s, t);
    forall k | 0 <= k < 2 * SIZE - 1 ensures Xor(Bit(z, k), TimesModulus(q, k)) == Xor(Bit(t, k), TimesModulus(s, k)) {
      assert Coefficient(x, y, k) == Xor(Bit(z, k), TimesModulus(q, k));
      assert Coefficient(x, y, k) == Xor(Bit(t, k), TimesModulus(s, k));
    }
    QuotientUnique(q, z, s, t, 0);
    assert q == s;
    forall k | 0 <= k < SIZE ensures z[k] == t[k] {
      assert Xor(Bit(z, k), TimesModulus(q, k)) == Xor(Bit(t, k), TimesModulus(s, k));
    }
  }

  // ----- Laws of the product -----

  lemma {:induction false} RangeFirst(x: seq<bool>, y: seq<bool>, k: int, a: int, b: int)
    requires a < b
    ensures ProductRange(x, y, k, a, b) == Xor(Bit(x, a) && Bit(y, k - a), ProductRange(x, y, k, a + 1, b))
    decreases b - a
  {
    RangeJoin(x, y, k, a, a + 1, b);
    assert !ProductRange(x, y, k, a, a);
  }

  lemma {:induction false} RangeReversed(x: seq<bool>, y: seq<bool>, k: int, a: int, b: int)
    ensures ProductRange(x, y, k, a, b) == ProductRange(y, x, k, k - b + 1, k - a + 1)
    decreases b - a
  {
    if a < b {
      RangeReversed(x, y, k, a, b - 1);
      RangeFirst(y, x, k, k - b + 1, k - a + 1);
    }
  }

  lemma CoefficientSymmetric(x: seq<bool>, y: seq<bool>, k: nat)
    requires |x| == |y| == SIZE && k < 2 * SIZE - 1
    ensures Coefficient(x, y, k) == Coefficient(y, x, k)
  {
    var a, b := if k < SIZE then 0 else k - (SIZE - 1), if k < SIZE then k + 1 else SIZE;
    CoefficientRange(x, y, k, a, b);
    CoefficientRange(y, x, k, a, b);
    RangeReversed(x, y, k, a, b);
  }

  lemma ProductCommutes(x: seq<bool>, y: seq<bool>, z: seq<bool>)
    requires |x| == |y| == SIZE && IsProduct(x, y, z)
    ensures IsProduct(y, x, z)
  {
    var q :| RemainderWith(x, y, q, z);
    forall k {:trigger Bit(z, k)} | 0 <= k < 2 * SIZE - 1 ensures Coefficient(y, x, k)
      == Xor(Bit(z, k), TimesModulus(q, k)) {
      assert Coefficient(x, y, k) == Xor(Bit(z, k), TimesModulus(q, k));
      CoefficientSymmetric(x, y, k);
    }
    assert RemainderWith(y, x, q, z);
  }

  function XorBits(a: seq<bool>, b: seq<bool>): (c: seq<bool>)
    requires |a| == |b|
    ensures |c| == |a| && forall i :: 0 <= i < |a| ==> c[i] == Xor(a[i], b[i])
  {
    seq(|a|, (i: nat) requires i < |a| => Xor(a[i], b[i]))
  }

  lemma {:induction false} RangeAdds(x: seq<bool>, w: seq<bool>, y: seq<bool>, k: int, a: int, b: int)
    requires |x| == |w|
    ensures ProductRange(XorBits(x, w), y, k, a, b) == Xor(ProductRange(x, y, k, a, b), ProductRange(w, y, k, a, b))
    decreases b - a
  {
    if a < b {
      RangeAdds(x, w, y, k, a, b - 1);
    }
  }

  lemma TimesModulusAdds(q: seq<bool>, s: seq<bool>, k: int)
    requires |q| == |s|
    ensures TimesModulus(XorBits(q, s), k) == Xor(TimesModulus(q, k), TimesModulus(s, k))
  {
    BitXor(q, s, k - 128);
    BitXor(q, s, k - 7);
    BitXor(q, s, k - 2);
    BitXor(q, s, k - 1);
    BitXor(q, s, k);
  }

  lemma BitXor(a: seq<bool>, b: seq<bool>, k: int)
    requires |a| == |b|
    ensures Bit(XorBits(a, b), k) == Xor(Bit(a, k), Bit(b, k))
  {
  }

  /** The product distributes over addition, which is exclusive or. */
  lemma ProductDistributes(x: seq<bool>, w: seq<bool>, y: seq<bool>, z: seq<bool>, v: seq<bool>)
    requires |x| == |w| == |y| == SIZE && IsProduct(x, y, z) && IsProduct(w, y, v)
    ensures IsProduct(XorBits(x, w), y, XorBits(z, v))
  {
    var q :| RemainderWith(x, y, q, z);
    var s :| RemainderWith(w, y, s, v);
    var c, t := XorBits(z, v), XorBits(q, s);
    forall k {:trigger Bit(c, k)} | 0 <= k < 2 * SIZE - 1
      ensures Coefficient(XorBits(x, w), y, k) == Xor(Bit(c, k), TimesModulus(t, k))
    {
      assert Coefficient(x, y, k) == Xor(Bit(z, k), TimesModulus(q, k));
      assert Coefficient(w, y, k) == Xor(Bit(v, k), TimesModulus(s, k));
      RangeAdds(x, w, y, k, 0, |x|);
      TimesModulusAdds(q, s, k);
      BitXor(z, v, k);
    }
    assert RemainderWith(XorBits(x, w), y, t, c);
  }
}
