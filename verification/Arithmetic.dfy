/** Division with remainder. */
module Arithmetic {

  lemma MulAtMost(a: nat, b: nat, c: nat)
    requires b <= c
    ensures a * b <= a * c
  {
    assert a * c == a * b + a * (c - b);
  }

  lemma DivUnique(v: nat, d: nat, q: nat, r: nat)
    requires d > 0 && v == d * q + r && r < d
    ensures v / d == q && v % d == r
  {
    var p, s := v / d, v % d;
    assert v == d * p + s;
    if p < q {
      Gap(d, p, q);
    } else if q < p {
      Gap(d, q, p);
    }
  }

  lemma Gap(d: nat, p: nat, q: nat)
    requires p < q
    ensures d * p + d <= d * q
  {
    MulAtMost(d, p + 1, q);
    assert d * (p + 1) == d * p + d;
  }

  lemma ModAtMost(a: nat, m: nat)
    requires m > 0
    ensures 0 <= a % m <= a
  {
    var q := a / m;
    assert a == m * q + a % m;
    MulAtMost(m, 0, q);
  }
}
