/** Division of a number written in mixed radix. */
module Digits {

  lemma MulGap(d: nat, p: nat, q: nat)
    requires p < q
    ensures d * p + d <= d * q
  {
    assert d * (p + 1) <= d * q;
    assert d * (p + 1) == d * p + d;
  }

  lemma DivUnique(x: nat, d: nat, q: nat, r: nat)
    requires r < d && x == d * q + r
    ensures x / d == q && x % d == r
  {
    var p := x / d;
    assert x == d * p + x % d;
    if p < q {
      MulGap(d, p, q);
    } else if q < p {
      MulGap(d, q, p);
    }
  }

  lemma Regroup(a: nat, b: nat, q: nat, r: nat)
    requires r < b
    ensures a * (b * q + r) == (a * b) * q + a * r
    ensures a * r + a <= a * b
  {
    assert a * (b * q) == (a * b) * q;
    assert a * (b * q + r) == a * (b * q) + a * r;
    assert a * (r + 1) <= a * b;
  }

  lemma Divided(x: nat, d: nat) returns (q: nat, r: nat)
    requires 0 < d
    ensures q == x / d && r < d && x == d * q + r
  {
    q, r := x / d, x % d;
  }

  lemma DivTwiceOf(x: nat, a: nat, b: nat, y: nat, q: nat, r: nat, s: nat)
    requires r < b && s < a && x == a * y + s && y == b * q + r
    ensures 0 < a * b && x / (a * b) == q
  {
    Regroup(a, b, q, r);
    DivUnique(x, a * b, q, a * r + s);
  }

  /** Dividing by a product is dividing twice. */
  lemma DivTwice(x: nat, a: nat, b: nat)
    requires 0 < a && 0 < b
    ensures 0 < a * b && x / (a * b) == x / a / b
  {
    var y, s := Divided(x, a);
    var q, r := Divided(y, b);
    DivTwiceOf(x, a, b, y, q, r, s);
  }
}
