/** Division of products, without which prefixes and byte positions do not line up. */
module Arithmetic {
  lemma DivDiv(x: nat, p: nat, q: nat)
    requires p > 0 && q > 0
    ensures p * q > 0 && x / (p * q) == x / p / q
  {
    var y, e := DivMod(x, p);
    var a, r := DivMod(y, q);
    Regroup(x, p, q, y, e, a, r);
    Quotient(x, p * q, a, p * r + e);
  }

  lemma DivMod(x: nat, p: nat) returns (y: nat, e: nat)
    requires p > 0
    ensures y == x / p && x == p * y + e && e < p
  {
    y, e := x / p, x % p;
  }

  lemma Regroup(x: nat, p: nat, q: nat, y: nat, e: nat, a: nat, r: nat)
    requires x == p * y + e && e < p && y == q * a + r && r < q
    ensures p * q > 0 && x == a * (p * q) + (p * r + e) && p * r + e < p * q
  {
    Expand(p, q, a, r);
    Remainder(p, q, r, e);
  }

  lemma Expand(p: nat, q: nat, a: nat, r: nat)
    ensures p * (q * a + r) == a * (p * q) + p * r
  {
  }

  lemma Remainder(p: nat, q: nat, r: nat, e: nat)
    requires r < q && e < p
    ensures p * r + e < p * q
  {
    Scale(p, r + 1, q);
  }

  lemma Scale(p: nat, a: nat, b: nat)
    requires a <= b
    ensures p * a <= p * b
  {
  }

  lemma Quotient(x: nat, m: nat, q: nat, r: nat)
    requires m > 0 && x == q * m + r && r < m
    ensures x / m == q
  {
    var p := x / m;
    assert x == m * p + x % m;
    if p < q { Scale(m, p + 1, q); } else if q < p { Scale(m, q + 1, p); }
  }
}
