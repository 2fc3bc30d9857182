/** Little-endian integers of a fixed number of bytes. */
module LittleEndian {
  import opened Base

  function Pow256(n: nat): (p: nat)
    ensures p > 0
  {
    if n == 0 then 1 else 256 * Pow256(n - 1)
  }

  /** The low `n` bytes of `x`, least significant first. */
  function ToLE(x: nat, n: nat): (bs: Bytes)
    ensures |bs| == n
  {
    if n == 0 then [] else [x % 256] + ToLE(x / 256, n - 1)
  }

  function FromLE(bs: Bytes): nat { if bs == [] then 0 else bs[0] + 256 * FromLE(bs[1..]) }

  /** Reading back gives the number, cut to the width of the field. */
  lemma {:induction false} FromToLE(x: nat, n: nat)
    ensures FromLE(ToLE(x, n)) == x % Pow256(n)
  {
    if n > 0 {
      var bs := ToLE(x, n);
      assert bs[0] == x % 256 && bs[1..] == ToLE(x / 256, n - 1);
      FromToLE(x / 256, n - 1);
      Digits(x, Pow256(n - 1));
    }
  }

  lemma Digits(x: nat, p: nat)
    requires p > 0
    ensures x % 256 + 256 * (x / 256 % p) == x % (256 * p)
  {
    var q, r := x / 256 / p, x / 256 % p;
    assert x / 256 == q * p + r;
    assert x == q * (256 * p) + (256 * r + x % 256) by {
      assert 256 * (q * p) == q * (256 * p);
    }
    assert 256 * r + x % 256 < 256 * p;
    ModUnique(x, 256 * p, q, 256 * r + x % 256);
  }

  lemma ModUnique(x: nat, m: nat, q: nat, r: nat)
    requires m > 0 && x == q * m + r && r < m
    ensures x % m == r
  {
    assert x == x / m * m + x % m;
    SameDigit(x / m, q, m, x % m, r);
  }

  lemma SameDigit(p: nat, q: nat, m: nat, a: nat, b: nat)
    requires a < m && b < m && p * m + a == q * m + b
    ensures a == b
  {
    if p < q { Grows(p + 1, q, m); } else if q < p { Grows(q + 1, p, m); }
  }

  lemma Grows(p: nat, q: nat, m: nat)
    requires p <= q
    ensures p * m <= q * m
  {
  }

  lemma {:induction false} ToFromLE(bs: Bytes)
    ensures FromLE(bs) < Pow256(|bs|) && ToLE(FromLE(bs), |bs|) == bs
  {
    if bs != [] {
      ToFromLE(bs[1..]);
      LowByte(bs[0], FromLE(bs[1..]));
      assert bs == [bs[0]] + bs[1..];
    }
  }

  lemma LowByte(b: byte, n: nat)
    ensures (b + 256 * n) % 256 == b && (b + 256 * n) / 256 == n
  {
  }
}
