/** Choosing a /24 for a new room: internal/server/subnet.go. */
module Subnets {
  import opened Base
  import opened RoomModel
  import opened Arithmetic

  // ── Networks as sets of addresses ──────────────────────────────

  function Number(v: Ip4): nat { ((v.a * 256 + v.b) * 256 + v.c) * 256 + v.d }

  function Pow2(n: nat): (p: nat)
    ensures p > 0
  {
    if n == 0 then 1 else 2 * Pow2(n - 1)
  }

  /** An interface's address and prefix length; the address need not be the network's first. */
  datatype Cidr = Cidr(ip: nat, ones: nat)

  predicate IsCidr(n: Cidr) { n.ones <= 32 }

  /** net.IPNet.Contains: equal under the mask. */
  predicate Contains(n: Cidr, x: nat)
    requires IsCidr(n)
  {
    n.ip / Pow2(32 - n.ones) == x / Pow2(32 - n.ones)
  }

  /** Some address belongs to both networks. */
  ghost predicate Intersect(m: Cidr, n: Cidr)
    requires IsCidr(m) && IsCidr(n)
  {
    exists x: nat :: Contains(m, x) && Contains(n, x)
  }

  /** The three tests of subnetOverlapsAny for one network. */
  predicate Overlaps(candidate: Cidr, other: Cidr)
    requires IsCidr(candidate) && IsCidr(other)
  {
    candidate.ip == other.ip || Contains(candidate, other.ip) || Contains(other, candidate.ip)
  }

  lemma {:induction false} PowSplit(a: nat, b: nat)
    ensures Pow2(a + b) == Pow2(a) * Pow2(b)
  {
    if a > 0 { PowSplit(a - 1, b); }
  }

  /** Equal under a longer mask, equal under a shorter one. */
  lemma CoarserContains(ip: nat, x: nat, fine: nat, coarse: nat)
    requires coarse <= fine <= 32 && Contains(Cidr(ip, fine), x)
    ensures Contains(Cidr(ip, coarse), x)
  {
    var p, q := Pow2(32 - fine), Pow2(fine - coarse);
    PowSplit(32 - fine, fine - coarse);
    DivDiv(ip, p, q);
    DivDiv(x, p, q);
  }

  /** Main lemma: the tests find exactly the networks that share an address, for every prefix length. */
  lemma OverlapsIffIntersect(candidate: Cidr, other: Cidr)
    requires IsCidr(candidate) && IsCidr(other)
    ensures Overlaps(candidate, other) <==> Intersect(candidate, other)
  {
    if Overlaps(candidate, other) {
      if Contains(candidate, other.ip) { assert Contains(other, other.ip); } else { assert Contains(candidate, candidate.ip); }
    }
    if Intersect(candidate, other) {
      var x: nat :| Contains(candidate, x) && Contains(other, x);
      if candidate.ones <= other.ones {
        CoarserContains(other.ip, x, other.ones, candidate.ones);
      } else {
        CoarserContains(candidate.ip, x, candidate.ones, other.ones);
      }
    }
  }

  function Net24Cidr(n: Net24): Cidr { Cidr(Number(HostIn(n, 0)), 24) }

  /** The addresses of a room's network are its hosts. */
  lemma Net24Hosts(n: Net24, v: Ip4)
    ensures Contains(Net24Cidr(n), Number(v)) <==> v == HostIn(n, v.d)
  {
    assert Pow2(8) == 256;
    var x := (v.a * 256 + v.b) * 256 + v.c;
    var y := (n.a * 256 + n.b) * 256 + n.c;
    assert Number(v) / 256 == x && Number(HostIn(n, 0)) / 256 == y;
    if x == y { assert v.a == n.a && v.b == n.b && v.c == n.c; }
  }

  /** Two different /24s share no address. */
  lemma Net24sApart(m: Net24, n: Net24)
    ensures Intersect(Net24Cidr(m), Net24Cidr(n)) <==> m == n
  {
    assert Pow2(8) == 256;
    if m == n { assert Contains(Net24Cidr(m), Number(HostIn(m, 0))); }
    if Intersect(Net24Cidr(m), Net24Cidr(n)) {
      OverlapsIffIntersect(Net24Cidr(m), Net24Cidr(n));
      Net24Hosts(m, HostIn(n, 0));
    }
  }

  // ── allocateSubnet ─────────────────────────────────────────────

  predicate OverlapsAny(n: Net24, locals: seq<Cidr>)
    requires forall i :: 0 <= i < |locals| ==> IsCidr(locals[i])
  {
    exists i :: 0 <= i < |locals| && Overlaps(Net24Cidr(n), locals[i])
  }

  /** `m` is the highest third octet in use, but at least 1. */
  ghost predicate IsHighest(base: Ip4, used: set<Net24>, m: int) {
    && 1 <= m && base.c <= m && (forall n :: n in used ==> n.c <= m)
    && (m == 1 || m == base.c || exists n :: n in used && n.c == m)
  }

  /** What allocateSubnet may return: the first octet after the highest whose /24 meets no local network. */
  ghost predicate Allocates(base: Option<Ip4>, used: set<Net24>, locals: seq<Cidr>, r: Option<Net24>)
    requires forall i :: 0 <= i < |locals| ==> IsCidr(locals[i])
  {
    if base.None? then r.None?
    else
      exists m :: IsHighest(base.value, used, m) && FirstAfter(base.value, m, locals, r)
  }

  ghost predicate FirstAfter(base: Ip4, m: int, locals: seq<Cidr>, r: Option<Net24>)
    requires forall i :: 0 <= i < |locals| ==> IsCidr(locals[i])
  {
    var end := if r.Some? then r.value.c else 255;
    && (r.Some? ==> r.value == Net24(base.a, base.b, r.value.c) && m < r.value.c <= 254 && !OverlapsAny(r.value, locals))
    && (forall k: byte :: m < k < end ==> OverlapsAny(Net24(base.a, base.b, k), locals))
  }

  lemma HighestUnique(base: Ip4, used: set<Net24>, m: int, n: int)
    requires IsHighest(base, used, m) && IsHighest(base, used, n)
    ensures m == n
  {
  }

  /** The choice is determined by the networks in use, not by the order the rooms are visited in. */
  lemma AllocationUnique(base: Option<Ip4>, used: set<Net24>, locals: seq<Cidr>, r: Option<Net24>, q: Option<Net24>)
    requires forall i :: 0 <= i < |locals| ==> IsCidr(locals[i])
    requires Allocates(base, used, locals, r) && Allocates(base, used, locals, q)
    ensures r == q
  {
    if base.Some? {
      var m :| IsHighest(base.value, used, m) && FirstAfter(base.value, m, locals, r);
      var n :| IsHighest(base.value, used, n) && FirstAfter(base.value, n, locals, q);
      HighestUnique(base.value, used, m, n);
    }
  }

  /** A new network is apart from every network in use below the same prefix and from every local one. */
  lemma AllocatedIsApart(base: Ip4, used: set<Net24>, locals: seq<Cidr>, r: Net24)
    requires forall i :: 0 <= i < |locals| ==> IsCidr(locals[i])
    requires Allocates(Some(base), used, locals, Some(r))
    ensures r !in used && 2 <= r.c <= 254
    ensures forall i :: 0 <= i < |locals| ==> !Intersect(Net24Cidr(r), locals[i])
  {
    forall i | 0 <= i < |locals| ensures !Intersect(Net24Cidr(r), locals[i]) { OverlapsIffIntersect(Net24Cidr(r), locals[i]); }
  }

  method SubnetOverlapsAny(n: Net24, locals: seq<Cidr>) returns (found: bool)
    requires forall i :: 0 <= i < |locals| ==> IsCidr(locals[i])
    ensures found <==> OverlapsAny(n, locals)
  {
    for i := 0 to |locals|
      invariant forall j :: 0 <= j < i ==> !Overlaps(Net24Cidr(n), locals[j])
    {
      if Overlaps(Net24Cidr(n), locals[i]) { return true; }
    }
    found := false;
  }

  method AllocateSubnet(base: Option<Ip4>, rooms: seq<Net24>, locals: seq<Cidr>) returns (r: Option<Net24>)
    requires forall i :: 0 <= i < |locals| ==> IsCidr(locals[i])
    ensures Allocates(base, (set n | n in rooms), locals, r)
  {
    if base.None? { return None; }
    var m := HighestOctet(base.value, rooms);
    var next := m + 1;
    while next <= 254
      invariant m < next
      invariant forall k: byte :: m < k < next && k < 255 ==> OverlapsAny(Net24(base.value.a, base.value.b, k), locals)
    {
      var candidate := Net24(base.value.a, base.value.b, next);
      var hit := SubnetOverlapsAny(candidate, locals);
      if !hit {
        assert FirstAfter(base.value, m, locals, Some(candidate));
        return Some(candidate);
      }
      next := next + 1;
    }
    r := None;
    assert FirstAfter(base.value, m, locals, r);
  }

  method HighestOctet(base: Ip4, rooms: seq<Net24>) returns (m: int)
    ensures IsHighest(base, (set n | n in rooms), m)
  {
    m := if base.c < 1 then 1 else base.c;
    for i := 0 to |rooms|
      invariant 1 <= m && base.c <= m && (forall j :: 0 <= j < i ==> rooms[j].c <= m)
      invariant m == 1 || m == base.c || exists j :: 0 <= j < i && rooms[j].c == m
    {
      if rooms[i].c > m { m := rooms[i].c; }
    }
  }
}
