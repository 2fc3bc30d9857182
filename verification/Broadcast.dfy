/**
 Rewriting a limited broadcast for the TUN device: rewriteBroadcast in
 internal/client/recv_data.go. The destination becomes the subnet's directed
 broadcast and the header checksum of section 3.1 of RFC 791 is computed anew.
 */
module Broadcast {
  import opened Base
  import opened Buffers

  // ── One's-complement arithmetic (section 1 of RFC 1071) ────────

  function Word(s: Bytes, i: nat): (w: nat)
    requires i + 2 <= |s|
    ensures w <= 0xFFFF
  {
    (s[i] as int) * 256 + s[i + 1] as int
  }

  /** 16-bit addition with end-around carry. */
  function AddOnes(x: nat, y: nat): nat { if x + y > 0xFFFF then x + y - 0xFFFF else x + y }

  /** The one's-complement sum of the first `n` bytes, two at a time. */
  function OnesSum(s: Bytes, n: nat): nat
    requires n % 2 == 0 && n <= |s|
  {
    if n == 0 then 0 else AddOnes(OnesSum(s, n - 2), Word(s, n - 2))
  }

  /** The plain sum of the same words. */
  function WordSum(s: Bytes, n: nat): nat
    requires n % 2 == 0 && n <= |s|
  {
    if n == 0 then 0 else WordSum(s, n - 2) + Word(s, n - 2)
  }

  /** The 16-bit representative of a sum modulo 0xFFFF; only zero is represented by zero. */
  function Folded(x: nat): (r: nat)
    ensures r <= 0xFFFF && r <= x && (r == 0 <==> x == 0)
  {
    if x == 0 then 0 else 1 + (x - 1) % 0xFFFF
  }

  lemma FoldedLess(x: nat, k: nat)
    requires x > 0
    ensures Folded(x + k * 0xFFFF) == Folded(x)
    decreases k
  {
    if k > 0 {
      FoldedLess(x, k - 1);
      assert (x - 1 + k * 0xFFFF) % 0xFFFF == (x - 1 + (k - 1) * 0xFFFF) % 0xFFFF;
    }
  }

  lemma FoldedPlus(x: nat, y: nat)
    requires y <= 0xFFFF
    ensures Folded(x + y) == AddOnes(Folded(x), y)
  {
    if x > 0 {
      var k := (x - 1) / 0xFFFF;
      assert x + y == Folded(x) + y + k * 0xFFFF;
      FoldedLess(Folded(x) + y, k);
    }
  }

  /** Summing wide and folding afterwards is the one's-complement sum. */
  lemma {:induction false} WideSumFolds(s: Bytes, n: nat)
    requires n % 2 == 0 && n <= |s|
    ensures OnesSum(s, n) == Folded(WordSum(s, n)) && WordSum(s, n) <= n / 2 * 0xFFFF
  {
    if n > 0 {
      WideSumFolds(s, n - 2);
      FoldedPlus(WordSum(s, n - 2), Word(s, n - 2));
    }
  }

  /** Add the high half to the low half until only a low half is left. */
  method Fold(start: nat) returns (sum: nat)
    requires start < 0x1_0000_0000
    ensures sum == Folded(start)
  {
    sum := start;
    while sum / 0x1_0000 != 0
      invariant sum < 0x1_0000_0000 && Folded(sum) == Folded(start)
      decreases sum
    {
      var low, high := sum % 0x1_0000, sum / 0x1_0000;
      FoldedLess(low + high, high);
      sum := low + high;
    }
  }

  // ── The rewritten packet ───────────────────────────────────────

  /** `x | ^m` on the low `n` bits. */
  function OrNot(x: nat, m: nat, n: nat): (r: nat) {
    if n == 0 then 0 else (if m % 2 == 1 then x % 2 else 1) + 2 * OrNot(x / 2, m / 2, n - 1)
  }

  function BitOf(x: nat, i: nat): nat { if i == 0 then x % 2 else BitOf(x / 2, i - 1) }

  /** Under the mask the network's own bits, everywhere else ones. */
  lemma {:induction false} OrNotBits(x: nat, m: nat, n: nat, i: nat)
    requires i < n
    ensures BitOf(OrNot(x, m, n), i) == if BitOf(m, i) == 1 then BitOf(x, i) else 1
  {
    var r := OrNot(x, m, n);
    assert r % 2 == (if m % 2 == 1 then x % 2 else 1) && r / 2 == OrNot(x / 2, m / 2, n - 1);
    if i > 0 { OrNotBits(x / 2, m / 2, n - 1, i - 1); }
  }

  lemma OctetFits(x: byte, m: byte)
    ensures OrNot(x, m, 8) < 256
  {
    Below(x, m, 8);
    assert Twice(8) == 256;
  }

  function Twice(n: nat): nat { if n == 0 then 1 else 2 * Twice(n - 1) }

  lemma {:induction false} Below(x: nat, m: nat, n: nat)
    ensures OrNot(x, m, n) < Twice(n)
  {
    if n > 0 { Below(x / 2, m / 2, n - 1); }
  }

  function DirectedOctet(ip: byte, mask: byte): byte { OctetFits(ip, mask); OrNot(ip, mask, 8) }

  datatype Subnet = Subnet(ip: Option<Ip4>, mask: Bytes)

  function Directed(ip: Ip4, mask: Bytes): Bytes
    requires |mask| >= 4
  {
    [DirectedOctet(ip.a, mask[0]), DirectedOctet(ip.b, mask[1]), DirectedOctet(ip.c, mask[2]), DirectedOctet(ip.d, mask[3])]
  }

  predicate IsLimitedBroadcast(pkt: Bytes) {
    |pkt| >= 20 && pkt[0] / 16 == 4 && pkt[16..20] == [255, 255, 255, 255]
  }

  function HeaderLen(pkt: Bytes): (n: nat)
    requires |pkt| > 0
    ensures n <= 60 && n % 2 == 0
  {
    pkt[0] % 16 * 4
  }

  /** The packet with a new destination and checksum field. */
  function WithFields(pkt: Bytes, dst: Bytes, check: nat): (r: Bytes)
    requires |pkt| >= 20 && |dst| == 4 && check <= 0xFFFF
    ensures |r| == |pkt|
    ensures forall i :: 0 <= i < |pkt| && !(10 <= i < 12) && !(16 <= i < 20) ==> r[i] == pkt[i]
    ensures r[16..20] == dst && Word(r, 10) == check
  {
    pkt[..10] + [check / 256, check % 256] + pkt[12..16] + dst + pkt[20..]
  }

  /** Every word but the checksum's is unaffected by it. */
  lemma {:induction false} ChecksumWord(s: Bytes, t: Bytes, n: nat)
    requires n % 2 == 0 && 12 <= n <= |s| && |t| == |s| && Word(s, 10) == 0
    requires forall i :: 0 <= i < |s| && i != 10 && i != 11 ==> t[i] == s[i]
    ensures WordSum(t, n) == WordSum(s, n) + Word(t, 10)
  {
    if n == 12 {
      assert WordSum(t, 10) == WordSum(s, 10) by { SamePrefix(s, t, 10); }
    } else {
      ChecksumWord(s, t, n - 2);
    }
  }

  lemma {:induction false} SamePrefix(s: Bytes, t: Bytes, n: nat)
    requires n % 2 == 0 && n <= |s| && n <= |t|
    requires forall i :: 0 <= i < n ==> t[i] == s[i]
    ensures WordSum(t, n) == WordSum(s, n)
  {
    if n > 0 { SamePrefix(s, t, n - 2); }
  }

  lemma {:induction false} SumPositive(s: Bytes, n: nat)
    requires n % 2 == 0 && 2 <= n <= |s| && s[0] > 0
    ensures WordSum(s, n) > 0
  {
    if n > 2 { SumPositive(s, n - 2); } else { assert WordSum(s, 0) == 0; }
  }

  /** Main theorem: storing the complement of the folded sum makes the header sum to 0xFFFF,
      whenever the header holds the checksum field and is all there. */
  lemma ChecksumCompletes(pkt: Bytes, dst: Bytes, n: nat)
    requires |pkt| >= 20 && |dst| == 4 && pkt[0] > 0
    requires n % 2 == 0 && 12 <= n <= |pkt|
    ensures var check := 0xFFFF - Folded(WordSum(WithFields(pkt, dst, 0), n));
            OnesSum(WithFields(pkt, dst, check), n) == 0xFFFF
  {
    var s := WithFields(pkt, dst, 0);
    var sum := WordSum(s, n);
    var check := 0xFFFF - Folded(sum);
    var t := WithFields(pkt, dst, check);
    assert forall i :: 0 <= i < |s| && i != 10 && i != 11 ==> t[i] == s[i] by {
      assert forall i :: 16 <= i < 20 ==> t[i] == t[16..20][i - 16] && s[i] == s[16..20][i - 16];
    }
    ChecksumWord(s, t, n);
    SumPositive(s, n);
    WideSumFolds(t, n);
    var k := (sum - 1) / 0xFFFF;
    assert sum + check == 0xFFFF + k * 0xFFFF;
    FoldedLess(0xFFFF, k);
  }

  /** A header too short to hold the field is not repaired: its sum stays what it was. */
  lemma ShortHeaderUnrepaired(pkt: Bytes, dst: Bytes, check: nat, n: nat)
    requires |pkt| >= 20 && |dst| == 4 && check <= 0xFFFF && n % 2 == 0 && n <= 10
    ensures OnesSum(WithFields(pkt, dst, check), n) == OnesSum(pkt, n)
  {
    var r := WithFields(pkt, dst, check);
    SamePrefix(pkt, r, n);
    WideSumFolds(pkt, n);
    WideSumFolds(r, n);
  }

  /** A limited broadcast comes out as a directed one, unless that is the same address. */
  lemma RewriteSettles(pkt: Bytes, dst: Bytes, check: nat)
    requires IsLimitedBroadcast(pkt) && |dst| == 4 && check <= 0xFFFF
    ensures IsLimitedBroadcast(WithFields(pkt, dst, check)) <==> dst == [255, 255, 255, 255]
  {
    var r := WithFields(pkt, dst, check);
    assert r[0] == pkt[0];
  }

  // ── What depends on the buffer ─────────────────────────────────

  predicate IsBuffer(pkt: Bytes, stale: Bytes) { |stale| >= |pkt| && |stale| >= 512 }

  /** The packet as rewritten in a buffer that held `stale`: the sum runs over the header length the
      packet claims, also where that is past the packet's end. */
  function RewrittenOver(pkt: Bytes, dst: Bytes, stale: Bytes): Bytes
    requires |pkt| >= 20 && |dst| == 4 && IsBuffer(pkt, stale)
  {
    WithFields(pkt, dst, 0xFFFF - Folded(WordSum(WithFields(pkt, dst, 0) + stale[|pkt|..], HeaderLen(pkt))))
  }

  /** A header that is all there sums to 0xFFFF iff it holds the checksum field or did so before. */
  lemma HeaderSumIff(pkt: Bytes, dst: Bytes, stale: Bytes)
    requires |pkt| >= 20 && pkt[0] > 0 && |dst| == 4 && IsBuffer(pkt, stale) && HeaderLen(pkt) <= |pkt|
    ensures HeaderRepaired(pkt, RewrittenOver(pkt, dst, stale))
  {
    var n := HeaderLen(pkt);
    WithinPacket(pkt, dst, stale);
    var check := 0xFFFF - Folded(WordSum(WithFields(pkt, dst, 0), n));
    if n >= 12 { ChecksumCompletes(pkt, dst, n); } else { ShortHeaderUnrepaired(pkt, dst, check, n); }
  }

  /** The rewritten header sums to 0xFFFF iff it holds the checksum field or summed to it before. */
  predicate HeaderRepaired(pkt: Bytes, out: Bytes)
    requires |out| == |pkt| > 0 && HeaderLen(pkt) <= |pkt|
  {
    OnesSum(out, HeaderLen(pkt)) == 0xFFFF <==> HeaderLen(pkt) >= 12 || OnesSum(pkt, HeaderLen(pkt)) == 0xFFFF
  }

  lemma WithinPacket(pkt: Bytes, dst: Bytes, stale: Bytes)
    requires |pkt| >= 20 && |dst| == 4 && IsBuffer(pkt, stale) && HeaderLen(pkt) <= |pkt|
    ensures RewrittenOver(pkt, dst, stale) == WithFields(pkt, dst, 0xFFFF - Folded(WordSum(WithFields(pkt, dst, 0), HeaderLen(pkt))))
  {
    var zeroed := WithFields(pkt, dst, 0);
    SamePrefix(zeroed, zeroed + stale[|pkt|..], HeaderLen(pkt));
  }

  ghost predicate Determined(pkt: Bytes, dst: Bytes)
    requires |pkt| >= 20 && |dst| == 4
  {
    forall s, t :: IsBuffer(pkt, s) && IsBuffer(pkt, t) ==> RewrittenOver(pkt, dst, s) == RewrittenOver(pkt, dst, t)
  }

  lemma FoldedNext(x: nat)
    requires x > 0
    ensures Folded(x + 1) != Folded(x)
  {
  }

  /** A buffer of zeros but for one byte. */
  function Speck(n: nat, at: nat, x: byte): (s: Bytes)
    ensures |s| == n && forall i :: 0 <= i < n ==> s[i] == if i == at then x else 0
  {
    seq(n, i => if i == at then x else 0)
  }

  /** The byte at the end of the claimed header counts, wherever it comes from. */
  lemma StaleByteCounts(a: Bytes, b: Bytes, n: nat)
    requires n % 2 == 0 && 2 <= n <= |a| && |b| == |a| && a[0] > 0
    requires (forall i :: 0 <= i < n - 1 ==> b[i] == a[i]) && a[n - 1] == 0 && b[n - 1] == 1
    ensures Folded(WordSum(a, n)) != Folded(WordSum(b, n))
  {
    SamePrefix(a, b, n - 2);
    SumPositive(a, n);
    FoldedNext(WordSum(a, n));
  }

  /** The result is a function of packet and subnet exactly when the header is within the packet. */
  lemma DeterminedIff(pkt: Bytes, dst: Bytes)
    requires |pkt| >= 20 && pkt[0] > 0 && |dst| == 4
    ensures Determined(pkt, dst) <==> HeaderLen(pkt) <= |pkt|
  {
    var n := HeaderLen(pkt);
    if n <= |pkt| {
      forall s, t | IsBuffer(pkt, s) && IsBuffer(pkt, t) ensures RewrittenOver(pkt, dst, s) == RewrittenOver(pkt, dst, t) {
        WithinPacket(pkt, dst, s);
        WithinPacket(pkt, dst, t);
      }
    } else {
      var s, t := Speck(512, n - 1, 0), Speck(512, n - 1, 1);
      var zeroed := WithFields(pkt, dst, 0);
      StaleByteCounts(zeroed + s[|pkt|..], zeroed + t[|pkt|..], n);
      assert Word(RewrittenOver(pkt, dst, s), 10) != Word(RewrittenOver(pkt, dst, t), 10);
    }
  }

  // ── The code ───────────────────────────────────────────────────

  /** `buf` is the pooled buffer, holding whatever its last user left; every size class has 512
      bytes or more. A header length beyond the packet reads those stale bytes. */
  method RewriteBroadcast(pkt: Bytes, subnet: Option<Subnet>, buf: array<byte>) returns (out: Bytes, modified: bool)
    requires subnet.Some? ==> subnet.value.mask == [] || |subnet.value.mask| >= 4
    requires buf.Length >= |pkt| && buf.Length >= 512
    modifies buf
    ensures modified <==> IsLimitedBroadcast(pkt) && subnet.Some? && subnet.value.mask != [] && subnet.value.ip.Some?
    ensures !modified ==> out == pkt && buf[..] == old(buf[..])
    ensures |out| == |pkt|
    ensures forall i :: 0 <= i < |pkt| && !(10 <= i < 12) && !(16 <= i < 20) ==> out[i] == pkt[i]
    ensures modified ==> out[16..20] == Directed(subnet.value.ip.value, subnet.value.mask)
    ensures modified ==> out == RewrittenOver(pkt, Directed(subnet.value.ip.value, subnet.value.mask), old(buf[..]))
    ensures modified && HeaderLen(pkt) <= |pkt| ==> HeaderRepaired(pkt, out)
  {
    if |pkt| < 20 || subnet.None? || pkt[0] / 16 != 4 || subnet.value.mask == [] {
      return pkt, false;
    }
    if pkt[16..20] != [255, 255, 255, 255] || subnet.value.ip.None? {
      return pkt, false;
    }
    var dst := Directed(subnet.value.ip.value, subnet.value.mask);
    ghost var stale := buf[..];
    out := Rewritten(pkt, dst, buf);
    if HeaderLen(pkt) <= |pkt| { HeaderSumIff(pkt, dst, stale); }
    modified := true;
  }

  /** The part of rewriteBroadcast that works in the pooled buffer. */
  method Rewritten(pkt: Bytes, dst: Bytes, buf: array<byte>) returns (out: Bytes)
    requires |pkt| >= 20 && pkt[0] > 0 && |dst| == 4
    requires buf.Length >= |pkt| && buf.Length >= 512
    modifies buf
    ensures out == RewrittenOver(pkt, dst, old(buf[..]))
  {
    CopyAndZero(buf, pkt, dst);
    var n := HeaderLen(buf[..]);
    assert n == HeaderLen(pkt);
    var sum := SumWords(buf, n);
    sum := Fold(sum);
    StoreWord(buf, pkt, dst, 0xFFFF - sum);
    out := buf[..|pkt|];
  }

  method StoreWord(buf: array<byte>, pkt: Bytes, dst: Bytes, check: nat)
    requires 20 <= |pkt| <= buf.Length && |dst| == 4 && check <= 0xFFFF && buf[..|pkt|] == WithFields(pkt, dst, 0)
    modifies buf
    ensures buf[..|pkt|] == WithFields(pkt, dst, check)
  {
    buf[10], buf[11] := check / 256, check % 256;
  }

  method CopyAndZero(buf: array<byte>, pkt: Bytes, dst: Bytes)
    requires 20 <= |pkt| <= buf.Length && |dst| == 4
    modifies buf
    ensures buf[..] == WithFields(pkt, dst, 0) + old(buf[..])[|pkt|..]
  {
    ghost var stale := buf[..];
    Copy(buf, 0, pkt);
    assert buf[..|pkt|] == pkt && buf[|pkt|..] == stale[|pkt|..];
    Patch(buf, pkt, dst);
    assert buf[..] == buf[..|pkt|] + buf[|pkt|..];
  }

  method Patch(buf: array<byte>, pkt: Bytes, dst: Bytes)
    requires 20 <= |pkt| <= buf.Length && |dst| == 4 && buf[..|pkt|] == pkt
    modifies buf
    ensures buf[..|pkt|] == WithFields(pkt, dst, 0) && buf[|pkt|..] == old(buf[|pkt|..])
  {
    buf[16], buf[17], buf[18], buf[19] := dst[0], dst[1], dst[2], dst[3];
    buf[10] := 0;
    buf[11] := 0;
  }

  /** The 32-bit accumulator never overflows. */
  method SumWords(buf: array<byte>, n: nat) returns (sum: nat)
    requires n % 2 == 0 && n <= 60 && n <= buf.Length
    ensures sum == WordSum(buf[..], n) && sum <= 30 * 0xFFFF
  {
    sum := 0;
    var i := 0;
    while i < n
      invariant 0 <= i <= n && i % 2 == 0
      invariant sum == WordSum(buf[..], i) && sum <= i / 2 * 0xFFFF
    {
      sum := sum + Word(buf[..], i);
      i := i + 2;
    }
  }
}
