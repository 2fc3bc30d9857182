/**
 Where each field stands on the wire, byte by byte: the codecs agree with each
 other elsewhere; here they are held to the layout other programs read.
 */
module WireLayout {
  import opened Base
  import opened Arithmetic
  import opened LittleEndian
  import opened Protocol
  import opened DataFormat
  import opened AddressText
  import opened PeerList
  import opened DataPath
  import opened ReplayWindow

  // ── Numbers, headers, checksums ────────────────────────────────

  /** Two bytes, the low one first. */
  lemma U16Layout(n: nat)
    ensures ToLE(n, 2) == [n % 256, n / 256 % 256]
  {
    U16Bytes(n);
  }

  lemma {:induction false} ByteOf(x: nat, n: nat, i: nat)
    requires i < n
    ensures ToLE(x, n)[i] == x / Pow256(i) % 256
  {
    if i > 0 {
      ByteOf(x / 256, n - 1, i - 1);
      DivDiv(x, 256, Pow256(i - 1));
      assert ToLE(x, n)[i] == ToLE(x / 256, n - 1)[i - 1];
    }
  }

  /** Version 1, type, payload. */
  lemma PacketLayout(typ: byte, payload: Bytes)
    ensures var d := Encode(typ, payload);
            |d| == |payload| + 2 && d[0] == 1 && d[1] == typ && d[2..] == payload
  {
  }

  /** The checksum of everything before it stands in the last four bytes, low byte first. */
  lemma ChecksumLayout(crc: Crc, typ: byte, payload: Bytes)
    ensures var d := EncodeChecked(crc, typ, payload);
            var n := |payload| + 2;
            var sum := crc(Encode(typ, payload));
            && |d| == n + 4 && d[..n] == Encode(typ, payload)
            && d[n] == sum % 256 && d[n + 1] == sum / 256 % 256 && d[n + 2] == sum / 65536 % 256 && d[n + 3] == sum / 16777216 % 256
  {
    var sum := crc(Encode(typ, payload));
    var d, n := EncodeChecked(crc, typ, payload), |payload| + 2;
    assert Pow256(1) == 256 && Pow256(2) == 65536 && Pow256(3) == 16777216;
    ByteOf(sum, 4, 0);
    ByteOf(sum, 4, 1);
    ByteOf(sum, 4, 2);
    ByteOf(sum, 4, 3);
    assert forall i :: 0 <= i < 4 ==> d[n + i] == ToLE(sum, 4)[i];
    assert d[..n] == Encode(typ, payload);
  }

  // ── Which packets a server takes ───────────────────────────────

  /** Without encryption only checked packets; with it any packet, except that registrations (1), auth
      responses (9), NAT probes (14) and rebinds (16) must be checked all the same. */
  lemma ServerTakes(crc: Crc, encrypted: bool, data: Bytes, m: Message)
    ensures ServerDecode(crc, encrypted, data) == Some(m)
            <==> if !encrypted then data == EncodeChecked(crc, m.typ, m.payload)
                 else data == Encode(m.typ, m.payload) && (m.typ in {1, 9, 14, 16} ==> Checked(crc, data))
  {
    DecodeIffEncoded(data, m);
    DecodeCheckedIffEncoded(crc, data, m);
    VerifiedIffChecked(crc, data);
  }

  /** The last four bytes are the checksum of the others, of which there are at least two. */
  predicate Checked(crc: Crc, data: Bytes) {
    |data| >= 6 && data[|data| - 4..] == ToLE(crc(data[..|data| - 4]), 4)
  }

  lemma VerifiedIffChecked(crc: Crc, data: Bytes)
    ensures VerifyChecksum(crc, data).Ok? <==> Checked(crc, data)
  {
    if |data| >= 6 {
      var n := |data| - 4;
      ChecksumReadsBack(crc(data[..n]));
      if crc(data[..n]) == FromLE(data[n..]) { ChecksumBytes(data[n..], crc(data[..n])); }
    }
  }

  // ── Data packets ───────────────────────────────────────────────

  /** Source, destination, version 1, flags, the token if its flag is set, then the data. */
  lemma DataLayout(d: Data)
    requires |d.token| == 16
    ensures var m := DataFormat.Marshal(d);
            var off := if d.flags / 2 % 2 == 1 then 26 else 10;
            && |m| == off + |d.data|
            && m[0] == d.src.a && m[1] == d.src.b && m[2] == d.src.c && m[3] == d.src.d
            && m[4] == d.dst.a && m[5] == d.dst.b && m[6] == d.dst.c && m[7] == d.dst.d
            && m[8] == 1 && m[9] == d.flags && (off == 26 ==> m[10..26] == d.token) && m[off..] == d.data
  {
    var m := DataFormat.Marshal(d);
    if HasToken(d.flags) { assert m[10..26] == d.token && m[26..] == d.data; } else { assert m[10..] == d.data; }
  }

  /** A packet is read by the version byte after its addresses; without it everything after them is data.
      Only a packet too short for its own header is refused. */
  lemma DataReading(data: Bytes)
    ensures var current := |data| > 8 && data[8] == 1;
            var off := if !current then 8 else if |data| > 9 && data[9] / 2 % 2 == 1 then 26 else 10;
            var r := UnmarshalData(data);
            && (r.Some? <==> |data| >= off)
            && (r.Some? ==> r.value.src == Ip4At(data, 0) && r.value.dst == Ip4At(data, 4) && r.value.data == data[off..]
                            && r.value.flags == (if current then data[9] else 0) && r.value.formatVer == (if current then 1 else 0)
                            && r.value.token == (if off == 26 then data[10..26] else [0, 0, 0, 0, 0, 0, 0, 0, 0, 0, 0, 0, 0, 0, 0, 0]))
  {
  }

  /** A token that is not all zero sets flag 2 and travels; otherwise flags stay as given. */
  lemma SentLayout(src: Ip4, dst: Ip4, flags: byte, token: Bytes, data: Bytes)
    ensures var d := Sent(src, dst, flags, token, data);
            var zero := token == [0, 0, 0, 0, 0, 0, 0, 0, 0, 0, 0, 0, 0, 0, 0, 0];
            && d.src == src && d.dst == dst && d.token == token && d.data == data && d.formatVer == 1
            && d.flags == (if zero || flags / 2 % 2 == 1 then flags else flags + 2)
  {
  }

  /** Version 1, the counter's eight bytes low first, the direction tag, the ciphertext. */
  lemma SealedLayout(seal: Seal, ctr: nat, dirTag: Bytes, plain: Bytes)
    requires |dirTag| == 4
    ensures var d := Sealed(seal, Nonce(ctr, dirTag), plain);
            && d[0] == 1 && d[9..13] == dirTag && d[13..] == seal(Nonce(ctr, dirTag), plain)
            && forall i :: 0 <= i < 8 ==> d[1 + i] == ctr / Pow256(i) % 256
  {
    var d := Sealed(seal, Nonce(ctr, dirTag), plain);
    forall i | 0 <= i < 8 ensures d[1 + i] == ctr / Pow256(i) % 256 {
      ByteOf(ctr, 8, i);
      assert d[1 + i] == ToLE(ctr, 8)[i];
    }
  }

  /** What reaches the TUN device: with a cipher, data that begins with version 1 only if its counter is
      admitted and it opens; any other data as it came; nothing from an empty or short packet. */
  lemma ReceivedIff(open: Open, seen: Option<set<nat>>, payload: Bytes)
    ensures var dp := UnmarshalData(payload);
            var r := Received(open, seen, payload);
            && (dp.None? || dp.value.data == [] ==> r == None)
            && (dp.Some? && dp.value.data != [] ==>
                  var d := dp.value.data;
                  if seen.Some? && d[0] == 1
                  then r == (if |d| >= 29 && IsFresh(seen.value, FromLE(d[1..9])) then open(d[1..13], d[13..]) else None)
                  else r == Some(d))
  {
  }

  // ── Peer lists ─────────────────────────────────────────────────

  /** Virtual IP, length and text of the address, length and text of the name. */
  lemma PeerLayout(k: AddrCodec, p: Peer)
    requires p.vip.V4?
    ensures var d := PeerBytes(k, p);
            var a := if p.addr.Some? then k.write(p.addr.value) else [];
            var n := 6 + |a|;
            && |d| == n + 2 + |p.name| && d[..4] == [p.vip.v4.a, p.vip.v4.b, p.vip.v4.c, p.vip.v4.d]
            && d[4] == |a| % 256 && d[5] == |a| / 256 % 256 && d[6..n] == a
            && d[n] == |p.name| % 256 && d[n + 1] == |p.name| / 256 % 256 && d[n + 2..] == p.name
  {
    var a := AddrField(k, p.addr);
    U16Bytes(|a|);
    U16Bytes(|p.name|);
    PeerSlices(VipBytes(p.vip), ToLE(|a|, 2), a, ToLE(|p.name|, 2), p.name, []);
    var d := PeerBytes(k, p);
    assert d + [] == d;
    assert d[4] == d[4..6][0] && d[5] == d[4..6][1];
    assert d[6 + |a|] == d[6 + |a|..8 + |a|][0] && d[7 + |a|] == d[6 + |a|..8 + |a|][1];
  }

  /** The number of IPv4 peers comes first, and NAT types, when one is known, come last, one byte each. */
  lemma ListLayout(k: AddrCodec, ps: seq<Peer>)
    ensures var d, v := ListBytes(k, ps), V4Only(ps);
            && |d| >= 2 && d[0] == |v| % 256 && d[1] == |v| / 256 % 256
            && ((exists i :: 0 <= i < |v| && v[i].natType != 0) ==>
                  |d| >= 2 + |v| && forall i :: 0 <= i < |v| ==> d[|d| - |v|..][i] == v[i].natType)
  {
    var d, v := ListBytes(k, ps), V4Only(ps);
    U16Bytes(|v|);
    if HasNat(v) {
      assert d[|d| - |v|..] == Nats(v);
    }
  }

  /** A list that claims more than 256 peers is refused as such. */
  lemma TooManyRefused(k: AddrCodec, data: Bytes)
    requires |data| >= 2
    ensures data[0] as int + 256 * (data[1] as int) > 256 <==> ParseList(k, data) == Err(Error.TooManyPeers)
  {
    TwoBytes(data[0], data[1]);
    assert data[0..2] == [data[0], data[1]];
  }

  lemma TwoBytes(a: byte, b: byte)
    ensures FromLE([a, b]) == a as int + 256 * (b as int)
  {
    assert [a, b][1..] == [b] && [b][1..] == [];
    assert FromLE([b]) == b;
  }

  // ── Address text ───────────────────────────────────────────────

  /** "10.10.0.2:7777" */
  lemma SampleText(t: Text6)
    ensures AddrText(t, Endpoint(V4(Ip4(10, 10, 0, 2)), 7777)) == [49, 48, 46, 49, 48, 46, 48, 46, 50, 58, 55, 55, 55, 55]
  {
    assert AddressText.Digits(10) == [49, 48] && AddressText.Digits(0) == [48] && AddressText.Digits(2) == [50];
    assert AddressText.Digits(7777) == [55, 55, 55, 55] by {
      assert AddressText.Digits(77) == [55, 55];
      assert AddressText.Digits(777) == [55, 55, 55];
    }
  }

  /** "[" text "]:" port for any other address. */
  lemma OtherText(t: Text6, ip: Bytes, port: nat)
    ensures AddrText(t, Endpoint(Other(ip), port)) == [91] + t.write(ip) + [93, 58] + AddressText.Digits(port)
  {
  }
}
