/**
 The peer list on the wire: PeerInfoPayload.Marshal and UnmarshalPeerInfo in
 internal/protocol/messages_peer.go.
 */
module PeerList {
  import opened Base
  import opened LittleEndian
  import opened AddressText
  import opened Protocol
  import opened ListCodec

  const MAX_PEERS := 256

  datatype Peer = Peer(vip: Ip, addr: Option<Endpoint>, name: Bytes, natType: byte)

  // ── What is written ────────────────────────────────────────────

  function V4Only(ps: seq<Peer>): (r: seq<Peer>)
    ensures forall i :: 0 <= i < |r| ==> r[i].vip.V4?
    ensures |r| <= |ps|
  {
    if ps == [] then []
    else if ps[|ps| - 1].vip.V4? then V4Only(ps[..|ps| - 1]) + [ps[|ps| - 1]]
    else V4Only(ps[..|ps| - 1])
  }

  predicate HasNat(ps: seq<Peer>) { exists i :: 0 <= i < |ps| && ps[i].natType != 0 }

  function AddrField(k: AddrCodec, a: Option<Endpoint>): Bytes { if a.Some? then k.write(a.value) else [] }

  /** A 16-bit length, cut to the width of its field, then the text. */
  function Prefixed(s: Bytes): Bytes { ToLE(|s|, 2) + s }

  function VipBytes(vip: Ip): Bytes { if vip.V4? then Ip4Bytes(vip.v4) else [] }

  function PeerBytes(k: AddrCodec, p: Peer): Bytes {
    VipBytes(p.vip) + Prefixed(AddrField(k, p.addr)) + Prefixed(p.name)
  }

  function PeerWriter(k: AddrCodec): Writer<Peer> { p => PeerBytes(k, p) }

  function Nats(ps: seq<Peer>): Bytes { seq(|ps|, i requires 0 <= i < |ps| => ps[i].natType) }

  /** The payload: count, peers, and the NAT section when some type is known. */
  function ListBytes(k: AddrCodec, ps: seq<Peer>): Bytes {
    var v := V4Only(ps);
    ToLE(|v|, 2) + WriteAll(PeerWriter(k), v) + NatSection(v)
  }

  // ── What is read ───────────────────────────────────────────────

  /** The first peer in `data` and what follows it. */
  function ParsePeer(k: AddrCodec, data: Bytes): (r: Option<(Peer, Bytes)>)
    ensures r.Some? ==> |r.value.1| < |data|
  {
    if |data| < 6 then None
    else
      var a := FromLE(data[4..6]);
      if |data| < 6 + a + 2 then None
      else
        var u := FromLE(data[6 + a..8 + a]);
        if |data| < 8 + a + u then None
        else Some((Peer(V4(Ip4At(data, 0)), k.read(data[6..6 + a]), data[8 + a..8 + a + u], 0), data[8 + a + u..]))
  }

  function PeerReader(k: AddrCodec): Reader<Peer> { data => ParsePeer(k, data) }

  /** The trailing bytes are the peers' NAT types, as far as they go. */
  function WithNats(ps: seq<Peer>, tail: Bytes): (r: seq<Peer>)
    ensures |r| == |ps|
  {
    seq(|ps|, i requires 0 <= i < |ps| => if i < |tail| then ps[i].(natType := tail[i]) else ps[i])
  }

  function ParseList(k: AddrCodec, data: Bytes): Result<seq<Peer>, Error> {
    if |data| < 2 then Err(PacketTooShort)
    else if FromLE(data[0..2]) > MAX_PEERS then Err(Error.TooManyPeers)
    else
      var r := ReadMany(PeerReader(k), data[2..], FromLE(data[0..2]));
      if r.None? then Err(PacketTooShort) else Ok(WithNats(r.value.0, r.value.1))
  }

  // ── Round trip ─────────────────────────────────────────────────

  /** What the wire can carry. */
  predicate Carried(p: Peer) {
    p.vip.V4? && |p.name| < 0x1_0000 && (p.addr.Some? ==> IsV4Endpoint(p.addr.value))
  }

  lemma ReadU16(n: nat)
    requires n < 0x1_0000
    ensures FromLE(ToLE(n, 2)) == n
  {
    FromToLE(n, 2);
    assert Pow256(2) == 0x1_0000;
  }

  lemma PeerReadsBack(k: AddrCodec, p: Peer, rest: Bytes)
    requires Lawful(k) && Carried(p)
    ensures ParsePeer(k, PeerBytes(k, p) + rest) == Some((p.(natType := 0), rest))
  {
    var a, u := AddrField(k, p.addr), p.name;
    ReadU16(|a|);
    ReadU16(|u|);
    PeerSlices(VipBytes(p.vip), ToLE(|a|, 2), a, ToLE(|u|, 2), u, rest);
    var data := PeerBytes(k, p) + rest;
    assert Ip4At(data, 0) == p.vip.v4;
  }

  lemma PeerSlices(ip: Bytes, la: Bytes, a: Bytes, lu: Bytes, u: Bytes, rest: Bytes)
    requires |ip| == 4 && |la| == 2 && |lu| == 2
    ensures var data := ip + (la + a) + (lu + u) + rest;
            && |data| == 8 + |a| + |u| + |rest|
            && data[4..6] == la && data[6..6 + |a|] == a && data[6 + |a|..8 + |a|] == lu
            && data[8 + |a|..8 + |a| + |u|] == u && data[8 + |a| + |u|..] == rest
  {
  }

  function NoNats(ps: seq<Peer>): seq<Peer> { seq(|ps|, i requires 0 <= i < |ps| => ps[i].(natType := 0)) }

  lemma PeersReadBack(k: AddrCodec, ps: seq<Peer>, rest: Bytes)
    requires Lawful(k) && forall i :: 0 <= i < |ps| ==> Carried(ps[i])
    ensures ReadMany(PeerReader(k), WriteAll(PeerWriter(k), ps) + rest, |ps|) == Some((NoNats(ps), rest))
  {
    var write, read := PeerWriter(k), PeerReader(k);
    forall i | 0 <= i < |ps| ensures ReadsAs(write, read, ps[i], NoNats(ps)[i]) {
      forall rest: Bytes ensures read(write(ps[i]) + rest) == Some((NoNats(ps)[i], rest)) {
        PeerReadsBack(k, ps[i], rest);
      }
    }
    ReadManyUndoesWriteAll(write, read, ps, NoNats(ps), rest);
  }

  lemma PeerNeedsAll(k: AddrCodec, p: Peer, m: nat)
    requires Lawful(k) && Carried(p) && m < |PeerBytes(k, p)|
    ensures ParsePeer(k, PeerBytes(k, p)[..m]) == None
  {
    var a, u := AddrField(k, p.addr), p.name;
    ReadU16(|a|);
    ReadU16(|u|);
    PeerSlices(VipBytes(p.vip), ToLE(|a|, 2), a, ToLE(|u|, 2), u, []);
    assert PeerBytes(k, p) + [] == PeerBytes(k, p);
    CutPeer(k, PeerBytes(k, p), |a|, |u|, m);
  }

  lemma CutPeer(k: AddrCodec, d: Bytes, a: nat, u: nat, m: nat)
    requires m < |d| == 8 + a + u && FromLE(d[4..6]) == a && FromLE(d[6 + a..8 + a]) == u
    ensures ParsePeer(k, d[..m]) == None
  {
    if m >= 6 { PrefixSlice(d, m, 4, 6); }
    if m >= 8 + a { PrefixSlice(d, m, 6 + a, 8 + a); }
  }

  lemma PrefixSlice(d: Bytes, m: nat, i: nat, j: nat)
    requires i <= j <= m <= |d|
    ensures d[..m][i..j] == d[i..j]
  {
  }

  ghost predicate Sendable(ps: seq<Peer>) {
    |V4Only(ps)| <= MAX_PEERS && forall i :: 0 <= i < |V4Only(ps)| ==> Carried(V4Only(ps)[i])
  }

  /** Main theorem: a list cut short anywhere before its NAT section is refused. */
  lemma TruncatedRefused(k: AddrCodec, ps: seq<Peer>, m: nat)
    requires Lawful(k) && Sendable(ps) && m < |ListBytes(k, ps)| - |NatSection(V4Only(ps))|
    ensures ParseList(k, ListBytes(k, ps)[..m]) == Err(PacketTooShort)
  {
    var v := V4Only(ps);
    if m >= 2 {
      CutParts(ToLE(|v|, 2), WriteAll(PeerWriter(k), v), NatSection(v), m);
      ReadU16(|v|);
      CutListRefused(k, v, m - 2);
    }
  }

  lemma CutParts(head: Bytes, all: Bytes, nats: Bytes, m: nat)
    requires |head| == 2 && 2 <= m < 2 + |all|
    ensures var d := (head + all + nats)[..m];
            |d| == m && d[0..2] == head && d[2..] == all[..m - 2]
  {
  }

  lemma CutListRefused(k: AddrCodec, v: seq<Peer>, m: nat)
    requires Lawful(k) && (forall i :: 0 <= i < |v| ==> Carried(v[i])) && m < |WriteAll(PeerWriter(k), v)|
    ensures ReadMany(PeerReader(k), WriteAll(PeerWriter(k), v)[..m], |v|) == None
  {
    var write, read := PeerWriter(k), PeerReader(k);
    forall i | 0 <= i < |v| ensures ReadsAs(write, read, v[i], NoNats(v)[i]) && NeedsAll(write, read, v[i]) {
      forall rest: Bytes ensures read(write(v[i]) + rest) == Some((NoNats(v)[i], rest)) { PeerReadsBack(k, v[i], rest); }
      forall n: nat | n < |write(v[i])| ensures read(write(v[i])[..n]) == None { PeerNeedsAll(k, v[i], n); }
    }
    CutShort(write, read, v, NoNats(v), m);
  }

  /** The NAT section as sent. */
  function NatSection(v: seq<Peer>): Bytes { if HasNat(v) then Nats(v) else [] }

  lemma CountReadsBack(k: AddrCodec, body: Bytes, n: nat, peers: seq<Peer>, tail: Bytes)
    requires n <= MAX_PEERS && ReadMany(PeerReader(k), body, n) == Some((peers, tail))
    ensures ParseList(k, ToLE(n, 2) + body) == Ok(WithNats(peers, tail))
  {
    var data := ToLE(n, 2) + body;
    ReadU16(n);
    assert data[0..2] == ToLE(n, 2) && data[2..] == body;
  }

  /** Whatever follows the list on the wire is read as NAT types after those that were sent. */
  lemma ListReadsBack(k: AddrCodec, ps: seq<Peer>, extra: Bytes)
    requires Lawful(k) && Sendable(ps)
    ensures ParseList(k, ListBytes(k, ps) + extra) == Ok(WithNats(NoNats(V4Only(ps)), NatSection(V4Only(ps)) + extra))
  {
    var v := V4Only(ps);
    var all, nats := WriteAll(PeerWriter(k), v), NatSection(v);
    PeersReadBack(k, v, nats + extra);
    CountReadsBack(k, all + (nats + extra), |v|, NoNats(v), nats + extra);
    Regroup(ToLE(|v|, 2), all, nats, extra);
  }

  lemma Regroup(a: Bytes, b: Bytes, c: Bytes, d: Bytes)
    ensures ((a + b) + c) + d == a + (b + (c + d))
  {
  }

  lemma NatsRestored(v: seq<Peer>, extra: Bytes)
    ensures WithNats(NoNats(v), NatSection(v) + extra) == v
            <==> HasNat(v) || forall i :: 0 <= i < |v| && i < |extra| ==> extra[i] == 0
  {
    var r := WithNats(NoNats(v), NatSection(v) + extra);
    if HasNat(v) {
      assert forall i :: 0 <= i < |v| ==> r[i] == v[i];
    } else {
      assert NatSection(v) + extra == extra;
      assert forall i :: 0 <= i < |v| ==> (r[i] == v[i] <==> i >= |extra| || extra[i] == 0);
    }
  }

  /** Exactly when trailing bytes do no harm: the NAT section was sent, or they are zero as far as they are read. */
  lemma RoundTripWithTail(k: AddrCodec, ps: seq<Peer>, extra: Bytes)
    requires Lawful(k) && Sendable(ps)
    ensures var v := V4Only(ps);
            ParseList(k, ListBytes(k, ps) + extra) == Ok(v)
            <==> HasNat(v) || forall i :: 0 <= i < |v| && i < |extra| ==> extra[i] == 0
  {
    ListReadsBack(k, ps, extra);
    NatsRestored(V4Only(ps), extra);
  }

  /** Main theorem: reading undoes writing. */
  lemma RoundTrip(k: AddrCodec, ps: seq<Peer>)
    requires Lawful(k) && Sendable(ps)
    ensures ParseList(k, ListBytes(k, ps)) == Ok(V4Only(ps))
  {
    RoundTripWithTail(k, ps, []);
    assert ListBytes(k, ps) + [] == ListBytes(k, ps);
  }

  /** As sent: through the checked codec the list always survives. */
  lemma CheckedRoundTrip(t: Text6, crc: Crc, ps: seq<Peer>)
    requires Sendable(ps)
    ensures var m := DecodeChecked(crc, EncodeChecked(crc, TYPE_PEER_INFO, ListBytes(TextCodec(t), ps)));
            m.Ok? && m.value.typ == TYPE_PEER_INFO && ParseList(TextCodec(t), m.value.payload) == Ok(V4Only(ps))
  {
    TextCodecLawful(t);
    var m := Message(TYPE_PEER_INFO, ListBytes(TextCodec(t), ps));
    DecodeCheckedIffEncoded(crc, EncodeChecked(crc, m.typ, m.payload), m);
    RoundTrip(TextCodec(t), ps);
  }

  /** Read without the checksum, it survives exactly when types were sent or the checksum's first bytes are zero. */
  lemma UncheckedRoundTrip(t: Text6, crc: Crc, ps: seq<Peer>)
    requires Sendable(ps)
    ensures var v := V4Only(ps);
            var sum := ToLE(crc(Encode(TYPE_PEER_INFO, ListBytes(TextCodec(t), ps))), CHECKSUM_LEN);
            var m := Decode(EncodeChecked(crc, TYPE_PEER_INFO, ListBytes(TextCodec(t), ps)));
            && m.Ok?
            && (ParseList(TextCodec(t), m.value.payload) == Ok(v) <==> HasNat(v) || forall i :: 0 <= i < |v| && i < |sum| ==> sum[i] == 0)
  {
    TextCodecLawful(t);
    var payload := ListBytes(TextCodec(t), ps);
    var sum := ToLE(crc(Encode(TYPE_PEER_INFO, payload)), CHECKSUM_LEN);
    ChecksumIsTail(crc, TYPE_PEER_INFO, payload);
    RoundTripWithTail(TextCodec(t), ps, sum);
  }

  /** Decoding without verifying leaves the checksum at the end of the payload. */
  lemma ChecksumIsTail(crc: Crc, typ: byte, payload: Bytes)
    ensures Decode(EncodeChecked(crc, typ, payload)) == Ok(Message(typ, payload + ToLE(crc(Encode(typ, payload)), CHECKSUM_LEN)))
  {
    var m := Message(typ, payload + ToLE(crc(Encode(typ, payload)), CHECKSUM_LEN));
    assert EncodeChecked(crc, typ, payload) == Encode(m.typ, m.payload);
    DecodeIffEncoded(EncodeChecked(crc, typ, payload), m);
  }

  // ── The code ───────────────────────────────────────────────────

  /** The first loop of Marshal: keeps the IPv4 peers, writing over the list being read. */
  method Compact(peers: array<Peer>) returns (m: nat, hasNat: bool)
    modifies peers
    ensures m <= peers.Length && peers[..m] == V4Only(old(peers[..])) && peers[m..] == old(peers[m..])
    ensures hasNat <==> HasNat(peers[..m])
  {
    m, hasNat := 0, false;
    for i := 0 to peers.Length
      invariant 0 <= m <= i
      invariant peers[..m] == V4Only(old(peers[..i]))
      invariant forall j :: m <= j < peers.Length ==> peers[j] == old(peers[j])
      invariant hasNat <==> HasNat(peers[..m])
    {
      assert old(peers[..i + 1])[..i] == old(peers[..i]);
      if peers[i].vip.V4? {
        Keep(peers, m, i);
        hasNat := hasNat || peers[m].natType != 0;
        m := m + 1;
      }
    }
    assert old(peers[..peers.Length]) == old(peers[..]);
  }

  method Keep(peers: array<Peer>, m: nat, i: nat)
    requires m <= i < peers.Length
    modifies peers
    ensures peers[m] == old(peers[i])
    ensures peers[..m + 1] == old(peers[..m]) + [old(peers[i])]
    ensures forall j :: m < j < peers.Length ==> peers[j] == old(peers[j])
    ensures HasNat(peers[..m + 1]) <==> HasNat(old(peers[..m])) || old(peers[i]).natType != 0
  {
    ghost var before, p := peers[..m], peers[i];
    peers[m] := peers[i];
    assert peers[..m + 1] == before + [p];
    HasNatSnoc(before, p);
  }

  lemma HasNatSnoc(ps: seq<Peer>, p: Peer)
    ensures HasNat(ps + [p]) <==> HasNat(ps) || p.natType != 0
  {
    if HasNat(ps) {
      var i :| 0 <= i < |ps| && ps[i].natType != 0;
      assert (ps + [p])[i].natType != 0;
    }
    if p.natType != 0 { assert (ps + [p])[|ps|].natType != 0; }
  }

  /** Append a 16-bit length placeholder and the text, then patch the length. */
  method AppendPrefixed(buf: Bytes, s: Bytes) returns (out: Bytes)
    ensures out == buf + Prefixed(s)
  {
    var start := |buf|;
    out := buf + [0, 0];
    out := out + s;
    var n := |out| - start - 2;
    out := out[start := n % 256];
    out := out[start + 1 := n / 256 % 256];
    U16Bytes(n);
  }

  /** Marshal: the bytes of the filtered list; the caller's list is compacted in place. */
  method Marshal(k: AddrCodec, peers: array<Peer>) returns (buf: Bytes)
    modifies peers
    ensures buf == ListBytes(k, old(peers[..]))
    ensures var v := V4Only(old(peers[..]));
            |v| <= peers.Length && peers[..|v|] == v && peers[|v|..] == old(peers[|v|..])
  {
    var m, hasNat := Compact(peers);
    ghost var v := peers[..m];
    buf := [m % 256, m / 256 % 256];
    U16Bytes(m);
    buf := AppendPeers(k, buf, peers, m);
    if hasNat {
      buf := AppendNats(buf, peers, m);
    }
  }

  lemma U16Bytes(n: nat)
    ensures ToLE(n, 2) == [n % 256, n / 256 % 256]
  {
    assert ToLE(n, 2) == [n % 256] + ToLE(n / 256, 1);
    assert ToLE(n / 256, 1) == [n / 256 % 256] + ToLE(n / 256 / 256, 0);
  }

  method AppendPeers(k: AddrCodec, start: Bytes, peers: array<Peer>, m: nat) returns (buf: Bytes)
    requires m <= peers.Length
    ensures buf == start + WriteAll(PeerWriter(k), peers[..m])
  {
    buf := start;
    for i := 0 to m
      invariant buf == start + WriteAll(PeerWriter(k), peers[..i])
    {
      assert peers[..i + 1][..i] == peers[..i];
      Assoc(start, WriteAll(PeerWriter(k), peers[..i]), PeerBytes(k, peers[i]));
      buf := AppendPeer(k, buf, peers[i]);
    }
  }

  method AppendNats(start: Bytes, peers: array<Peer>, m: nat) returns (buf: Bytes)
    requires m <= peers.Length
    ensures buf == start + Nats(peers[..m])
  {
    buf := start;
    for i := 0 to m
      invariant buf == start + Nats(peers[..i])
    {
      assert Nats(peers[..i + 1]) == Nats(peers[..i]) + [peers[i].natType];
      buf := buf + [peers[i].natType];
    }
  }

  method AppendPeer(k: AddrCodec, buf: Bytes, p: Peer) returns (out: Bytes)
    ensures out == buf + PeerBytes(k, p)
  {
    out := buf + VipBytes(p.vip);
    out := AppendPrefixed(out, AddrField(k, p.addr));
    out := AppendPrefixed(out, p.name);
  }

  /** UnmarshalPeerInfo: an offset moves through the bytes. */
  method Unmarshal(k: AddrCodec, data: Bytes) returns (r: Result<seq<Peer>, Error>)
    ensures r == ParseList(k, data)
  {
    if |data| < 2 { return Err(PacketTooShort); }
    var count := FromLE(data[0..2]);
    if count > MAX_PEERS { return Err(Error.TooManyPeers); }
    var peers, off := ReadPeers(k, data, count);
    if peers.None? { return Err(PacketTooShort); }
    if off == |data| {
      assert WithNats(peers.value, []) == peers.value;
      return Ok(peers.value);
    }
    var all := ReadNats(peers.value, data[off..]);
    r := Ok(all);
  }

  method ReadPeers(k: AddrCodec, data: Bytes, count: nat) returns (peers: Option<seq<Peer>>, off: nat)
    requires |data| >= 2
    ensures var whole := ReadMany(PeerReader(k), data[2..], count);
            if peers.None? then whole.None? else off <= |data| && whole == Some((peers.value, data[off..]))
  {
    off := 2;
    var done: seq<Peer> := [];
    ghost var whole := ReadMany(PeerReader(k), data[2..], count);
    ContinueNone(whole);
    for i := 0 to count
      invariant 2 <= off <= |data|
      invariant Remains(k, done, data[off..], count - i, whole)
    {
      var p, next := ReadPeer(k, data, off);
      RemainsStep(k, done, data[off..], count - i, whole);
      if p.None? { return None, off; }
      done := done + [p.value];
      off := next;
    }
    ContinueEnd(PeerReader(k), done, data[off..]);
    peers := Some(done);
  }

  /** What was read so far and what `n` more peers will give make the whole list. */
  ghost predicate Remains(k: AddrCodec, done: seq<Peer>, data: Bytes, n: nat, whole: Option<(seq<Peer>, Bytes)>) {
    Continue(done, ReadMany(PeerReader(k), data, n)) == whole
  }

  lemma RemainsStep(k: AddrCodec, done: seq<Peer>, data: Bytes, n: nat, whole: Option<(seq<Peer>, Bytes)>)
    requires n > 0 && Remains(k, done, data, n, whole)
    ensures var p := ParsePeer(k, data);
            if p.None? then whole.None? else Remains(k, done + [p.value.0], p.value.1, n - 1, whole)
  {
    ContinueStep(PeerReader(k), done, data, n);
    assert PeerReader(k)(data) == ParsePeer(k, data);
  }

  method ReadPeer(k: AddrCodec, data: Bytes, start: nat) returns (p: Option<Peer>, off: nat)
    requires start <= |data|
    ensures p.None? <==> ParsePeer(k, data[start..]).None?
    ensures p.Some? ==> start <= off <= |data| && ParsePeer(k, data[start..]) == Some((p.value, data[off..]))
  {
    off := start;
    ghost var d := data[start..];
    if |data| < off + 4 + 2 { return None, off; }
    var vip := Ip4At(data, off);
    off := off + 4;
    var addrLen := FromLE(data[off..off + 2]);
    assert data[off..off + 2] == d[4..6];
    off := off + 2;
    if |data| < off + addrLen + 2 { return None, off; }
    var addr := k.read(data[off..off + addrLen]);
    assert data[off..off + addrLen] == d[6..6 + addrLen];
    off := off + addrLen;
    var userLen := FromLE(data[off..off + 2]);
    assert data[off..off + 2] == d[6 + addrLen..8 + addrLen];
    off := off + 2;
    if |data| < off + userLen { return None, off; }
    var name := data[off..off + userLen];
    assert name == d[8 + addrLen..8 + addrLen + userLen];
    off := off + userLen;
    assert data[off..] == d[8 + addrLen + userLen..];
    p := Some(Peer(V4(vip), addr, name, 0));
  }

  method ReadNats(peers: seq<Peer>, tail: Bytes) returns (r: seq<Peer>)
    ensures r == WithNats(peers, tail)
  {
    r := peers;
    var i := 0;
    while i < |peers| && i < |tail|
      invariant 0 <= i <= |peers| && i <= |tail| && |r| == |peers|
      invariant forall j :: 0 <= j < |peers| ==> r[j] == if j < i then peers[j].(natType := tail[j]) else peers[j]
    {
      r := r[i := r[i].(natType := tail[i])];
      i := i + 1;
    }
  }
}
