/**
 The outer wire format: internal/protocol/protocol.go, and which decoder the
 server (internal/server/server.go) and the client (internal/client/recv.go) use.
 */
module Protocol {
  import opened Base
  import opened LittleEndian

  const PROTOCOL_VERSION: byte := 1
  const HEADER_LEN := 2
  const CHECKSUM_LEN := 4

  const TYPE_REGISTER: byte := 0x01
  const TYPE_PEER_INFO: byte := 0x03
  const TYPE_DATA: byte := 0x06
  const TYPE_AUTH_RESPONSE: byte := 0x09
  const TYPE_NAT_PROBE: byte := 0x0E
  const TYPE_REBIND: byte := 0x10

  datatype Error = PacketTooShort | UnsupportedVersion | ChecksumMismatch | TooManyPeers

  datatype Message = Message(typ: byte, payload: Bytes)

  type uint32 = x: int | 0 <= x < 0x1_0000_0000

  /** CRC32 stays an arbitrary function of the bytes. */
  type Crc = Bytes -> uint32

  function Encode(typ: byte, payload: Bytes): Bytes { [PROTOCOL_VERSION, typ] + payload }

  function EncodeChecked(crc: Crc, typ: byte, payload: Bytes): Bytes {
    Encode(typ, payload) + ToLE(crc(Encode(typ, payload)), CHECKSUM_LEN)
  }

  function Decode(data: Bytes): Result<Message, Error> {
    if |data| < HEADER_LEN then Err(PacketTooShort)
    else if data[0] != PROTOCOL_VERSION then Err(UnsupportedVersion)
    else Ok(Message(data[1], data[HEADER_LEN..]))
  }

  function VerifyChecksum(crc: Crc, data: Bytes): Result<Bytes, Error> {
    if |data| < HEADER_LEN + CHECKSUM_LEN then Err(PacketTooShort)
    else
      var n := |data| - CHECKSUM_LEN;
      if crc(data[..n]) != FromLE(data[n..]) then Err(ChecksumMismatch) else Ok(data[..n])
  }

  function DecodeChecked(crc: Crc, data: Bytes): Result<Message, Error> {
    var body := VerifyChecksum(crc, data);
    if body.Err? then Err(body.error) else Decode(body.value)
  }

  /** Decoding accepts exactly what encoding produces, and returns what went in. */
  lemma DecodeIffEncoded(data: Bytes, m: Message)
    ensures Decode(data) == Ok(m) <==> data == Encode(m.typ, m.payload)
  {
    if Decode(data) == Ok(m) { assert data == [data[0], data[1]] + data[2..]; }
    if data == Encode(m.typ, m.payload) { assert data[2..] == m.payload; }
  }

  lemma ChecksumReadsBack(x: uint32)
    ensures FromLE(ToLE(x, CHECKSUM_LEN)) == x
  {
    FromToLE(x, CHECKSUM_LEN);
    assert Pow256(CHECKSUM_LEN) == 0x1_0000_0000;
  }

  lemma ChecksumBytes(bs: Bytes, x: uint32)
    requires |bs| == CHECKSUM_LEN && FromLE(bs) == x
    ensures bs == ToLE(x, CHECKSUM_LEN)
  {
    ToFromLE(bs);
  }

  /** The same with the checksum. */
  lemma DecodeCheckedIffEncoded(crc: Crc, data: Bytes, m: Message)
    ensures DecodeChecked(crc, data) == Ok(m) <==> data == EncodeChecked(crc, m.typ, m.payload)
  {
    var body := Encode(m.typ, m.payload);
    if DecodeChecked(crc, data) == Ok(m) {
      var n := |data| - CHECKSUM_LEN;
      DecodeIffEncoded(data[..n], m);
      ChecksumBytes(data[n..], crc(body));
      assert data == data[..n] + data[n..];
    }
    if data == EncodeChecked(crc, m.typ, m.payload) {
      var n := |data| - CHECKSUM_LEN;
      assert data[..n] == body && data[n..] == ToLE(crc(body), CHECKSUM_LEN);
      ChecksumReadsBack(crc(body));
      DecodeIffEncoded(body, m);
    }
  }

  // ── Which decode is used ───────────────────────────────────────

  predicate IsPreAuth(typ: byte) {
    typ == TYPE_REGISTER || typ == TYPE_NAT_PROBE || typ == TYPE_AUTH_RESPONSE || typ == TYPE_REBIND
  }

  /** handlePacket: an encrypted server skips the checksum, except for messages before authentication. */
  function ServerDecode(crc: Crc, encrypted: bool, data: Bytes): Option<Message> {
    var m := if encrypted then Decode(data) else DecodeChecked(crc, data);
    if m.Err? then None
    else if encrypted && IsPreAuth(m.value.typ) && VerifyChecksum(crc, data).Err? then None
    else Some(m.value)
  }

  /** receiveFromServer. */
  function ClientDecode(crc: Crc, encrypted: bool, data: Bytes): Option<Message> {
    var m := if encrypted then Decode(data) else DecodeChecked(crc, data);
    if m.Err? then None else Some(m.value)
  }

  /** How handleRelay wraps what it forwards. */
  function RelayEncode(crc: Crc, encrypted: bool, typ: byte, payload: Bytes): Bytes {
    if encrypted then Encode(typ, payload) else EncodeChecked(crc, typ, payload)
  }

  /** What a sender wraps for the relay is what the server reads, and likewise from server to receiver. */
  lemma HopKeepsMessage(crc: Crc, encrypted: bool, payload: Bytes)
    ensures var wire := RelayEncode(crc, encrypted, TYPE_DATA, payload);
            && ServerDecode(crc, encrypted, wire) == Some(Message(TYPE_DATA, payload))
            && ClientDecode(crc, encrypted, wire) == Some(Message(TYPE_DATA, payload))
  {
    var wire := RelayEncode(crc, encrypted, TYPE_DATA, payload);
    DecodeIffEncoded(wire, Message(TYPE_DATA, payload));
    DecodeCheckedIffEncoded(crc, wire, Message(TYPE_DATA, payload));
  }
}
