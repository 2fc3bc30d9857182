/**
 The path of a game packet: the client's packet builders (internal/client/route.go),
 the cipher around them (internal/crypto/crypto.go), the relay, and the receiver.
 */
module DataPath {
  import opened Base
  import opened LittleEndian
  import opened Protocol
  import opened DataFormat
  import opened Buffers
  import opened ReplayWindow

  const ENC_VERSION: byte := 1
  const NONCE_SIZE := 12
  const TAG_SIZE := 16
  const OVERHEAD := 29

  // ── An abstract AEAD ───────────────────────────────────────────

  type Seal = (Bytes, Bytes) -> Bytes
  type Open = (Bytes, Bytes) -> Option<Bytes>

  /** All that is assumed: opening a sealed text under its nonce returns it, and the tag has 16 bytes. */
  ghost predicate IsAead(seal: Seal, open: Open) {
    forall nonce, plain :: open(nonce, seal(nonce, plain)) == Some(plain) && |seal(nonce, plain)| == |plain| + TAG_SIZE
  }

  function Sealed(seal: Seal, nonce: Bytes, plain: Bytes): Bytes { [ENC_VERSION] + nonce + seal(nonce, plain) }

  predicate IsEncrypted(data: Bytes) { |data| > 0 && data[0] == ENC_VERSION }

  /** EncryptTo: append version, nonce and ciphertext after the first `off` bytes of the buffer; a
      nil plaintext appends nothing and uses no nonce. */
  method EncryptTo(source: NonceSource, seal: Seal, ghost open: Open, dst: array<byte>, off: nat, plain: Option<Bytes>)
      returns (n: Option<nat>)
    requires source.Valid() && |source.dirTag| == 4 && IsAead(seal, open) && off <= dst.Length
    modifies source, dst
    ensures source.Valid() && source.start == old(source.start)
    ensures plain.None? ==> n == Some(off) && source.sent == old(source.sent) && dst[..] == old(dst[..])
    ensures plain.Some? ==> (n.Some? <==> dst.Length - off >= OVERHEAD + |plain.value|)
    ensures n.None? ==> source.sent == old(source.sent) && dst[..] == old(dst[..])
    ensures plain.Some? && n.Some? ==> source.sent == old(source.sent) + 1 && n.value == off + OVERHEAD + |plain.value|
    ensures plain.Some? && n.Some? ==>
              dst[..n.value] == old(dst[..off]) + Sealed(seal, Nonce(CounterAt(source.start, old(source.sent)), source.dirTag), plain.value)
  {
    if plain.None? { return Some(off); }
    if dst.Length - off < OVERHEAD + |plain.value| { return None; }
    var nonce := source.MakeNonce();
    var text := seal(nonce, plain.value);
    assert |text| == |plain.value| + TAG_SIZE && |nonce| == NONCE_SIZE;
    AppendParts(dst, off, nonce, text);
    n := Some(off + OVERHEAD + |plain.value|);
  }

  method AppendParts(dst: array<byte>, off: nat, nonce: Bytes, text: Bytes)
    requires off + 1 + |nonce| + |text| <= dst.Length
    modifies dst
    ensures dst[..off + 1 + |nonce| + |text|] == old(dst[..off]) + ([ENC_VERSION] + nonce + text)
  {
    Copy(dst, off, [ENC_VERSION]);
    Copy(dst, off + 1, nonce);
    Copy(dst, off + 1 + |nonce|, text);
  }

  /** What DecryptInto returns, and the counters it then counts as seen. */
  ghost function Opened(open: Open, seen: set<nat>, data: Bytes): (Option<Bytes>, set<nat>) {
    if |data| < OVERHEAD || data[0] != ENC_VERSION then (None, seen)
    else
      var ctr := FromLE(data[1..9]);
      (if IsFresh(seen, ctr) then open(data[1..13], data[13..]) else None, Admit(seen, ctr))
  }

  /** DecryptInto: the window is updated before the text is opened. */
  method DecryptInto(window: Window, open: Open, data: Bytes) returns (plain: Option<Bytes>)
    requires window.Valid()
    modifies window
    ensures window.Valid()
    ensures (plain, window.seen) == Opened(open, old(window.seen), data)
  {
    if |data| < OVERHEAD || data[0] != ENC_VERSION { return None; }
    var nonce := data[1..13];
    assert nonce[0..8] == data[1..9];
    ToFromLE(nonce[0..8]);
    Pow256Eight();
    var ok := window.Check(FromLE(nonce[0..8]));
    if !ok { return None; }
    plain := open(nonce, data[13..]);
  }

  /** A sealed packet opens to its plaintext exactly when the window admits its counter, if no other text opens. */
  lemma OpenUndoesSeal(seal: Seal, open: Open, seen: set<nat>, ctr: nat, dirTag: Bytes, plain: Bytes)
    requires IsAead(seal, open) && ctr < UINT64 && |dirTag| == 4
    ensures Opened(open, seen, Sealed(seal, Nonce(ctr, dirTag), plain))
         == (if IsFresh(seen, ctr) then Some(plain) else None, Admit(seen, ctr))
  {
    var nonce := Nonce(ctr, dirTag);
    var data := Sealed(seal, nonce, plain);
    assert |seal(nonce, plain)| == |plain| + TAG_SIZE;
    assert data[1..13] == nonce && data[13..] == seal(nonce, plain) && data[1..9] == nonce[0..8];
    CounterOfNonce(ctr, dirTag);
  }

  // ── The builders ───────────────────────────────────────────────

  /** A token that is not all zero sets its flag. */
  function SentFlags(flags: byte, token: Bytes): byte { if token != ZERO_TOKEN then WithToken(flags) else flags }

  /** A token flag comes with a token. Otherwise buildDataPacket, which counts no room for one,
      slices past the end of its packet and panics. */
  predicate FlagsOk(flags: byte, token: Bytes) { |token| == DATA_TOKEN_LEN && (HasToken(flags) ==> token != ZERO_TOKEN) }

  function Sent(src: Ip4, dst: Ip4, flags: byte, token: Bytes, data: Bytes): Data {
    Data(src, dst, DATA_FORMAT_VERSION, SentFlags(flags, token), token, data)
  }

  lemma SentIsCanonical(src: Ip4, dst: Ip4, flags: byte, token: Bytes, data: Bytes)
    requires FlagsOk(flags, token)
    ensures Canonical(Sent(src, dst, flags, token, data))
    ensures HasToken(SentFlags(flags, token)) <==> token != ZERO_TOKEN
  {
  }

  function TokenLen(token: Bytes): nat { if token != ZERO_TOKEN then DATA_TOKEN_LEN else 0 }

  /** Where buildDataHeader stops: the flag decides, also for an all-zero token. */
  function HeadLen(flags: byte, token: Bytes): nat {
    HEADER_LEN + DATA_HEADER_LEN + if HasToken(SentFlags(flags, token)) then DATA_TOKEN_LEN else 0
  }

  /** buildDataHeader. */
  method BuildDataHeader(buf: array<byte>, src: Ip4, dst: Ip4, flags0: byte, token: Bytes) returns (off: nat)
    requires |token| == DATA_TOKEN_LEN && buf.Length >= HeadLen(flags0, token)
    modifies buf
    ensures off == HeadLen(flags0, token)
    ensures buf[..off] == Encode(TYPE_DATA, MarshalHead(src, dst, SentFlags(flags0, token), token))
  {
    var flags := flags0;
    if token != ZERO_TOKEN { flags := WithToken(flags); }
    Copy(buf, 0, [PROTOCOL_VERSION, TYPE_DATA]);
    Copy(buf, 2, Ip4Bytes(src));
    Copy(buf, 6, Ip4Bytes(dst));
    Copy(buf, 10, [DATA_FORMAT_VERSION]);
    Copy(buf, 11, [flags]);
    off := 12;
    ghost var head := [PROTOCOL_VERSION, TYPE_DATA] + (Ip4Bytes(src) + Ip4Bytes(dst) + [DATA_FORMAT_VERSION, flags]);
    assert buf[..off] == head;
    if HasToken(flags) {
      Copy(buf, off, token);
      off := off + DATA_TOKEN_LEN;
    }
  }

  lemma HeadThenData(d: Data)
    ensures Encode(TYPE_DATA, MarshalHead(d.src, d.dst, d.flags, d.token)) + d.data == Encode(TYPE_DATA, Marshal(d))
  {
  }

  /** buildDataPacket, in a pooled buffer: the checked encoding of the marshalled payload, byte for byte. */
  method BuildDataPacket(crc: Crc, buf: array<byte>, src: Ip4, dst: Ip4, data: Bytes, flags: byte, token: Bytes) returns (out: Bytes)
    requires FlagsOk(flags, token)
    requires buf.Length >= HEADER_LEN + DATA_HEADER_LEN + TokenLen(token) + |data| + CHECKSUM_LEN
    modifies buf
    ensures out == EncodeChecked(crc, TYPE_DATA, Marshal(Sent(src, dst, flags, token, data)))
  {
    var size := HEADER_LEN + DATA_HEADER_LEN + TokenLen(token) + |data| + CHECKSUM_LEN;
    var off := BuildDataHeader(buf, src, dst, flags, token);
    Copy(buf, off, data);
    off := off + |data|;
    HeadThenData(Sent(src, dst, flags, token, data));
    var sum := crc(buf[..off]);
    Copy(buf, off, ToLE(sum, CHECKSUM_LEN));
    out := buf[..size];
  }

  /** buildEncryptedDataPacket: the same around the sealed packet, without the checksum. The buffer
      has room for what the packet was sized for; a token flag with an all-zero token takes 16 bytes
      more, and the result is nil when the buffer's spare capacity does not hold them. */
  method BuildEncryptedDataPacket(buf: array<byte>, src: Ip4, dst: Ip4, pkt: Bytes, source: NonceSource, seal: Seal, ghost open: Open,
                                  flags: byte, token: Bytes) returns (out: Option<Bytes>)
    requires |token| == DATA_TOKEN_LEN && source.Valid() && |source.dirTag| == 4 && IsAead(seal, open)
    requires buf.Length >= HEADER_LEN + DATA_HEADER_LEN + TokenLen(token) + OVERHEAD + |pkt|
    modifies buf, source
    ensures source.Valid() && source.start == old(source.start)
    ensures out.Some? <==> buf.Length >= HeadLen(flags, token) + OVERHEAD + |pkt|
    ensures FlagsOk(flags, token) ==> out.Some?
    ensures source.sent == old(source.sent) + if out.Some? then 1 else 0
    ensures var sealed := Sealed(seal, Nonce(CounterAt(source.start, old(source.sent)), source.dirTag), pkt);
            out.Some? ==> out.value == Encode(TYPE_DATA, Marshal(Sent(src, dst, flags, token, sealed)))
  {
    var off := BuildDataHeader(buf, src, dst, flags, token);
    var n := EncryptTo(source, seal, open, buf, off, Some(pkt));
    if n.None? { return None; }
    out := Some(buf[..n.value]);
    HeadThenData(Sent(src, dst, flags, token, Sealed(seal, Nonce(CounterAt(source.start, old(source.sent)), source.dirTag), pkt)));
  }

  // ── The receiver ───────────────────────────────────────────────

  /** What handleDataFromServer and decryptWriteAndRelease hand to the TUN device, before any
      broadcast rewriting; `seen` are the counters admitted before, None stands for no cipher. */
  ghost function Received(open: Open, seen: Option<set<nat>>, payload: Bytes): Option<Bytes> {
    var dp := UnmarshalData(payload);
    if dp.None? || dp.value.data == [] then None
    else if seen.Some? && IsEncrypted(dp.value.data) then Opened(open, seen.value, dp.value.data).0
    else Some(dp.value.data)
  }

  /** Unencrypted room: sender, server and receiver, each through its own codec, deliver the same bytes. */
  lemma PlainDelivery(crc: Crc, open: Open, src: Ip4, dst: Ip4, token: Bytes, data: Bytes)
    requires |token| == DATA_TOKEN_LEN && data != []
    ensures var payload := Marshal(Sent(src, dst, 0, token, data));
            var wire := EncodeChecked(crc, TYPE_DATA, payload);
            && ServerDecode(crc, false, wire) == Some(Message(TYPE_DATA, payload))
            && ClientDecode(crc, false, RelayEncode(crc, false, TYPE_DATA, payload)) == Some(Message(TYPE_DATA, payload))
            && Received(open, None, payload) == Some(data)
  {
    var d := Sent(src, dst, 0, token, data);
    HopKeepsMessage(crc, false, Marshal(d));
    SentIsCanonical(src, dst, 0, token, data);
    UnmarshalUndoesMarshal(d);
  }

  /** Passworded room: the receiver gets the plaintext exactly when its window admits the counter. */
  lemma EncryptedDelivery(crc: Crc, seal: Seal, open: Open, src: Ip4, dst: Ip4, token: Bytes, data: Bytes,
                          ctr: nat, dirTag: Bytes, seen: set<nat>)
    requires |token| == DATA_TOKEN_LEN && IsAead(seal, open) && ctr < UINT64 && |dirTag| == 4
    ensures var payload := Marshal(Sent(src, dst, 0, token, Sealed(seal, Nonce(ctr, dirTag), data)));
            var wire := Encode(TYPE_DATA, payload);
            && ServerDecode(crc, true, wire) == Some(Message(TYPE_DATA, payload))
            && ClientDecode(crc, true, RelayEncode(crc, true, TYPE_DATA, payload)) == Some(Message(TYPE_DATA, payload))
            && Received(open, Some(seen), payload) == if IsFresh(seen, ctr) then Some(data) else None
  {
    var sealed := Sealed(seal, Nonce(ctr, dirTag), data);
    var d := Sent(src, dst, 0, token, sealed);
    HopKeepsMessage(crc, true, Marshal(d));
    SentIsCanonical(src, dst, 0, token, sealed);
    UnmarshalUndoesMarshal(d);
    OpenUndoesSeal(seal, open, seen, ctr, dirTag, data);
  }
}
