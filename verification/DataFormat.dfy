/** The header of a relayed data packet: internal/protocol/messages_data.go. */
module DataFormat {
  import opened Base

  const DATA_FORMAT_VERSION: byte := 1
  const DATA_HEADER_LEN := 10
  const DATA_TOKEN_LEN := 16

  const ZERO_TOKEN: Bytes := [0, 0, 0, 0, 0, 0, 0, 0, 0, 0, 0, 0, 0, 0, 0, 0]

  /** Bit 1 of the flags byte: a 16-byte session token follows. */
  predicate HasToken(flags: byte) { flags / 2 % 2 == 1 }

  function WithToken(flags: byte): byte { if HasToken(flags) then flags else flags + 2 }

  datatype Header = Header(flags: byte, tokenOff: nat, isNew: bool)

  function ParseDataHeader(data: Bytes): Header {
    if |data| <= 8 then Header(0, 0, false)
    else if data[8] == DATA_FORMAT_VERSION then
      Header(if |data| > 9 then data[9] else 0, DATA_HEADER_LEN, true)
    else Header(data[8], 9, false)
  }

  /** A relayed packet; `token` has 16 bytes, all zero when no token was sent. */
  datatype Data = Data(src: Ip4, dst: Ip4, formatVer: byte, flags: byte, token: Bytes, data: Bytes)

  function MarshalHead(src: Ip4, dst: Ip4, flags: byte, token: Bytes): Bytes {
    Ip4Bytes(src) + Ip4Bytes(dst) + [DATA_FORMAT_VERSION, flags] + if HasToken(flags) then token else []
  }

  /** Marshal always writes the current format, whatever FormatVer says. */
  function Marshal(d: Data): Bytes { MarshalHead(d.src, d.dst, d.flags, d.token) + d.data }

  function DataOffset(data: Bytes): nat {
    if |data| > 8 && data[8] == DATA_FORMAT_VERSION
    then DATA_HEADER_LEN + if |data| > 9 && HasToken(data[9]) then DATA_TOKEN_LEN else 0
    else 8
  }

  function UnmarshalData(data: Bytes): (r: Option<Data>)
    ensures r.Some? ==> |r.value.token| == DATA_TOKEN_LEN
  {
    if |data| < 8 || DataOffset(data) > |data| then None
    else
      var off := DataOffset(data);
      var flags := if off != 8 then data[9] else 0;
      Some(Data(Ip4At(data, 0), Ip4At(data, 4), if off != 8 then data[8] else 0, flags,
                if HasToken(flags) && |data| >= DATA_HEADER_LEN + DATA_TOKEN_LEN
                then data[DATA_HEADER_LEN..DATA_HEADER_LEN + DATA_TOKEN_LEN] else ZERO_TOKEN,
                data[off..]))
  }

  /** Values that Marshal writes in full. */
  predicate Canonical(d: Data) {
    d.formatVer == DATA_FORMAT_VERSION && |d.token| == DATA_TOKEN_LEN && (!HasToken(d.flags) ==> d.token == ZERO_TOKEN)
  }

  /** Reading undoes writing, and a packet of the current format is what its reading writes. */
  lemma UnmarshalUndoesMarshal(d: Data)
    requires Canonical(d)
    ensures UnmarshalData(Marshal(d)) == Some(d)
  {
    var m := Marshal(d);
    assert m[8] == DATA_FORMAT_VERSION && m[9] == d.flags;
    assert m[DataOffset(m)..] == d.data;
    if HasToken(d.flags) { assert m[10..26] == d.token; }
  }

  lemma MarshalUndoesUnmarshal(data: Bytes)
    requires UnmarshalData(data).Some? && UnmarshalData(data).value.formatVer == DATA_FORMAT_VERSION
    ensures Canonical(UnmarshalData(data).value) && Marshal(UnmarshalData(data).value) == data
  {
    var off := DataOffset(data);
    if off == 26 { assert data == data[..4] + data[4..8] + data[8..10] + data[10..26] + data[26..]; }
    else { assert data == data[..4] + data[4..8] + data[8..10] + data[10..]; }
  }
}
