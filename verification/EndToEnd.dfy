/** A game packet from one member of a room to another, through all the code on its way. */
module EndToEnd {
  import opened Base
  import opened DataFormat
  import opened Protocol
  import opened ReplayWindow
  import opened DataPath
  import opened RoomModel
  import opened RoomInvariant
  import opened RoomTheorems

  /** The client mapped at `from` is the member holding `src`, and sends its own token or none. */
  ghost predicate SendsAs(s: RoomState, from: Addr, src: Ip4, token: Bytes) {
    && from in s.addrMap && src in s.clients && s.clients[src] == s.addrMap[from] && s.addrMap[from] in s.store
    && |token| == DATA_TOKEN_LEN && (token == ZERO_TOKEN || token == s.store[s.addrMap[from]].token)
  }

  lemma BuiltTokenAccepted(c: Client, src: Ip4, dst: Ip4, token: Bytes, body: Bytes)
    requires |token| == DATA_TOKEN_LEN && (token == ZERO_TOKEN || token == c.token)
    ensures TokenAccepted(c, Marshal(Sent(src, dst, 0, token, body)))
  {
    var m := Marshal(Sent(src, dst, 0, token, body));
    assert m[8] == DATA_FORMAT_VERSION && m[9] == SentFlags(0, token);
    if token != ZERO_TOKEN { assert m[10..26] == token; }
  }

  /** Whatever a member's packet builder wraps, the room forwards unchanged to exactly the targets of its destination. */
  lemma BuiltPacketIsForwarded(s: RoomState, from: Addr, src: Ip4, dst: Ip4, token: Bytes, body: Bytes, now: int)
    requires Inv(s) && SendsAs(s, from, src, token)
    ensures var payload := Marshal(Sent(src, dst, 0, token, body));
            var to := Targets(s, s.addrMap[from], dst);
            Relay(s, payload, from, now) == (s, if to == {} then Silent else Forward(src, to, payload))
  {
    var payload := Marshal(Sent(src, dst, 0, token, body));
    assert Ip4At(payload, 0) == src && Ip4At(payload, 4) == dst;
    BuiltTokenAccepted(s.store[s.addrMap[from]], src, dst, token, body);
    MemberIsRelayed(s, payload, from, now);
  }

  /** Main theorem, room without password: an addressed member gets the bytes that were sent to it. */
  lemma PlainPacketArrives(s: RoomState, crc: Crc, open: Open, from: Addr, src: Ip4, dst: Ip4, token: Bytes, data: Bytes, now: int)
    requires Inv(s) && SendsAs(s, from, src, token) && data != []
    requires Addressed(s, dst) && !IsRelayTarget(dst, s.cfg.net)
    ensures var payload := Marshal(Sent(src, dst, 0, token, data));
            var wire := EncodeChecked(crc, TYPE_DATA, payload);
            && ServerDecode(crc, false, wire) == Some(Message(TYPE_DATA, payload))
            && Relay(s, payload, from, now) == (s, Forward(src, {dst}, payload))
            && ClientDecode(crc, false, RelayEncode(crc, false, TYPE_DATA, payload)) == Some(Message(TYPE_DATA, payload))
            && Received(open, None, payload) == Some(data)
  {
    PlainDelivery(crc, open, src, dst, token, data);
    BuiltPacketIsForwarded(s, from, src, dst, token, data, now);
    assert Targets(s, s.addrMap[from], dst) == {dst};
  }

  /** Main theorem, room with password: the same, through seal and open, exactly when the window admits the counter. */
  lemma EncryptedPacketArrives(s: RoomState, crc: Crc, seal: Seal, open: Open, from: Addr, src: Ip4, dst: Ip4, token: Bytes,
                               data: Bytes, ctr: nat, dirTag: Bytes, seen: set<nat>, now: int)
    requires Inv(s) && SendsAs(s, from, src, token)
    requires IsAead(seal, open) && ctr < UINT64 && |dirTag| == 4
    requires Addressed(s, dst) && !IsRelayTarget(dst, s.cfg.net)
    ensures var payload := Marshal(Sent(src, dst, 0, token, Sealed(seal, Nonce(ctr, dirTag), data)));
            && ServerDecode(crc, true, Encode(TYPE_DATA, payload)) == Some(Message(TYPE_DATA, payload))
            && Relay(s, payload, from, now) == (s, Forward(src, {dst}, payload))
            && ClientDecode(crc, true, RelayEncode(crc, true, TYPE_DATA, payload)) == Some(Message(TYPE_DATA, payload))
            && Received(open, Some(seen), payload) == if IsFresh(seen, ctr) then Some(data) else None
  {
    EncryptedDelivery(crc, seal, open, src, dst, token, data, ctr, dirTag, seen);
    BuiltPacketIsForwarded(s, from, src, dst, token, Sealed(seal, Nonce(ctr, dirTag), data), now);
    assert Targets(s, s.addrMap[from], dst) == {dst};
  }
}
