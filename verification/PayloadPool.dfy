/**
 The pooled decoder: UnmarshalDataPooled and PutDataPayload in
 internal/protocol/messages_data.go. Objects come back from the pool with the
 backing arrays, and the bytes in them, of their last use.
 */
module PayloadPool {
  import opened Base
  import opened Buffers
  import opened DataFormat

  /** A payload object; each slice is a backing array and a length. */
  class DataPayload {
    var src: array<byte>
    var srcLen: nat
    var dst: array<byte>
    var dstLen: nat
    var data: array<byte>
    var dataLen: nat
    var formatVer: byte
    var flags: byte
    var token: Bytes

    ghost predicate Valid()
      reads this
    {
      && srcLen <= src.Length && dstLen <= dst.Length && dataLen <= data.Length && |token| == DATA_TOKEN_LEN
      && src != dst && src != data && dst != data
    }

    ghost function Arrays(): set<array<byte>>
      reads this
    {
      {src, dst, data}
    }

    /** What a pooled object is known to look like; its arrays may hold anything. */
    ghost predicate IsReset()
      reads this
    {
      srcLen == 0 && dstLen == 0 && dataLen == 0 && formatVer == 0 && flags == 0 && token == ZERO_TOKEN
    }

    /** The object holds a decoded packet. */
    ghost predicate Holds(d: Data)
      reads this, src, dst, data
    {
      && Valid() && srcLen == 4 && src[..4] == Ip4Bytes(d.src) && dstLen == 4 && dst[..4] == Ip4Bytes(d.dst)
      && formatVer == d.formatVer && flags == d.flags && token == d.token && data[..dataLen] == d.data
    }

    constructor ()
      ensures Valid() && IsReset() && fresh(Arrays())
    {
      src, srcLen := new byte[4], 0;
      dst, dstLen := new byte[4], 0;
      data, dataLen := new byte[0], 0;
      formatVer, flags, token := 0, 0, ZERO_TOKEN;
    }

    method Reset()
      requires Valid()
      modifies this
      ensures Valid() && IsReset() && Arrays() == old(Arrays())
    {
      srcLen, dstLen, dataLen := 0, 0, 0;
      formatVer, flags, token := 0, 0, ZERO_TOKEN;
    }

    /** `if cap < 4 { make } else { [:4] }; copy`, for both addresses. */
    method FillAddresses(bytes: Bytes)
      requires Valid() && |bytes| >= 8
      modifies this`src, this`srcLen, this`dst, this`dstLen, src, dst
      ensures Valid() && fresh(Arrays() - old(Arrays())) && data == old(data)
      ensures srcLen == 4 && src[..4] == bytes[0..4] && dstLen == 4 && dst[..4] == bytes[4..8]
    {
      if src.Length < 4 { src := new byte[4]; }
      srcLen := 4;
      if dst.Length < 4 { dst := new byte[4]; }
      dstLen := 4;
      Copy(src, 0, bytes[0..4]);
      Copy(dst, 0, bytes[4..8]);
    }

    method FillData(raw: Bytes)
      requires Valid()
      modifies this`data, this`dataLen, data
      ensures Valid() && fresh(Arrays() - old(Arrays())) && src == old(src) && dst == old(dst)
      ensures data[..dataLen] == raw
    {
      if data.Length < |raw| { data := new byte[|raw|]; }
      dataLen := |raw|;
      Copy(data, 0, raw);
    }

    /** The body of UnmarshalDataPooled after the pool handed out this object. */
    method Fill(bytes: Bytes) returns (ok: bool)
      requires Valid() && IsReset() && |bytes| >= 8
      modifies this, Arrays()
      ensures Valid() && fresh(Arrays() - old(Arrays()))
      ensures ok <==> UnmarshalData(bytes).Some?
      ensures ok ==> Holds(UnmarshalData(bytes).value)
    {
      FillAddresses(bytes);
      AddressBytes(bytes);
      var off := DataOffset(bytes);
      if off > |bytes| { return false; }
      FillHeader(bytes, off);
      FillData(bytes[off..]);
      ok := true;
    }

    method FillHeader(bytes: Bytes, off: nat)
      requires token == ZERO_TOKEN && |bytes| >= 8 && off == DataOffset(bytes) && off <= |bytes|
      modifies this`flags, this`formatVer, this`token
      ensures var d := UnmarshalData(bytes).value;
              formatVer == d.formatVer && flags == d.flags && token == d.token
    {
      if off != 8 {
        flags, formatVer := bytes[9], bytes[8];
      } else {
        formatVer, flags := 0, 0;
      }
      if HasToken(flags) && |bytes| >= DATA_HEADER_LEN + DATA_TOKEN_LEN {
        token := bytes[DATA_HEADER_LEN..DATA_HEADER_LEN + DATA_TOKEN_LEN];
      }
    }
  }

  lemma AddressBytes(bytes: Bytes)
    requires |bytes| >= 8
    ensures bytes[0..4] == Ip4Bytes(Ip4At(bytes, 0)) && bytes[4..8] == Ip4Bytes(Ip4At(bytes, 4))
  {
  }

  ghost predicate Apart(p: DataPayload, q: DataPayload)
    reads p, q
  {
    p.Arrays() !! q.Arrays()
  }

  class Pool {
    var free: set<DataPayload>
    ghost var live: set<DataPayload>

    ghost predicate Valid()
      reads this, free, live
    {
      && free !! live
      && (forall p :: p in free + live ==> p.Valid())
      && (forall p :: p in free ==> p.IsReset())
      && (forall p, q :: p in free + live && q in free + live && p != q ==> Apart(p, q))
    }

    constructor ()
      ensures Valid() && free == {} && live == {}
    {
      free, live := {}, {};
    }

    /** Get: some free object, or a new one. */
    method Get(pick: Option<DataPayload>) returns (p: DataPayload)
      requires Valid() && (pick.Some? ==> pick.value in free)
      modifies this
      ensures Valid() && p in live && p.IsReset() && live == old(live) + {p} && p !in old(live)
      ensures if pick.Some? then p == pick.value && free == old(free) - {p} else fresh(p) && fresh(p.Arrays()) && free == old(free)
    {
      if pick.Some? {
        p := pick.value;
        free := free - {p};
      } else {
        p := new DataPayload();
      }
      live := live + {p};
    }

    /** PutDataPayload. */
    method Put(p: DataPayload)
      requires Valid() && p in live
      modifies this, p
      ensures Valid() && free == old(free) + {p} && live == old(live) - {p}
    {
      p.Reset();
      free, live := free + {p}, live - {p};
      forall a, b | a in free + live && b in free + live && a != b ensures Apart(a, b) {
        assert old(Apart(a, b));
      }
    }

    /** Filling one object leaves the pool in order and every other live object alone. */
    method FillLive(p: DataPayload, bytes: Bytes) returns (ok: bool)
      requires Valid() && p in live && p.IsReset() && |bytes| >= 8
      modifies p, p.Arrays()
      ensures Valid()
      ensures ok <==> UnmarshalData(bytes).Some?
      ensures ok ==> p.Holds(UnmarshalData(bytes).value)
      ensures forall q, d :: q in live && q != p && old(q.Holds(d)) ==> q.Holds(d)
    {
      ok := p.Fill(bytes);
      forall q, d | q in live && q != p && old(q.Holds(d)) ensures q.Holds(d) {
        assert old(Apart(p, q));
      }
      forall q | q in free + live && q != p ensures Apart(p, q) {
        assert old(Apart(p, q));
      }
    }

    /** UnmarshalDataPooled: for every history of the pool it decodes as UnmarshalData does,
        and touches no object that is in use. */
    method Unmarshal(bytes: Bytes, pick: Option<DataPayload>) returns (r: Option<DataPayload>)
      requires Valid() && (pick.Some? ==> pick.value in free)
      modifies this, PickedObjects(pick), PickedArrays(pick)
      ensures Valid()
      ensures r.Some? <==> UnmarshalData(bytes).Some?
      ensures r.Some? ==> live == old(live) + {r.value} && r.value !in old(live) && r.value.Holds(UnmarshalData(bytes).value)
      ensures r.None? ==> live == old(live)
      ensures forall p, d :: p in old(live) && old(p.Holds(d)) ==> p.Holds(d)
    {
      if |bytes| < 8 { return None; }
      var p := Get(pick);
      var ok := FillLive(p, bytes);
      if !ok {
        Put(p);
        return None;
      }
      r := Some(p);
    }
  }

  ghost function PickedObjects(pick: Option<DataPayload>): set<DataPayload> { if pick.Some? then {pick.value} else {} }

  ghost function PickedArrays(pick: Option<DataPayload>): set<array<byte>>
    reads PickedObjects(pick)
  {
    if pick.Some? then pick.value.Arrays() else {}
  }
}
