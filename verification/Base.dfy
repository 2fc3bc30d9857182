/** Small shared vocabulary: bytes, optional values and bounds. */
module Base {

  type byte = x: int | 0 <= x < 256

  type Bytes = seq<byte>

  datatype Option<+T> = None | Some(value: T)

  datatype Result<+T, +E> = Ok(value: T) | Err(error: E)

  function Min(x: int, y: int): int { if x <= y then x else y }

  function Max(x: int, y: int): int { if x >= y then x else y }

  /** An IPv4 address, most significant octet first. */
  datatype Ip4 = Ip4(a: byte, b: byte, c: byte, d: byte)

  function Ip4Bytes(v: Ip4): Bytes { [v.a, v.b, v.c, v.d] }

  function Ip4At(data: Bytes, off: nat): Ip4
    requires off + 4 <= |data|
  {
    Ip4(data[off], data[off + 1], data[off + 2], data[off + 3])
  }

  /** A UDP endpoint in normal form: the 16-byte address read as a number, and the port. */
  datatype Addr = Addr(ip: nat, port: int)

  /** The v4-in-v6 form of an IPv4 address. */
  function MappedIp(v: Ip4): nat {
    0xFFFF_0000_0000 + v.a * 0x100_0000 + v.b * 0x1_0000 + v.c * 0x100 + v.d
  }

  const SECOND: int := 1_000_000_000
}
