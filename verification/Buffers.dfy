/** Writing into byte buffers that hold whatever their last user left. */
module Buffers {
  import opened Base

  /** Go's copy into dst[off:], where all of `s` fits. */
  method Copy(dst: array<byte>, off: nat, s: Bytes)
    requires off + |s| <= dst.Length
    modifies dst
    ensures dst[..off] == old(dst[..off])
    ensures dst[..off + |s|] == old(dst[..off]) + s
    ensures dst[off + |s|..] == old(dst[off + |s|..])
  {
    for i := 0 to |s|
      invariant dst[..off] == old(dst[..off])
      invariant dst[off..off + i] == s[..i]
      invariant dst[off + |s|..] == old(dst[off + |s|..])
    {
      dst[off + i] := s[i];
    }
    assert dst[..off + |s|] == dst[..off] + dst[off..off + |s|];
  }
}
