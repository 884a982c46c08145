/** Octets and the fixed-width unsigned integers of the wire, as subranges of `int`. */
module Octets {

  type Byte = x: int | 0 <= x < 0x100

  type U16 = x: int | 0 <= x < 0x1_0000

  type U32 = x: int | 0 <= x < 0x1_0000_0000

  /** A byte vector that is appended to and patched in place. */
  class Buffer {
    var bytes: seq<Byte>

    constructor ()
      ensures bytes == []
    {
      bytes := [];
    }

    method Push(b: Byte)
      modifies this
      ensures bytes == old(bytes) + [b]
    {
      bytes := bytes + [b];
    }

    method Extend(data: seq<Byte>)
      modifies this
      ensures bytes == old(bytes) + data
    {
      bytes := bytes + data;
    }

    method Patch(at: nat, b: Byte)
      requires at < |bytes|
      modifies this
      ensures bytes == old(bytes)[at := b]
    {
      bytes := bytes[at := b];
    }
  }

  function Min(a: int, b: int): int {
    if a <= b then a else b
  }

  function Max(a: int, b: int): int {
    if a <= b then b else a
  }

  /** Big-endian, two octets. */
  function BytesOfU16(v: U16): seq<Byte> {
    [v / 0x100, v % 0x100]
  }

  function U16OfBytes(hi: Byte, lo: Byte): U16 {
    hi * 0x100 + lo
  }

  /** Big-endian, four octets. */
  function BytesOfU32(v: U32): seq<Byte> {
    BytesOfU16(v / 0x1_0000) + BytesOfU16(v % 0x1_0000)
  }

  function U32OfBytes(a: Byte, b: Byte, c: Byte, d: Byte): U32 {
    U16OfBytes(a, b) * 0x1_0000 + U16OfBytes(c, d)
  }

  /** The next multiple of four, where attributes begin. */
  function Pad4(n: nat): (p: nat)
    ensures n <= p < n + 4 && p % 4 == 0
  {
    (n + 3) / 4 * 4
  }

  function Zeros(n: nat): (z: seq<Byte>)
    ensures |z| == n && forall i :: 0 <= i < n ==> z[i] == 0
  {
    seq(n, _ => 0)
  }
}
