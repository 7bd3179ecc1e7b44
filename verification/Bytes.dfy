/** Little-endian integers in byte strings. */
module Bytes {
  type byte = x: int | 0 <= x < 256

  function Le16(b: seq<byte>, at: nat): (n: nat)
    requires at + 2 <= |b|
    ensures n < 0x1_0000
  {
    b[at] as int + 0x100 * b[at + 1] as int
  }

  function Le32(b: seq<byte>, at: nat): (n: nat)
    requires at + 4 <= |b|
    ensures n < 0x1_0000_0000
  {
    Le16(b, at) + 0x1_0000 * Le16(b, at + 2)
  }

  function PutLe16(n: nat): (b: seq<byte>)
    requires n < 0x1_0000
    ensures |b| == 2 && Le16(b, 0) == n
  {
    [n % 0x100, n / 0x100]
  }

  function PutLe32(n: nat): (b: seq<byte>)
    requires n < 0x1_0000_0000
    ensures |b| == 4 && Le32(b, 0) == n
  {
    PutLe16(n % 0x1_0000) + PutLe16(n / 0x1_0000)
  }

  /** The four bytes of a number determine it, and the other way round. */
  lemma PutLe32OfLe32(b: seq<byte>)
    requires |b| == 4
    ensures PutLe32(Le32(b, 0)) == b
  {
    var low, high := Le16(b, 0), Le16(b, 2);
    assert Le32(b, 0) % 0x1_0000 == low && Le32(b, 0) / 0x1_0000 == high;
    assert low % 0x100 == b[0] && low / 0x100 == b[1];
    assert high % 0x100 == b[2] && high / 0x100 == b[3];
  }
}
