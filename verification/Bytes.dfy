// Bytes as Python handles them.
module Bytes {

  newtype byte = x: int | 0 <= x < 256

  type bytes = seq<byte>

  // data[i:j] for 0 <= i: slices clamp to the length.
  function Slice(data: bytes, i: nat, j: nat): (r: bytes)
  {
    var hi := if j <= |data| then j else |data|;
    if i >= hi then [] else data[i..hi]
  }

  // int.from_bytes(data, "big") for a four-byte field
  function FromBigEndian32(data: bytes): nat
    requires |data| == 4
  {
    0x100_0000 * data[0] as nat + 0x1_0000 * data[1] as nat + 0x100 * data[2] as nat + data[3] as nat
  }

  function BigEndian32(n: nat): (r: bytes)
    requires n < 0x1_0000_0000
    ensures |r| == 4 && FromBigEndian32(r) == n
  {
    var high, low := n / 0x1_0000, n % 0x1_0000;
    [(high / 0x100) as byte, (high % 0x100) as byte, (low / 0x100) as byte, (low % 0x100) as byte]
  }
}
