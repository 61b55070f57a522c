/** Bytes, and numbers written with the most significant byte first. */
module Bytes {
  import opened Subsequences

  newtype byte = x: int | 0 <= x < 256

  /** How many numbers fit into `width` bytes. */
  function Range(width: nat): (r: nat)
    ensures r > 0
  {
    if width == 0 then 1 else 256 * Range(width - 1)
  }

  lemma RangeValues()
    ensures Range(1) == 0x100 && Range(4) == 0x1_0000_0000 && Range(8) == 0x1_0000_0000_0000_0000
  {
    assert Range(1) == 256 && Range(2) == 0x1_0000 && Range(3) == 0x100_0000;
    assert Range(5) == 0x100_0000_0000 && Range(6) == 0x1_0000_0000_0000 && Range(7) == 0x100_0000_0000_0000;
  }

  /** `n.to_bytes(width, "big")` for a number in range. */
  function BigEndian(n: nat, width: nat): seq<byte> {
    if width == 0 then [] else BigEndian(n / 256, width - 1) + [(n % 256) as byte]
  }

  /** `int.from_bytes(data, "big")`. */
  function FromBytes(data: seq<byte>): nat {
    if data == [] then 0 else FromBytes(DropLast(data)) * 256 + Last(data) as nat
  }

  lemma {:induction false} BigEndianReads(n: nat, width: nat)
    requires n < Range(width)
    ensures |BigEndian(n, width)| == width && FromBytes(BigEndian(n, width)) == n
  {
    if width > 0 {
      BigEndianReads(n / 256, width - 1);
      assert DropLast(BigEndian(n, width)) == BigEndian(n / 256, width - 1);
    }
  }

  /** Every sequence of bytes is the number it reads as, in as many bytes. */
  lemma {:induction false} FromBytesWrites(data: seq<byte>)
    ensures FromBytes(data) < Range(|data|) && BigEndian(FromBytes(data), |data|) == data
  {
    if data != [] {
      FromBytesWrites(DropLast(data));
      assert data == DropLast(data) + [Last(data)];
    }
  }
}
