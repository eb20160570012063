// Bytes and the fixed-width integer encodings the byte formats use: big-endian
// (`to_be_bytes`, `write_u16`) and little-endian (`to_le_bytes`).

module Bytes {

  newtype byte = x: int | 0 <= x < 256

  /** The ranges of `u32` and `u64`. */
  const U32Limit: nat := 0x1_0000_0000
  const U64Limit: nat := 0x1_0000_0000_0000_0000

  function Pow256(n: nat): (r: nat)
    ensures r >= 1
  {
    if n == 0 then 1 else 256 * Pow256(n - 1)
  }

  /** The ranges of 2-, 4- and 8-byte integers. */
  lemma Pow256Widths()
    ensures Pow256(2) == 0x1_0000 && Pow256(4) == 0x1_0000_0000 && Pow256(8) == 0x1_0000_0000_0000_0000
  {
    assert Pow256(2) == 0x1_0000;
    assert Pow256(4) == 256 * 256 * Pow256(2);
    assert Pow256(8) == 256 * 256 * 256 * 256 * Pow256(4);
  }

  /** The `width` bytes of `v`, most significant first. */
  function BigEndian(v: nat, width: nat): (r: seq<byte>)
    requires v < Pow256(width)
    ensures |r| == width
  {
    if width == 0 then []
    else BigEndian(v / 256, width - 1) + [(v % 256) as byte]
  }

  /** The value of bytes read most significant first. */
  function BigEndianValue(b: seq<byte>): (r: nat)
    ensures r < Pow256(|b|)
  {
    if |b| == 0 then 0 else BigEndianValue(b[..|b| - 1]) * 256 + b[|b| - 1] as nat
  }

  /** The `width` bytes of `v`, least significant first. */
  function LittleEndian(v: nat, width: nat): (r: seq<byte>)
    requires v < Pow256(width)
    ensures |r| == width
  {
    if width == 0 then []
    else [(v % 256) as byte] + LittleEndian(v / 256, width - 1)
  }

  /** The value of bytes read least significant first. */
  function LittleEndianValue(b: seq<byte>): (r: nat)
    ensures r < Pow256(|b|)
  {
    if |b| == 0 then 0 else b[0] as nat + 256 * LittleEndianValue(b[1..])
  }

  lemma {:induction false} BigEndianRoundTrip(v: nat, width: nat)
    requires v < Pow256(width)
    ensures BigEndianValue(BigEndian(v, width)) == v
    decreases width
  {
    if width > 0 {
      var r := BigEndian(v, width);
      assert r[..width - 1] == BigEndian(v / 256, width - 1);
      BigEndianRoundTrip(v / 256, width - 1);
    }
  }

  lemma {:induction false} LittleEndianRoundTrip(v: nat, width: nat)
    requires v < Pow256(width)
    ensures LittleEndianValue(LittleEndian(v, width)) == v
    decreases width
  {
    if width > 0 {
      var r := LittleEndian(v, width);
      assert r[1..] == LittleEndian(v / 256, width - 1);
      LittleEndianRoundTrip(v / 256, width - 1);
    }
  }

  /** The little-endian bytes are the big-endian bytes reversed. */
  lemma {:induction false} LittleIsReversedBig(v: nat, width: nat)
    requires v < Pow256(width)
    ensures forall i | 0 <= i < width :: LittleEndian(v, width)[i] == BigEndian(v, width)[width - 1 - i]
    decreases width
  {
    if width > 0 {
      LittleIsReversedBig(v / 256, width - 1);
    }
  }

  /** Zero is all zero bytes in any width. */
  lemma {:induction false} BigEndianZero(width: nat)
    ensures forall i | 0 <= i < width :: BigEndian(0, width)[i] == 0
    decreases width
  {
    if width > 0 {
      BigEndianZero(width - 1);
    }
  }
}
