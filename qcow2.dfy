// The empty QEMU qcow2 (version 2) disk image that `build_qcow2` writes:
// four 64 KiB clusters holding the header, an all-zero L1 table, a refcount
// table with one entry and a refcount block marking the four clusters used.
// Every multi-byte field is big-endian.

module Qcow2 {
  import opened Wrappers
  import opened Bytes
  import opened Buffers
  import SizeParse

  const ClusterBits: nat := 16
  const ClusterSize: nat := 0x1_0000
  const Magic: nat := 0x514649FB
  const Version: nat := 2

  /** The image is four clusters. */
  const ImageSize: nat := 4 * ClusterSize
  const HeaderSize: nat := 72
  /** Cluster 1 holds the L1 table, cluster 2 the refcount table, cluster 3
      the refcount block. */
  const L1Offset: nat := ClusterSize
  const RefcountTableOffset: nat := 2 * ClusterSize
  const RefcountBlockOffset: nat := 3 * ClusterSize

  /** The guest bytes one L1 entry covers: an L2 table of 8-byte entries,
      each mapping one cluster (512 MiB). */
  const BytesPerL1Entry: nat := (ClusterSize / 8) * ClusterSize

  // ---------------------------------------------------------------------
  // The L1 table size
  // ---------------------------------------------------------------------

  /** `div_ceil`: the least number of `d`-sized pieces covering `n`. */
  function DivCeil(n: nat, d: nat): (r: nat)
    requires d > 0
    ensures r * d >= n && (r == 0 || (r - 1) * d < n)
  {
    (n + d - 1) / d
  }

  /** `l1_table_entries`: the L1 entries the virtual size needs, cast to `u32`. */
  function L1TableEntries(virtualSize: nat): (r: nat)
    requires virtualSize < U64Limit
    ensures r < U32Limit
  {
    DivCeil(virtualSize, BytesPerL1Entry) % U32Limit
  }

  /** The largest virtual size whose L1 entry count survives the cast. */
  const MaxExactSize: nat := (U32Limit - 1) * BytesPerL1Entry

  /** Up to that size the count is exact: the least number of L1 entries
      that cover the whole virtual disk. */
  lemma L1TableCovers(virtualSize: nat)
    requires virtualSize <= MaxExactSize
    ensures var r := L1TableEntries(virtualSize);
      r * BytesPerL1Entry >= virtualSize && (r == 0 || (r - 1) * BytesPerL1Entry < virtualSize)
  {
    var c := DivCeil(virtualSize, BytesPerL1Entry);
    assert (c - 1) * BytesPerL1Entry - (U32Limit - 1) * BytesPerL1Entry == (c - U32Limit) * BytesPerL1Entry;
    assert c < U32Limit;
  }

  /** Beyond it the `as u32` cast wraps: 2^61 + 1 bytes need 2^32 + 1
      entries, and the header records 1. */
  lemma L1TableWraps()
    ensures 0x2000_0000_0000_0001 < U64Limit && L1TableEntries(0x2000_0000_0000_0001) == 1
  {
    CeilEntries(0x2000_0000_0000_0001, 0x1_0000_0001);
  }

  /** The two sizes of the unit tests: 1 GiB needs 2 entries, 100 GiB 200. */
  lemma L1TableExamples()
    ensures L1TableEntries(0x4000_0000) == 2
    ensures L1TableEntries(100 * 0x4000_0000) == 200
  {
    CeilEntries(0x4000_0000, 2);
    CeilEntries(100 * 0x4000_0000, 200);
  }

  /** The unrounded count for a size, given its value: sizes from
      `(q - 1) * 512 MiB + 1` to `q * 512 MiB` need `q` entries. */
  lemma CeilEntries(virtualSize: nat, q: nat)
    requires q * 0x2000_0000 <= virtualSize + 0x1FFF_FFFF < q * 0x2000_0000 + 0x2000_0000
    ensures DivCeil(virtualSize, BytesPerL1Entry) == q
  {
    assert BytesPerL1Entry == 0x2000_0000;
  }

  /** The L1 table stays inside cluster 1, which holds 8192 entries,
      exactly when the virtual size is at most 4 TiB. */
  lemma L1TableFitsItsCluster(virtualSize: nat)
    requires virtualSize <= MaxExactSize
    ensures L1TableEntries(virtualSize) * 8 <= ClusterSize <==> virtualSize <= 8192 * BytesPerL1Entry
  {
    L1TableCovers(virtualSize);
  }

  // ---------------------------------------------------------------------
  // Big-endian stores
  // ---------------------------------------------------------------------

  /** `copy_from_slice(&val.to_be_bytes())` at `offset`, `width` bytes wide. */
  method WriteBe(buf: array<byte>, offset: nat, val: nat, width: nat)
    requires offset + width <= buf.Length && val < Pow256(width)
    modifies buf
    ensures Holds(buf[..], offset, BigEndian(val, width))
    ensures Outside(buf[..], old(buf[..]), offset, offset + width)
    ensures BigEndianValue(buf[offset..offset + width]) == val
  {
    CopyInto(buf, offset, BigEndian(val, width));
    BigEndianRoundTrip(val, width);
  }

  /** `write_be16`. */
  method WriteBe16(buf: array<byte>, offset: nat, val: nat)
    requires offset + 2 <= buf.Length && val < 0x1_0000
    modifies buf
    ensures Holds(buf[..], offset, BigEndian(val, 2)) && Outside(buf[..], old(buf[..]), offset, offset + 2)
    ensures BigEndianValue(buf[offset..offset + 2]) == val
  {
    Pow256Widths();
    WriteBe(buf, offset, val, 2);
  }

  /** `write_be32`. */
  method WriteBe32(buf: array<byte>, offset: nat, val: nat)
    requires offset + 4 <= buf.Length && val < U32Limit
    modifies buf
    ensures Holds(buf[..], offset, BigEndian(val, 4)) && Outside(buf[..], old(buf[..]), offset, offset + 4)
    ensures BigEndianValue(buf[offset..offset + 4]) == val
  {
    Pow256Widths();
    WriteBe(buf, offset, val, 4);
  }

  /** `write_be64`. */
  method WriteBe64(buf: array<byte>, offset: nat, val: nat)
    requires offset + 8 <= buf.Length && val < U64Limit
    modifies buf
    ensures Holds(buf[..], offset, BigEndian(val, 8)) && Outside(buf[..], old(buf[..]), offset, offset + 8)
    ensures BigEndianValue(buf[offset..offset + 8]) == val
  {
    Pow256Widths();
    WriteBe(buf, offset, val, 8);
  }

  // ---------------------------------------------------------------------
  // The header, field by field
  // ---------------------------------------------------------------------

  /** Magic and version, at 0 and 4. */
  function MagicAndVersion(): seq<Fact>
  {
    Pow256Widths();
    [(0, BigEndian(Magic, 4)), (4, BigEndian(Version, 4))]
  }

  /** No backing file: offset 0 at 8, name length 0 at 16. */
  function NoBackingFile(): seq<Fact>
  {
    [(8, BigEndian(0, 8)), (16, BigEndian(0, 4))]
  }

  /** Cluster bits at 20 and the virtual size at 24. */
  function ClusterBitsAndSize(virtualSize: nat): seq<Fact>
    requires virtualSize < U64Limit
  {
    Pow256Widths();
    [(20, BigEndian(ClusterBits, 4)), (24, BigEndian(virtualSize, 8))]
  }

  /** No encryption: method 0 at 32. */
  function NoEncryption(): seq<Fact>
  {
    [(32, BigEndian(0, 4))]
  }

  /** The L1 entry count at 36, the L1 table offset at 40, the refcount
      table offset at 48 and its length in clusters at 56. */
  function Tables(l1Entries: nat): seq<Fact>
    requires l1Entries < U32Limit
  {
    Pow256Widths();
    [(36, BigEndian(l1Entries, 4)), (40, BigEndian(L1Offset, 8)),
     (48, BigEndian(RefcountTableOffset, 8)), (56, BigEndian(1, 4))]
  }

  /** No snapshots: count 0 at 60, offset 0 at 64. */
  function NoSnapshots(): seq<Fact>
  {
    [(60, BigEndian(0, 4)), (64, BigEndian(0, 8))]
  }

  /** The 72-byte version 2 header. */
  function HeaderFacts(virtualSize: nat): seq<Fact>
    requires virtualSize < U64Limit
  {
    MagicAndVersion() + NoBackingFile() + ClusterBitsAndSize(virtualSize) + NoEncryption()
    + Tables(L1TableEntries(virtualSize)) + NoSnapshots()
  }

  /** The header fields `build_qcow2` leaves at zero. */
  function ZeroFields(): seq<Fact>
  {
    NoBackingFile() + NoEncryption() + NoSnapshots()
  }

  /** A zero-filled buffer already holds the header's zero fields. */
  lemma ZeroFieldsHold(s: seq<byte>)
    requires HeaderSize <= |s| && forall k | 0 <= k < |s| :: s[k] == 0
    ensures AllHold(s, ZeroFields())
  {
    BigEndianZero(4);
    BigEndianZero(8);
    ZerosHold(s, 8, 8);
    ZerosHold(s, 16, 4);
    ZerosHold(s, 32, 4);
    ZerosHold(s, 60, 4);
    ZerosHold(s, 64, 8);
    assert BigEndian(0, 4) == Repeat(0, 4) && BigEndian(0, 8) == Repeat(0, 8);
  }

  /** The three groups of header stores lie in order. */
  lemma HeaderGroupsOrdered(virtualSize: nat)
    requires virtualSize < U64Limit
    ensures Ordered(MagicAndVersion(), 0, 8) && Ordered(ClusterBitsAndSize(virtualSize), 20, 32)
    ensures Ordered(Tables(L1TableEntries(virtualSize)), 36, 60)
  {
    Pow256Widths();
  }

  /** No group of header stores touches a zero field. */
  lemma HeaderGroupsApart()
    ensures Apart(ZeroFields(), 0, 8) && Apart(ZeroFields(), 20, 32) && Apart(ZeroFields(), 36, 60)
  {
  }

  /** The stores and the zero fields together make the header. */
  lemma HeaderAssembled(s: seq<byte>, virtualSize: nat)
    requires virtualSize < U64Limit
    requires AllHold(s, MagicAndVersion() + ClusterBitsAndSize(virtualSize) + Tables(L1TableEntries(virtualSize)))
    requires AllHold(s, ZeroFields())
    ensures AllHold(s, HeaderFacts(virtualSize))
  {
    var stores := MagicAndVersion() + ClusterBitsAndSize(virtualSize) + Tables(L1TableEntries(virtualSize));
    AllHoldJoin(s, stores, ZeroFields());
    AllHoldFrom(s, stores + ZeroFields(), HeaderFacts(virtualSize));
  }

  /** The header stores of `build_qcow2`, in its order: magic, version,
      cluster bits, size, L1 count and offset, refcount table offset and
      length. The buffer starts out zero. */
  method WriteHeader(image: array<byte>, virtualSize: nat)
    requires ImageSize <= image.Length && virtualSize < U64Limit
    requires forall k | 0 <= k < image.Length :: image[k] == 0
    modifies image
    ensures AllHold(image[..], HeaderFacts(virtualSize))
    ensures Outside(image[..], old(image[..]), 0, HeaderSize)
  {
    ghost var s0 := image[..];
    ZeroFieldsHold(s0);
    HeaderGroupsOrdered(virtualSize);
    HeaderGroupsApart();
    var l1Entries := L1TableEntries(virtualSize);
    WriteAll(image, MagicAndVersion(), 0, 8);
    ghost var s1 := image[..];
    AllKeptApart(s0, s1, 0, 8, ZeroFields());
    WriteAll(image, ClusterBitsAndSize(virtualSize), 20, 32);
    ghost var s2 := image[..];
    StepMany(s0, s1, s2, MagicAndVersion(), 0, 8, ClusterBitsAndSize(virtualSize), 20, 32);
    AllKeptApart(s1, s2, 20, 32, ZeroFields());
    WriteAll(image, Tables(l1Entries), 36, 60);
    StepMany(s0, s2, image[..], MagicAndVersion() + ClusterBitsAndSize(virtualSize), 0, 32, Tables(l1Entries), 36, 60);
    AllKeptApart(s2, image[..], 36, 60, ZeroFields());
    HeaderAssembled(image[..], virtualSize);
    OutsideGrow(image[..], s0, 0, HeaderSize, 0, 60);
  }

  // ---------------------------------------------------------------------
  // The refcount table and block
  // ---------------------------------------------------------------------

  /** The refcount table's one entry: the offset of the refcount block. */
  function RefcountTableFacts(): seq<Fact>
  {
    Pow256Widths();
    [(RefcountTableOffset, BigEndian(RefcountBlockOffset, 8))]
  }

  /** The count of cluster `i` in the refcount block: 1, as a `u16`. */
  function RefcountEntry(i: nat): Fact
  {
    Pow256Widths();
    (RefcountBlockOffset + 2 * i, BigEndian(1, 2))
  }

  /** The refcount block: clusters 0 to 3 in use. */
  function RefcountBlockFacts(): seq<Fact>
  {
    [RefcountEntry(0), RefcountEntry(1), RefcountEntry(2), RefcountEntry(3)]
  }

  /** The loop marking clusters 0 to 3 as used. */
  method WriteRefcountBlock(image: array<byte>)
    requires ImageSize <= image.Length
    modifies image
    ensures AllHold(image[..], RefcountBlockFacts())
    ensures Outside(image[..], old(image[..]), RefcountBlockOffset, RefcountBlockOffset + 8)
  {
    ghost var s0 := image[..];
    ghost var rb := RefcountBlockFacts();
    var i := 0;
    while i < 4
      invariant 0 <= i <= 4
      invariant AllHold(image[..], rb[..i])
      invariant Within(rb[..i], RefcountBlockOffset, RefcountBlockOffset + 2 * i)
      invariant Outside(image[..], s0, RefcountBlockOffset, RefcountBlockOffset + 2 * i)
    {
      ghost var s1 := image[..];
      WriteBe16(image, RefcountBlockOffset + 2 * i, 1);
      RefcountStep(s0, s1, image[..], i);
      i := i + 1;
    }
    assert rb[..4] == rb;
  }

  /** One pass of the refcount loop: the entries so far, and the one just
      written, hold. */
  lemma RefcountStep(s0: seq<byte>, s1: seq<byte>, s2: seq<byte>, i: nat)
    requires i < 4
    requires AllHold(s1, RefcountBlockFacts()[..i])
    requires Within(RefcountBlockFacts()[..i], RefcountBlockOffset, RefcountBlockOffset + 2 * i)
    requires Outside(s1, s0, RefcountBlockOffset, RefcountBlockOffset + 2 * i)
    requires Holds(s2, RefcountBlockOffset + 2 * i, BigEndian(1, 2))
    requires Outside(s2, s1, RefcountBlockOffset + 2 * i, RefcountBlockOffset + 2 * i + 2)
    ensures AllHold(s2, RefcountBlockFacts()[..i + 1])
    ensures Within(RefcountBlockFacts()[..i + 1], RefcountBlockOffset, RefcountBlockOffset + 2 * (i + 1))
    ensures Outside(s2, s0, RefcountBlockOffset, RefcountBlockOffset + 2 * (i + 1))
  {
    var rb := RefcountBlockFacts();
    Pow256Widths();
    assert rb[i] == RefcountEntry(i);
    Step(s0, s1, s2, rb[..i], RefcountBlockOffset, RefcountBlockOffset + 2 * i, rb[i].0, rb[i].1);
    assert rb[..i + 1] == rb[..i] + [rb[i]];
  }

  // ---------------------------------------------------------------------
  // The whole image
  // ---------------------------------------------------------------------

  /** The zeros between the header and the L1 table. */
  function HeaderPadding(): Fact { (HeaderSize, Repeat(0, ClusterSize - HeaderSize)) }
  /** The all-zero L1 table: every L2 table unallocated. */
  function EmptyL1Table(): Fact { (L1Offset, Repeat(0, ClusterSize)) }
  /** The zeros after the refcount table's one entry. */
  function RefcountTablePadding(): Fact { (RefcountTableOffset + 8, Repeat(0, ClusterSize - 8)) }
  /** The zeros after the four refcounts. */
  function RefcountBlockPadding(): Fact { (RefcountBlockOffset + 8, Repeat(0, ClusterSize - 8)) }

  /** The runs the zeroed buffer already holds and no write touches. */
  function Padding(): seq<Fact>
  {
    [HeaderPadding(), EmptyL1Table(), RefcountTablePadding(), RefcountBlockPadding()]
  }

  /** The image, run by run from offset 0 to its end: the header, the
      zeros after it, the zero L1 table, the refcount table and the
      refcount block, each padded with zeros to its cluster's end. */
  function ImageFacts(virtualSize: nat): seq<Fact>
    requires virtualSize < U64Limit
  {
    HeaderFacts(virtualSize) + AfterHeader()
  }

  /** The runs after the header, which do not depend on the size. */
  function AfterHeader(): seq<Fact>
  {
    [HeaderPadding(), EmptyL1Table()] + RefcountTableFacts() + [RefcountTablePadding()]
    + RefcountBlockFacts() + [RefcountBlockPadding()]
  }

  /** `[lo, hi)` is covered by the runs of `facts`, each starting where
      the previous one ends. */
  ghost predicate Tiles(facts: seq<Fact>, lo: nat, hi: nat)
  {
    if |facts| == 0 then lo == hi
    else
      facts[0].0 == lo && facts[|facts| - 1].0 + |facts[|facts| - 1].1| == hi &&
      forall i | 0 <= i < |facts| - 1 :: facts[i].0 + |facts[i].1| == facts[i + 1].0
  }

  /** Two tilings of neighbouring ranges tile their union. */
  lemma TilesJoin(f: seq<Fact>, g: seq<Fact>, lo: nat, mid: nat, hi: nat)
    requires Tiles(f, lo, mid) && Tiles(g, mid, hi)
    ensures Tiles(f + g, lo, hi)
  {
    if |f| > 0 && |g| > 0 {
      var fg := f + g;
      forall i | 0 <= i < |fg| - 1
        ensures fg[i].0 + |fg[i].1| == fg[i + 1].0
      {
        if i < |f| - 1 {
          assert fg[i] == f[i] && fg[i + 1] == f[i + 1];
        } else if i == |f| - 1 {
          assert fg[i] == f[i] && fg[i + 1] == g[0];
        } else {
          assert fg[i] == g[i - |f|] && fg[i + 1] == g[i - |f| + 1];
        }
      }
    } else if |f| == 0 {
      assert f + g == g;
    } else {
      assert f + g == f;
    }
  }

  /** The header's fields cover its 72 bytes with no gap and no overlap. */
  lemma HeaderTiles(virtualSize: nat)
    requires virtualSize < U64Limit
    ensures Tiles(HeaderFacts(virtualSize), 0, HeaderSize)
  {
    var l1 := L1TableEntries(virtualSize);
    assert Tiles(MagicAndVersion(), 0, 8);
    assert Tiles(NoBackingFile(), 8, 20);
    assert Tiles(ClusterBitsAndSize(virtualSize), 20, 32);
    assert Tiles(NoEncryption(), 32, 36);
    assert Tiles(Tables(l1), 36, 60);
    assert Tiles(NoSnapshots(), 60, 72);
    TilesJoin(MagicAndVersion(), NoBackingFile(), 0, 8, 20);
    TilesJoin(MagicAndVersion() + NoBackingFile(), ClusterBitsAndSize(virtualSize), 0, 20, 32);
    TilesJoin(MagicAndVersion() + NoBackingFile() + ClusterBitsAndSize(virtualSize), NoEncryption(), 0, 32, 36);
    TilesJoin(MagicAndVersion() + NoBackingFile() + ClusterBitsAndSize(virtualSize) + NoEncryption(),
      Tables(l1), 0, 36, 60);
    TilesJoin(MagicAndVersion() + NoBackingFile() + ClusterBitsAndSize(virtualSize) + NoEncryption() + Tables(l1),
      NoSnapshots(), 0, 60, 72);
  }

  /** The runs of the image cover every byte of it exactly once, so an
      image that holds them all is determined byte for byte. */
  lemma ImageTiles(virtualSize: nat)
    requires virtualSize < U64Limit
    ensures Tiles(ImageFacts(virtualSize), 0, ImageSize)
  {
    HeaderTiles(virtualSize);
    AfterHeaderTiles();
    TilesJoin(HeaderFacts(virtualSize), AfterHeader(), 0, HeaderSize, ImageSize);
  }

  /** The runs after the header cover the rest of the image. */
  lemma AfterHeaderTiles()
    ensures Tiles(AfterHeader(), HeaderSize, ImageSize)
  {
    var p1 := [HeaderPadding(), EmptyL1Table()];
    var p2 := [RefcountTablePadding()];
    var p3 := [RefcountBlockPadding()];
    Pow256Widths();
    assert Tiles(p1, HeaderSize, RefcountTableOffset);
    assert Tiles(RefcountTableFacts(), RefcountTableOffset, RefcountTableOffset + 8);
    assert Tiles(p2, RefcountTableOffset + 8, RefcountBlockOffset);
    assert Tiles(RefcountBlockFacts(), RefcountBlockOffset, RefcountBlockOffset + 8);
    assert Tiles(p3, RefcountBlockOffset + 8, ImageSize);
    TilesJoin(p1, RefcountTableFacts(), HeaderSize, RefcountTableOffset, RefcountTableOffset + 8);
    TilesJoin(p1 + RefcountTableFacts(), p2, HeaderSize, RefcountTableOffset + 8, RefcountBlockOffset);
    TilesJoin(p1 + RefcountTableFacts() + p2, RefcountBlockFacts(), HeaderSize, RefcountBlockOffset, RefcountBlockOffset + 8);
    TilesJoin(p1 + RefcountTableFacts() + p2 + RefcountBlockFacts(), p3, HeaderSize, RefcountBlockOffset + 8, ImageSize);
  }

  /** The zero runs lie outside every later write. */
  lemma PaddingApart()
    ensures Apart(Padding(), 0, HeaderSize)
    ensures Apart(Padding(), RefcountTableOffset, RefcountTableOffset + 8)
    ensures Apart(Padding(), RefcountBlockOffset, RefcountBlockOffset + 8)
  {
    var p := Padding();
    assert p[0].0 == HeaderSize && |p[0].1| == ClusterSize - HeaderSize;
    assert p[1].0 == L1Offset && |p[1].1| == ClusterSize;
    assert p[2].0 == RefcountTableOffset + 8 && |p[2].1| == ClusterSize - 8;
    assert p[3].0 == RefcountBlockOffset + 8 && |p[3].1| == ClusterSize - 8;
  }

  /** The header and the refcount table entry lie outside the later
      writes to the refcount table and block. */
  lemma HeaderApart(virtualSize: nat)
    requires virtualSize < U64Limit
    ensures Apart(HeaderFacts(virtualSize), RefcountTableOffset, RefcountBlockOffset + 8)
    ensures Apart(RefcountTableFacts(), RefcountBlockOffset, RefcountBlockOffset + 8)
  {
    HeaderTiles(virtualSize);
    var h := HeaderFacts(virtualSize);
    forall i | 0 <= i < |h|
      ensures h[i].0 + |h[i].1| <= HeaderSize
    {
      TilesEnd(h, 0, HeaderSize, i);
    }
    Pow256Widths();
    assert |RefcountTableFacts()[0].1| == 8;
  }

  /** In a tiling, every run ends at or before the tiled range does. */
  lemma {:induction false} TilesEnd(facts: seq<Fact>, lo: nat, hi: nat, i: nat)
    requires Tiles(facts, lo, hi) && i < |facts|
    ensures facts[i].0 + |facts[i].1| <= hi
    decreases |facts| - i
  {
    if i < |facts| - 1 {
      TilesEnd(facts, lo, hi, i + 1);
    }
  }

  lemma ImageAssembled(s: seq<byte>, virtualSize: nat)
    requires virtualSize < U64Limit
    requires AllHold(s, HeaderFacts(virtualSize)) && AllHold(s, Padding())
    requires AllHold(s, RefcountTableFacts()) && AllHold(s, RefcountBlockFacts())
    ensures AllHold(s, ImageFacts(virtualSize))
  {
    var all := HeaderFacts(virtualSize) + Padding() + (RefcountTableFacts() + RefcountBlockFacts());
    AllHoldJoin(s, HeaderFacts(virtualSize), Padding());
    AllHoldJoin(s, RefcountTableFacts(), RefcountBlockFacts());
    AllHoldJoin(s, HeaderFacts(virtualSize) + Padding(), RefcountTableFacts() + RefcountBlockFacts());
    AllHoldFrom(s, all, ImageFacts(virtualSize));
  }

  /** `build_qcow2`: a zeroed four-cluster buffer, the header, the refcount
      table entry, then the refcount block. */
  method BuildQcow2(virtualSize: nat) returns (image: array<byte>)
    requires virtualSize < U64Limit
    ensures fresh(image) && image.Length == ImageSize
    ensures AllHold(image[..], ImageFacts(virtualSize))
  {
    image := new byte[ImageSize](_ => 0);
    ghost var s0 := image[..];
    ZerosHold(s0, HeaderSize, ClusterSize - HeaderSize);
    ZerosHold(s0, L1Offset, ClusterSize);
    ZerosHold(s0, RefcountTableOffset + 8, ClusterSize - 8);
    ZerosHold(s0, RefcountBlockOffset + 8, ClusterSize - 8);
    PaddingApart();
    WriteHeader(image, virtualSize);
    ghost var s1 := image[..];
    AllKeptApart(s0, s1, 0, HeaderSize, Padding());
    WriteBe64(image, RefcountTableOffset, RefcountBlockOffset);
    ghost var s2 := image[..];
    AfterTableEntry(s1, s2, virtualSize);
    WriteRefcountBlock(image);
    AfterRefcountBlock(s2, image[..], virtualSize);
  }

  /** After the refcount table entry is written, the header and the
      padding still hold, and so does the entry. */
  lemma AfterTableEntry(s1: seq<byte>, s2: seq<byte>, virtualSize: nat)
    requires virtualSize < U64Limit
    requires AllHold(s1, Padding()) && AllHold(s1, HeaderFacts(virtualSize))
    requires Pow256(8) == U64Limit
    requires Holds(s2, RefcountTableOffset, BigEndian(RefcountBlockOffset, 8))
    requires Outside(s2, s1, RefcountTableOffset, RefcountTableOffset + 8)
    ensures AllHold(s2, Padding()) && AllHold(s2, HeaderFacts(virtualSize)) && AllHold(s2, RefcountTableFacts())
  {
    PaddingApart();
    HeaderApart(virtualSize);
    AllKeptApart(s1, s2, RefcountTableOffset, RefcountTableOffset + 8, Padding());
    AllKeptApart(s1, s2, RefcountTableOffset, RefcountTableOffset + 8, HeaderFacts(virtualSize));
    assert RefcountTableFacts()[0] == (RefcountTableOffset, BigEndian(RefcountBlockOffset, 8));
  }

  /** After the refcount block is written, the whole image holds. */
  lemma AfterRefcountBlock(s2: seq<byte>, s3: seq<byte>, virtualSize: nat)
    requires virtualSize < U64Limit
    requires AllHold(s2, Padding()) && AllHold(s2, HeaderFacts(virtualSize)) && AllHold(s2, RefcountTableFacts())
    requires AllHold(s3, RefcountBlockFacts())
    requires Outside(s3, s2, RefcountBlockOffset, RefcountBlockOffset + 8)
    ensures AllHold(s3, ImageFacts(virtualSize))
  {
    PaddingApart();
    HeaderApart(virtualSize);
    AllKeptApart(s2, s3, RefcountBlockOffset, RefcountBlockOffset + 8, Padding());
    AllKeptApart(s2, s3, RefcountBlockOffset, RefcountBlockOffset + 8, HeaderFacts(virtualSize));
    AllKeptApart(s2, s3, RefcountBlockOffset, RefcountBlockOffset + 8, RefcountTableFacts());
    ImageAssembled(s3, virtualSize);
  }

  /** `create_qcow2`: the size string parsed, then the image built. A
      size `parse_size` rejects fails before anything is built; the
      returned bytes stand for the file written. */
  method CreateQcow2(size: string) returns (r: Result<seq<byte>>)
    ensures r.Err? <==> SizeParse.ParseSize(size).Err?
    ensures r.Err? ==> r.error == SizeParse.ParseSize(size).error
    ensures r.Ok? ==> |r.value| == ImageSize && AllHold(r.value, ImageFacts(SizeParse.ParseSize(size).value))
  {
    var parsed := SizeParse.ParseSize(size);
    if parsed.Err? {
      return Err(parsed.error);
    }
    var image := BuildQcow2(parsed.value);
    return Ok(image[..]);
  }

  // ---------------------------------------------------------------------
  // Reading the image back
  // ---------------------------------------------------------------------

  /** A big-endian field written in place reads back as its value. */
  lemma FieldReads(s: seq<byte>, at: nat, v: nat, width: nat)
    requires v < Pow256(width) && Holds(s, at, BigEndian(v, width))
    ensures at + width <= |s| && BigEndianValue(s[at..at + width]) == v
  {
    BigEndianRoundTrip(v, width);
  }

  /** A zero run reads back as zeros. */
  lemma ZerosRead(s: seq<byte>, at: nat, n: nat)
    requires Holds(s, at, Repeat(0, n))
    ensures forall k | at <= k < at + n :: s[k] == 0
  {
    forall k | at <= k < at + n
      ensures s[k] == 0
    {
      assert s[at..at + n][k - at] == 0;
    }
  }

  /** The magic is the four bytes `QFI` and 0xFB. */
  lemma MagicBytes()
    ensures BigEndian(Magic, 4) == [0x51, 0x46, 0x49, 0xFB]
  {
    Pow256Widths();
  }

  /** The first header fields of an image holding `HeaderFacts`: the magic,
      version 2, no backing file, 64 KiB clusters and the virtual size. */
  lemma HeaderReadsFront(s: seq<byte>, virtualSize: nat)
    requires virtualSize < U64Limit && AllHold(s, HeaderFacts(virtualSize))
    ensures HeaderSize <= |s| && s[0..4] == [0x51, 0x46, 0x49, 0xFB]
    ensures BigEndianValue(s[4..8]) == Version
    ensures BigEndianValue(s[8..16]) == 0 && BigEndianValue(s[16..20]) == 0
    ensures BigEndianValue(s[20..24]) == ClusterBits && Pow256(ClusterBits / 8) == ClusterSize
    ensures BigEndianValue(s[24..32]) == virtualSize
  {
    Pow256Widths();
    HeaderGroupsHold(s, virtualSize);
    assert MagicAndVersion()[0] == (0, BigEndian(Magic, 4)) && MagicAndVersion()[1] == (4, BigEndian(Version, 4));
    assert NoBackingFile()[0] == (8, BigEndian(0, 8)) && NoBackingFile()[1] == (16, BigEndian(0, 4));
    assert ClusterBitsAndSize(virtualSize)[0] == (20, BigEndian(ClusterBits, 4));
    assert ClusterBitsAndSize(virtualSize)[1] == (24, BigEndian(virtualSize, 8));
    assert NoSnapshots()[1] == (64, BigEndian(0, 8));
    MagicBytes();
    FieldReads(s, 4, Version, 4);
    FieldReads(s, 8, 0, 8);
    FieldReads(s, 16, 0, 4);
    FieldReads(s, 20, ClusterBits, 4);
    FieldReads(s, 24, virtualSize, 8);
  }

  /** Each group of header fields holds on its own. */
  lemma HeaderGroupsHold(s: seq<byte>, virtualSize: nat)
    requires virtualSize < U64Limit && AllHold(s, HeaderFacts(virtualSize))
    ensures AllHold(s, MagicAndVersion()) && AllHold(s, NoBackingFile())
    ensures AllHold(s, ClusterBitsAndSize(virtualSize)) && AllHold(s, NoEncryption())
    ensures AllHold(s, Tables(L1TableEntries(virtualSize))) && AllHold(s, NoSnapshots())
  {
    var g1 := MagicAndVersion() + NoBackingFile();
    var g2 := g1 + ClusterBitsAndSize(virtualSize);
    var g3 := g2 + NoEncryption();
    var g4 := g3 + Tables(L1TableEntries(virtualSize));
    AllHoldSplit(s, g4, NoSnapshots());
    AllHoldSplit(s, g3, Tables(L1TableEntries(virtualSize)));
    AllHoldSplit(s, g2, NoEncryption());
    AllHoldSplit(s, g1, ClusterBitsAndSize(virtualSize));
    AllHoldSplit(s, MagicAndVersion(), NoBackingFile());
  }

  /** The remaining header fields: no encryption, the L1 entry count and
      offset, the refcount table at cluster 2 spanning one cluster, and no
      snapshots. */
  lemma HeaderReadsBack(s: seq<byte>, virtualSize: nat)
    requires virtualSize < U64Limit && AllHold(s, HeaderFacts(virtualSize))
    ensures HeaderSize <= |s| && BigEndianValue(s[32..36]) == 0
    ensures BigEndianValue(s[36..40]) == L1TableEntries(virtualSize)
    ensures BigEndianValue(s[40..48]) == L1Offset
    ensures BigEndianValue(s[48..56]) == RefcountTableOffset && BigEndianValue(s[56..60]) == 1
    ensures BigEndianValue(s[60..64]) == 0 && BigEndianValue(s[64..72]) == 0
  {
    Pow256Widths();
    HeaderGroupsHold(s, virtualSize);
    var t := Tables(L1TableEntries(virtualSize));
    assert NoEncryption()[0] == (32, BigEndian(0, 4));
    assert t[0] == (36, BigEndian(L1TableEntries(virtualSize), 4)) && t[1] == (40, BigEndian(L1Offset, 8));
    assert t[2] == (48, BigEndian(RefcountTableOffset, 8)) && t[3] == (56, BigEndian(1, 4));
    assert NoSnapshots()[0] == (60, BigEndian(0, 4)) && NoSnapshots()[1] == (64, BigEndian(0, 8));
    FieldReads(s, 32, 0, 4);
    FieldReads(s, 36, L1TableEntries(virtualSize), 4);
    FieldReads(s, 40, L1Offset, 8);
    FieldReads(s, 48, RefcountTableOffset, 8);
    FieldReads(s, 56, 1, 4);
    FieldReads(s, 60, 0, 4);
    FieldReads(s, 64, 0, 8);
  }

  /** The tables of an image holding `ImageFacts`: the L1 table is all
      zero, the refcount table's first entry points at cluster 3 and the
      rest are zero, and clusters 0 to 3 have refcount 1 and every later
      cluster refcount 0. */
  lemma TablesRead(s: seq<byte>, virtualSize: nat)
    requires virtualSize < U64Limit && AllHold(s, ImageFacts(virtualSize))
    ensures |s| >= ImageSize
    ensures forall k | L1Offset <= k < RefcountTableOffset :: s[k] == 0
    ensures BigEndianValue(s[RefcountTableOffset..RefcountTableOffset + 8]) == RefcountBlockOffset
    ensures forall k | RefcountTableOffset + 8 <= k < RefcountBlockOffset :: s[k] == 0
    ensures forall i | 0 <= i < 4 ::
      BigEndianValue(s[RefcountBlockOffset + 2 * i..RefcountBlockOffset + 2 * i + 2]) == 1
    ensures forall k | RefcountBlockOffset + 8 <= k < ImageSize :: s[k] == 0
  {
    Pow256Widths();
    var f := ImageFacts(virtualSize);
    var n := |HeaderFacts(virtualSize)|;
    ImageFactsAfterHeader(virtualSize);
    ZerosRead(s, L1Offset, ClusterSize);
    FieldReads(s, RefcountTableOffset, RefcountBlockOffset, 8);
    ZerosRead(s, RefcountTableOffset + 8, ClusterSize - 8);
    ZerosRead(s, RefcountBlockOffset + 8, ClusterSize - 8);
    RefcountsRead(s, virtualSize);
  }

  /** Clusters 0 to 3 have refcount 1. */
  lemma RefcountsRead(s: seq<byte>, virtualSize: nat)
    requires virtualSize < U64Limit && AllHold(s, ImageFacts(virtualSize))
    ensures forall i | 0 <= i < 4 ::
      RefcountBlockOffset + 2 * i + 2 <= |s| &&
      BigEndianValue(s[RefcountBlockOffset + 2 * i..RefcountBlockOffset + 2 * i + 2]) == 1
  {
    forall i | 0 <= i < 4
      ensures RefcountBlockOffset + 2 * i + 2 <= |s|
      ensures BigEndianValue(s[RefcountBlockOffset + 2 * i..RefcountBlockOffset + 2 * i + 2]) == 1
    {
      RefcountRead(s, virtualSize, i);
    }
  }

  /** The refcount of cluster `i`, for one `i`. */
  lemma RefcountRead(s: seq<byte>, virtualSize: nat, i: nat)
    requires virtualSize < U64Limit && AllHold(s, ImageFacts(virtualSize)) && i < 4
    ensures RefcountBlockOffset + 2 * i + 2 <= |s|
    ensures BigEndianValue(s[RefcountBlockOffset + 2 * i..RefcountBlockOffset + 2 * i + 2]) == 1
  {
    Pow256Widths();
    var f := ImageFacts(virtualSize);
    var n := |HeaderFacts(virtualSize)|;
    ImageFactsAfterHeader(virtualSize);
    assert f[n + 4 + i] == RefcountEntry(i);
    FieldReads(s, RefcountBlockOffset + 2 * i, 1, 2);
  }

  /** The runs after the header, by position. */
  lemma ImageFactsAfterHeader(virtualSize: nat)
    requires virtualSize < U64Limit
    ensures var f := ImageFacts(virtualSize);
      var n := |HeaderFacts(virtualSize)|;
      |f| == n + 9 && f[n + 1] == EmptyL1Table() && f[n + 2] == RefcountTableFacts()[0] &&
      f[n + 3] == RefcountTablePadding() && f[n + 8] == RefcountBlockPadding() &&
      forall i | 0 <= i < 4 :: f[n + 4 + i] == RefcountEntry(i)
  {
    var t := AfterHeader();
    assert t[1] == EmptyL1Table() && t[2] == RefcountTableFacts()[0] && t[3] == RefcountTablePadding();
    assert t[8] == RefcountBlockPadding();
    assert forall i | 0 <= i < 4 :: t[4 + i] == RefcountEntry(i);
  }
}
