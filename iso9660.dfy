// The ISO 9660 seed-image builder: a flat root directory with Rock Ridge
// names, written into a zeroed byte buffer sector by sector (ECMA-119 with
// SUSP and RRIP entries). Helpers that return a freshly built vector (a
// directory record, a SUSP or RRIP entry) are byte sequences; helpers that
// write into the image buffer are methods on an array.

module Iso9660 {
  import opened Wrappers
  import opened Bytes
  import opened Buffers
  import opened Strings

  const SectorSize: nat := 2048
  const PvdSector: nat := 16
  const TerminatorSector: nat := 17
  const LPathTableSector: nat := 18
  const MPathTableSector: nat := 19
  const RootSector: nat := 20
  const ContinuationSector: nat := 21
  const FirstFileSector: nat := 22

  /** The mode the PX entry gives every file: a regular file, rw-r--r--. */
  const FileMode: nat := 0x81A4

  /** `as u32`: keep the low 32 bits. */
  function ToU32(x: nat): (r: nat)
    ensures r < U32Limit && (x < U32Limit ==> r == x)
  {
    x % U32Limit
  }

  const Space: byte := 0x20

  /** A Rust byte-string literal `b"..."`: one byte per (ASCII) character. */
  function AsciiBytes(s: string): (r: seq<byte>)
    ensures |r| == |s|
  {
    seq(|s|, i requires 0 <= i < |s| => (s[i] as int % 256) as byte)
  }

  predicate IsAscii(s: string)
  {
    forall i | 0 <= i < |s| :: s[i] as int < 0x80
  }

  /** `"CD001"`, the standard identifier of every volume descriptor. */
  const Cd001: seq<byte> := [0x43, 0x44, 0x30, 0x30, 0x31]

  // ---------------------------------------------------------------------
  // UTF-8 (`str::as_bytes`)
  // ---------------------------------------------------------------------

  function Utf8Char(c: char): (r: seq<byte>)
    ensures 1 <= |r| <= 4
    ensures |r| == 1 <==> c as int < 0x80
  {
    var n := c as int;
    if n < 0x80 then [n as byte]
    else if n < 0x800 then [(0xC0 + n / 64) as byte, (0x80 + n % 64) as byte]
    else if n < 0x10000 then [(0xE0 + n / 4096) as byte, (0x80 + n / 64 % 64) as byte, (0x80 + n % 64) as byte]
    else [(0xF0 + n / 262144) as byte, (0x80 + n / 4096 % 64) as byte, (0x80 + n / 64 % 64) as byte, (0x80 + n % 64) as byte]
  }

  function Utf8(s: string): (r: seq<byte>)
  {
    if |s| == 0 then [] else Utf8Char(s[0]) + Utf8(s[1..])
  }

  /** An ASCII string encodes to one byte per character, the character's code. */
  lemma {:induction false} Utf8OfAscii(s: string)
    requires IsAscii(s)
    ensures Utf8(s) == AsciiBytes(s)
  {
    if |s| > 0 {
      Utf8OfAscii(s[1..]);
      assert AsciiBytes(s) == AsciiBytes(s[..1]) + AsciiBytes(s[1..]);
    }
  }

  // ---------------------------------------------------------------------
  // Sizes and layout
  // ---------------------------------------------------------------------

  /** `sectors_for`: the sectors a file of `bytes` bytes occupies; an empty
      file still takes one. */
  function SectorsFor(bytes: nat): (r: nat)
    ensures r >= 1 && (bytes <= SectorSize ==> r == 1)
  {
    if bytes == 0 then 1 else (bytes + SectorSize - 1) / SectorSize
  }

  /** At least one sector, enough sectors for the data, and no sector more
      than it needs. */
  lemma SectorsForBounds(bytes: nat)
    ensures SectorsFor(bytes) >= 1
    ensures bytes <= SectorsFor(bytes) * SectorSize
    ensures bytes > 0 ==> (SectorsFor(bytes) - 1) * SectorSize < bytes
  {
  }

  /** A file to put in the root directory. */
  datatype IsoFile = IsoFile(name: string, data: seq<byte>)

  /** The sectors the files' data take, in total. */
  function SumSectors(files: seq<IsoFile>): nat
  {
    if |files| == 0 then 0
    else SumSectors(files[..|files| - 1]) + SectorsFor(|files[|files| - 1].data|)
  }

  /** The sector where file `i` starts: the files follow sector 21 in order. */
  function FileStart(files: seq<IsoFile>, i: nat): nat
    requires i <= |files|
  {
    FirstFileSector + SumSectors(files[..i])
  }

  function TotalSectors(files: seq<IsoFile>): nat
  {
    FirstFileSector + SumSectors(files)
  }

  /** Each file's run begins where the previous one ended, and the data fits
      in its run. */
  lemma FileRunsConsecutive(files: seq<IsoFile>, i: nat)
    requires i < |files|
    ensures FileStart(files, i + 1) == FileStart(files, i) + SectorsFor(|files[i].data|)
    ensures FileStart(files, i) * SectorSize + |files[i].data| <= FileStart(files, i + 1) * SectorSize
  {
    assert files[..i + 1][..i] == files[..i];
    SectorsForBounds(|files[i].data|);
  }

  lemma {:induction false} FileStartMonotone(files: seq<IsoFile>, i: nat, j: nat)
    requires i <= j <= |files|
    ensures FileStart(files, i) <= FileStart(files, j)
    decreases j - i
  {
    if i < j {
      FileRunsConsecutive(files, i);
      FileStartMonotone(files, i + 1, j);
    }
  }

  /** The files' data regions lie past the fixed sectors, in input order,
      without overlapping, and the last one ends within the image. */
  lemma FileRegionsDisjoint(files: seq<IsoFile>, i: nat, j: nat)
    requires i < j < |files|
    ensures FirstFileSector * SectorSize <= FileStart(files, i) * SectorSize
    ensures FileStart(files, i) * SectorSize + |files[i].data| <= FileStart(files, j) * SectorSize
    ensures FileStart(files, j) * SectorSize + |files[j].data| <= TotalSectors(files) * SectorSize
  {
    FileRunsConsecutive(files, i);
    FileStartMonotone(files, i + 1, j);
    FileRunsConsecutive(files, j);
    FileStartMonotone(files, j + 1, |files|);
    assert files[..|files|] == files;
  }

  /** The loop of `build_iso` that lays the files out: each file's start
      sector and length, and the total number of sectors. */
  method PlanLayout(files: seq<IsoFile>) returns (layout: seq<(nat, nat)>, total: nat)
    ensures |layout| == |files|
    ensures forall i | 0 <= i < |files| :: layout[i] == (FileStart(files, i), |files[i].data|)
    ensures layout == Layout(files)
    ensures total == TotalSectors(files)
  {
    layout := [];
    var next := FirstFileSector;
    var i := 0;
    while i < |files|
      invariant 0 <= i <= |files| && |layout| == i
      invariant next == FileStart(files, i)
      invariant forall k | 0 <= k < i :: layout[k] == (FileStart(files, k), |files[k].data|)
    {
      layout := layout + [(next, |files[i].data|)];
      FileRunsConsecutive(files, i);
      next := next + SectorsFor(|files[i].data|);
      i := i + 1;
    }
    assert files[..|files|] == files;
    assert layout == Layout(files);
    total := next;
  }

  // ---------------------------------------------------------------------
  // Both-endian numbers (sections 7.2.3 and 7.3.3 of ECMA-119)
  // ---------------------------------------------------------------------

  /** `put_u32_both`'s bytes: little-endian, then big-endian. */
  function U32Both(v: nat): (r: seq<byte>)
    requires v < U32Limit
    ensures |r| == 8
  {
    Pow256Widths();
    LittleEndian(v, 4) + BigEndian(v, 4)
  }

  /** `put_u16_both`'s bytes: little-endian, then big-endian. */
  function U16Both(v: nat): (r: seq<byte>)
    requires v < 0x1_0000
    ensures |r| == 4
  {
    Pow256Widths();
    LittleEndian(v, 2) + BigEndian(v, 2)
  }

  /** A reader of either byte order gets the value back from its half. */
  lemma U32BothRoundTrip(v: nat)
    requires v < U32Limit
    ensures LittleEndianValue(U32Both(v)[..4]) == v && BigEndianValue(U32Both(v)[4..]) == v
  {
    Pow256Widths();
    assert U32Both(v)[..4] == LittleEndian(v, 4) && U32Both(v)[4..] == BigEndian(v, 4);
    LittleEndianRoundTrip(v, 4);
    BigEndianRoundTrip(v, 4);
  }

  lemma U16BothRoundTrip(v: nat)
    requires v < 0x1_0000
    ensures LittleEndianValue(U16Both(v)[..2]) == v && BigEndianValue(U16Both(v)[2..]) == v
  {
    Pow256Widths();
    assert U16Both(v)[..2] == LittleEndian(v, 2) && U16Both(v)[2..] == BigEndian(v, 2);
    LittleEndianRoundTrip(v, 2);
    BigEndianRoundTrip(v, 2);
  }

  // ---------------------------------------------------------------------
  // Level 1 file identifiers
  // ---------------------------------------------------------------------

  predicate IsAsciiAlnum(c: char)
  {
    'A' <= c <= 'Z' || 'a' <= c <= 'z' || '0' <= c <= '9'
  }

  /** The characters a Level 1 name is made of, besides its `;1` suffix. */
  predicate IsLevel1Char(c: char)
  {
    'A' <= c <= 'Z' || '0' <= c <= '9' || c == '_' || c == '.'
  }

  function Level1Char(c: char): (r: char)
    ensures IsLevel1Char(r)
  {
    var u := AsciiUpperChar(c);
    if IsAsciiAlnum(u) || u == '_' || u == '.' then u else '_'
  }

  function Level1Sanitize(s: string): (r: string)
    ensures |r| == |s| && forall i | 0 <= i < |s| :: r[i] == Level1Char(s[i])
  {
    seq(|s|, i requires 0 <= i < |s| => Level1Char(s[i]))
  }

  /** `find('.')`: the position of the first dot. */
  function FindDot(s: string): (r: Option<nat>)
    ensures r.Some? ==> r.value < |s| && s[r.value] == '.' && forall i | 0 <= i < r.value :: s[i] != '.'
    ensures r.None? ==> forall i | 0 <= i < |s| :: s[i] != '.'
  {
    if |s| == 0 then None
    else if s[0] == '.' then Some(0)
    else match FindDot(s[1..])
      case None => None
      case Some(k) => Some(k + 1)
  }

  function Min(a: nat, b: nat): nat
  {
    if a < b then a else b
  }

  /** `to_level1_name`: upper-case the name, replace every character other
      than a letter, digit, `_` or `.` by `_`, keep at most 8 characters
      before the first dot and at most 3 after it, and add `;1`. */
  function ToLevel1Name(name: string): (r: string)
    ensures 2 <= |r| <= 14 && r[|r| - 2..] == ";1"
  {
    var s := Level1Sanitize(name);
    match FindDot(s)
    case Some(dot) => s[..Min(dot, 8)] + "." + s[dot + 1..Min(dot + 4, |s|)] + ";1"
    case None => s[..Min(|s|, 8)] + ";1"
  }

  /** The name ends in `;1`, is made of upper-case letters, digits, `_` and
      `.` before that, has at most 8 characters before its first dot and at
      most 3 between the dot and `;1`. */
  lemma Level1NameShape(name: string)
    ensures var r := ToLevel1Name(name);
      |r| >= 2 && r[|r| - 2..] == ";1" &&
      (forall i | 0 <= i < |r| - 2 :: IsLevel1Char(r[i])) &&
      match FindDot(r[..|r| - 2])
      case None => |r| - 2 <= 8
      case Some(k) => k <= 8 && |r| - 2 - (k + 1) <= 3
  {
    var s := Level1Sanitize(name);
    var r := ToLevel1Name(name);
    match FindDot(s)
    case Some(dot) =>
      var base := s[..Min(dot, 8)];
      var ext := s[dot + 1..Min(dot + 4, |s|)];
      assert r == base + "." + ext + ";1";
      assert r[..|r| - 2] == base + "." + ext;
      assert forall i | 0 <= i < |base| :: base[i] != '.';
      FindDotAfterBase(base, ext);
    case None =>
      assert r[..|r| - 2] == s[..Min(|s|, 8)];
      NoDotFound(s[..Min(|s|, 8)]);
  }

  /** A name without a dot keeps its first 8 characters, dashes made
      underscores. */
  lemma Level1NameOfMetaData()
    ensures ToLevel1Name("meta-data") == "META_DAT;1"
  {
    NoDotFound(Level1Sanitize("meta-data"));
  }

  /** An 8.3 name is kept whole, upper-cased. */
  lemma Level1NameOfEightThree()
    ensures ToLevel1Name("file.txt") == "FILE.TXT;1"
  {
    var s := Level1Sanitize("file.txt");
    SanitizeFileTxt();
    assert "FILE" + "." + "TXT" == s;
    FindDotAfterBase("FILE", "TXT");
    assert s[..4] == "FILE" && s[5..8] == "TXT";
  }

  lemma SanitizeFileTxt()
    ensures Level1Sanitize("file.txt") == "FILE.TXT"
  {
    assert Level1Char('f') == 'F' && Level1Char('i') == 'I' && Level1Char('l') == 'L' && Level1Char('e') == 'E';
    assert Level1Char('.') == '.' && Level1Char('t') == 'T' && Level1Char('x') == 'X';
  }

  lemma {:induction false} FindDotAfterBase(base: string, ext: string)
    requires forall i | 0 <= i < |base| :: base[i] != '.'
    ensures FindDot(base + "." + ext) == Some(|base|)
  {
    if |base| > 0 {
      assert (base + "." + ext)[1..] == base[1..] + "." + ext;
      FindDotAfterBase(base[1..], ext);
    }
  }

  lemma NoDotFound(s: string)
    requires forall i | 0 <= i < |s| :: s[i] != '.'
    ensures FindDot(s) == None
  {
  }

  // ---------------------------------------------------------------------
  // Directory records (section 9.1 of ECMA-119)
  // ---------------------------------------------------------------------

  /** The padding byte that keeps the system-use area at an even offset. */
  function NamePadding(nameLen: nat): nat
  {
    if nameLen % 2 == 0 then 1 else 0
  }

  function RecordLength(nameLen: nat, suLen: nat): nat
  {
    33 + nameLen + NamePadding(nameLen) + suLen
  }

  /** `dir_record`: the record for one file or directory, its system-use
      area `su` after the name. Its length is stored in one byte. */
  function DirRecord(extent: nat, size: nat, name: seq<byte>, isDir: bool, su: seq<byte>): (r: seq<byte>)
    requires extent < U32Limit && size < U32Limit
    requires RecordLength(|name|, |su|) < 256
    ensures |r| == RecordLength(|name|, |su|)
  {
    FixedFields(RecordLength(|name|, |su|) as byte, extent, size, isDir) + NameField(name) + su
  }

  /** The first 32 bytes of a record: its length, the extent and data
      length in both byte orders, seven zero bytes (date and time), the
      flags, unit size and gap, and volume sequence number 1. */
  function FixedFields(len: byte, extent: nat, size: nat, isDir: bool): (r: seq<byte>)
    requires extent < U32Limit && size < U32Limit
    ensures |r| == 32
  {
    [len, 0] + U32Both(extent) + U32Both(size) + Repeat(0, 7) + [if isDir then 0x02 else 0x00, 0, 0] + U16Both(1)
  }

  /** The name's length byte, the name, and a zero byte when the length
      is even. */
  function NameField(name: seq<byte>): (r: seq<byte>)
    requires |name| < 256
    ensures |r| == 1 + |name| + NamePadding(|name|)
  {
    [|name| as byte] + name + Repeat(0, NamePadding(|name|))
  }

  /** The record follows section 9.1 of ECMA-119: byte 0 is its own length,
      the extent and data length are stored in both byte orders, the flags
      byte is 0x02 exactly for a directory, the name follows its length byte
      at offset 33, and the system-use area starts at an even offset. */
  lemma DirRecordLayout(extent: nat, size: nat, name: seq<byte>, isDir: bool, su: seq<byte>)
    requires extent < U32Limit && size < U32Limit
    requires RecordLength(|name|, |su|) < 256
    ensures var r := DirRecord(extent, size, name, isDir, su);
      var suStart := 33 + |name| + NamePadding(|name|);
      |r| == RecordLength(|name|, |su|) && r[0] as nat == |r| &&
      r[2..10] == U32Both(extent) && r[10..18] == U32Both(size) && r[28..32] == U16Both(1) &&
      (r[25] == 0x02 <==> isDir) && (r[25] == 0x00 <==> !isDir) &&
      r[32] as nat == |name| && r[33..33 + |name|] == name &&
      suStart % 2 == 0 && r[suStart..] == su
  {
    var r := DirRecord(extent, size, name, isDir, su);
    var fixed := FixedFields(RecordLength(|name|, |su|) as byte, extent, size, isDir);
    var tail := NameField(name) + su;
    FixedPart(RecordLength(|name|, |su|) as byte, extent, size, isDir);
    TailPart(name, su);
    assert r == fixed + tail;
    JoinFields(fixed, tail, |name|, NamePadding(|name|));
    NamePaddingEven(|name|);
  }

  /** Where the fields of the first 32 bytes and of the name field land in
      the whole record. */
  lemma JoinFields(fixed: seq<byte>, tail: seq<byte>, nameLen: nat, pad: nat)
    requires |fixed| == 32 && 1 + nameLen + pad <= |tail|
    ensures var r := fixed + tail;
      r[0] == fixed[0] && r[2..10] == fixed[2..10] && r[10..18] == fixed[10..18] &&
      r[25] == fixed[25] && r[28..32] == fixed[28..32] && r[32] == tail[0] &&
      r[33..33 + nameLen] == tail[1..1 + nameLen] && r[33 + nameLen + pad..] == tail[1 + nameLen + pad..]
  {
    SliceOfLeft(fixed, tail, 2, 10);
    SliceOfLeft(fixed, tail, 10, 18);
    SliceOfLeft(fixed, tail, 28, 32);
    SliceOfRight(fixed, tail, 33, 33 + nameLen);
    SuffixOfRight(fixed, tail, 33 + nameLen + pad);
  }

  /** The system-use area starts at an even offset. */
  lemma NamePaddingEven(nameLen: nat)
    ensures (33 + nameLen + NamePadding(nameLen)) % 2 == 0
  {
  }

  /** A slice inside the right operand of a concatenation. */
  lemma SliceOfRight<T>(a: seq<T>, b: seq<T>, i: nat, j: nat)
    requires |a| <= i <= j <= |a| + |b|
    ensures (a + b)[i..j] == b[i - |a|..j - |a|]
  {
  }

  /** A suffix inside the right operand of a concatenation. */
  lemma SuffixOfRight<T>(a: seq<T>, b: seq<T>, i: nat)
    requires |a| <= i <= |a| + |b|
    ensures (a + b)[i..] == b[i - |a|..]
  {
  }

  /** The fields of the first 32 bytes, by position. */
  lemma FixedPart(len: byte, extent: nat, size: nat, isDir: bool)
    requires extent < U32Limit && size < U32Limit
    ensures var fixed := FixedFields(len, extent, size, isDir);
      |fixed| == 32 && fixed[0] == len && fixed[2..10] == U32Both(extent) && fixed[10..18] == U32Both(size) &&
      fixed[25] == (if isDir then 0x02 else 0x00) && fixed[28..32] == U16Both(1)
  {
    FixedPieces([len, 0], U32Both(extent), U32Both(size), Repeat(0, 7), [if isDir then 0x02 else 0x00, 0, 0], U16Both(1));
  }

  /** Where six runs of the fixed part's widths land once concatenated. */
  lemma FixedPieces(a: seq<byte>, b: seq<byte>, c: seq<byte>, d: seq<byte>, e: seq<byte>, f: seq<byte>)
    requires |a| == 2 && |b| == 8 && |c| == 8 && |d| == 7 && |e| == 3 && |f| == 4
    ensures var r := a + b + c + d + e + f;
      |r| == 32 && r[0] == a[0] && r[2..10] == b && r[10..18] == c && r[25] == e[0] && r[28..32] == f
  {
    var head := a + b + c;
    var rest := d + e + f;
    assert a + b + c + d + e + f == head + rest;
    assert head[2..10] == b && head[10..18] == c;
    SliceOfLeft(head, rest, 2, 10);
    SliceOfLeft(head, rest, 10, 18);
    SliceOfRight(head, rest, 28, 32);
    assert rest[10..14] == f;
  }

  /** The name field and the system-use area, by position. */
  lemma TailPart(name: seq<byte>, su: seq<byte>)
    requires |name| < 256
    ensures var tail := NameField(name) + su;
      tail[0] as nat == |name| && tail[1..1 + |name|] == name && tail[1 + |name| + NamePadding(|name|)..] == su
  {
  }

  /** A slice inside the left operand of a concatenation. */
  lemma SliceOfLeft<T>(a: seq<T>, b: seq<T>, i: nat, j: nat)
    requires i <= j <= |a|
    ensures (a + b)[i..j] == a[i..j]
  {
  }

  // ---------------------------------------------------------------------
  // SUSP and RRIP entries
  // ---------------------------------------------------------------------

  /** `susp_sp`: the SUSP indicator, check bytes 0xBE 0xEF (SUSP section 5.3). */
  function SuspSp(): (r: seq<byte>)
    ensures |r| == 7
  {
    [0x53, 0x50, 7, 1, 0xBE, 0xEF, 0]
  }

  /** `susp_ce`: a continuation-area pointer (SUSP section 5.1). */
  function SuspCe(block: nat, offset: nat, length: nat): (r: seq<byte>)
    requires block < U32Limit && offset < U32Limit && length < U32Limit
    ensures |r| == 28
  {
    [0x43, 0x45, 28, 1] + U32Both(block) + U32Both(offset) + U32Both(length)
  }

  /** The fields of a CE entry: signature, then block, offset and length
      each in both byte orders. */
  lemma SuspCeFields(block: nat, offset: nat, length: nat)
    requires block < U32Limit && offset < U32Limit && length < U32Limit
    ensures var r := SuspCe(block, offset, length);
      Holds(r, 0, [0x43, 0x45, 28, 1]) && Holds(r, 4, U32Both(block)) &&
      Holds(r, 12, U32Both(offset)) && Holds(r, 20, U32Both(length))
  {
    var head := [0x43, 0x45, 28, 1] + U32Both(block);
    var mid := head + U32Both(offset);
    assert SuspCe(block, offset, length) == mid + U32Both(length);
    assert mid[..12] == head;
  }

  const ErId := "RRIP_1991A"
  const ErDescriptor := "THE ROCK RIDGE INTERCHANGE PROTOCOL PROVIDES SUPPORT FOR POSIX FILE SYSTEM SEMANTICS"
  const ErSource := "PLEASE CONTACT DISC PUBLISHER FOR SPECIFICATION SOURCE.  SEE PUBLISHER IDENTIFIER IN PRIMARY VOLUME DESCRIPTOR FOR CONTACT INFORMATION."

  /** The length of the ER entry. */
  const ErLength: nat := 237

  /** `susp_er`: the extension reference naming Rock Ridge. */
  function SuspEr(): (r: seq<byte>)
  {
    var total := 8 + |ErId| + |ErDescriptor| + |ErSource|;
    [0x45, 0x52, total as byte, 1, |ErId| as byte, |ErDescriptor| as byte, |ErSource| as byte, 1]
    + AsciiBytes(ErId) + AsciiBytes(ErDescriptor) + AsciiBytes(ErSource)
  }

  /** The ER entry is 237 bytes, its length byte says so, and it carries the
      identifier `RRIP_1991A` after its 8-byte header. */
  lemma SuspErLayout()
    ensures |SuspEr()| == ErLength && SuspEr()[2] as nat == ErLength
    ensures SuspEr()[8..18] == AsciiBytes("RRIP_1991A")
  {
    assert |ErId| == 10 && |ErDescriptor| == 84 && |ErSource| == 135;
  }

  /** `rrip_nm`: the alternate name, complete in one entry (RRIP section 4.1.4). */
  function RripNm(name: seq<byte>): (r: seq<byte>)
    requires 5 + |name| < 256
    ensures |r| == 5 + |name| && r[5..] == name && r[2] as nat == |r|
  {
    [0x4E, 0x4D, (5 + |name|) as byte, 1, 0] + name
  }

  /** `rrip_px`: POSIX mode and link count, uid, gid and serial zero (RRIP
      section 4.1.1). */
  function RripPx(mode: nat, nlinks: nat): (r: seq<byte>)
    requires mode < U32Limit && nlinks < U32Limit
    ensures |r| == 44 && r[2] == 44
  {
    [0x50, 0x58, 44, 1] + U32Both(mode) + U32Both(nlinks) + Repeat(0, 24)
  }

  lemma RripPxMode(mode: nat, nlinks: nat)
    requires mode < U32Limit && nlinks < U32Limit
    ensures RripPx(mode, nlinks)[4..12] == U32Both(mode) && RripPx(mode, nlinks)[12..20] == U32Both(nlinks)
  {
    var r := RripPx(mode, nlinks);
    var head := [0x50, 0x58, 44, 1] + U32Both(mode) + U32Both(nlinks);
    assert r[4..12] == head[4..12];
    assert r[12..20] == head[12..20];
  }

  // ---------------------------------------------------------------------
  // Volume descriptors and path tables
  // ---------------------------------------------------------------------

  /** `write_fixed_dir_record`: the stores it makes for a record without a
      system-use area, starting at `at`. */
  function FixedRecordFacts(at: nat, extent: nat, size: nat, name: seq<byte>, isDir: bool): seq<Fact>
    requires extent < U32Limit && size < U32Limit && RecordLength(|name|, 0) < 256
  {
    [(at, [RecordLength(|name|, 0) as byte]), (at + 2, U32Both(extent)), (at + 10, U32Both(size)),
     (at + 25, [if isDir then 0x02 else 0x00]), (at + 28, U16Both(1)), (at + 32, [|name| as byte]),
     (at + 33, name)]
  }

  /** The record `dir_record` builds for the same entry with an empty
      system-use area holds every store of the fixed record. */
  lemma FixedRecordAgrees(extent: nat, size: nat, name: seq<byte>, isDir: bool)
    requires extent < U32Limit && size < U32Limit && RecordLength(|name|, 0) < 256
    ensures AllHold(DirRecord(extent, size, name, isDir, []), FixedRecordFacts(0, extent, size, name, isDir))
  {
    var r := DirRecord(extent, size, name, isDir, []);
    var f := FixedRecordFacts(0, extent, size, name, isDir);
    forall i | 0 <= i < |f|
      ensures Holds(r, f[i].0, f[i].1)
    {
      DirRecordLayout(extent, size, name, isDir, []);
      if i == 0 {
        assert r[0..1] == [r[0]];
      } else if i == 3 {
        assert r[25..26] == [r[25]];
      } else if i == 5 {
        assert r[32..33] == [r[32]];
      }
    }
  }

  lemma FixedRecordOrdered(at: nat, extent: nat, size: nat, name: seq<byte>, isDir: bool)
    requires extent < U32Limit && size < U32Limit && RecordLength(|name|, 0) < 256
    ensures Ordered(FixedRecordFacts(at, extent, size, name, isDir), at, at + 33 + |name|)
  {
  }

  /** `write_pvd`: the primary volume descriptor at sector 16 (section 8.4 of
      ECMA-119): its header, identifiers, numbers, the root directory's
      record and the space-filled identifier fields with the file structure
      version. */
  function PvdFacts(vid: seq<byte>, totalSectors: nat, rootDirSector: nat): seq<Fact>
    requires |vid| <= 32 && totalSectors < U32Limit && rootDirSector < U32Limit
  {
    PvdHeader()
    + PvdIdentifiers(vid)
    + PvdNumbers(totalSectors)
    + FixedRecordFacts(PvdSector * SectorSize + 156, rootDirSector, SectorSize, [0], true)
    + PvdTail()
  }

  /** Descriptor type 1, the standard identifier and the descriptor version. */
  function PvdHeader(): seq<Fact>
  {
    var b := PvdSector * SectorSize;
    [(b, [1]), (b + 1, Cd001), (b + 6, [1])]
  }

  /** The space-filled identifier fields and the file structure version. */
  function PvdTail(): seq<Fact>
  {
    var b := PvdSector * SectorSize;
    [(b + 190, Repeat(Space, 624)), (b + 881, [1])]
  }

  /** The system identifier, all spaces, and the volume identifier padded
      with spaces. Filling the field with spaces and then copying the
      identifier over it is the single run `vid` followed by spaces. */
  function PvdIdentifiers(vid: seq<byte>): seq<Fact>
    requires |vid| <= 32
  {
    var b := PvdSector * SectorSize;
    [(b + 8, Repeat(Space, 32)), (b + 40, vid + Repeat(Space, 32 - |vid|))]
  }

  /** Volume space size, set size, sequence number, block size, path table
      size and the two path tables' locations. */
  function PvdNumbers(totalSectors: nat): seq<Fact>
    requires totalSectors < U32Limit
  {
    Pow256Widths();
    var b := PvdSector * SectorSize;
    [(b + 80, U32Both(totalSectors)),
     (b + 120, U16Both(1)), (b + 124, U16Both(1)), (b + 128, U16Both(SectorSize)),
     (b + 132, U32Both(10)), (b + 140, LittleEndian(LPathTableSector, 4)), (b + 148, BigEndian(MPathTableSector, 4))]
  }

  lemma PvdNumbersOrdered(totalSectors: nat)
    requires totalSectors < U32Limit
    ensures Ordered(PvdNumbers(totalSectors), PvdSector * SectorSize + 80, PvdSector * SectorSize + 156)
  {
    Pow256Widths();
    var b := PvdSector * SectorSize;
    var g1: seq<Fact> := [(b + 80, U32Both(totalSectors)), (b + 120, U16Both(1)), (b + 124, U16Both(1))];
    var g2: seq<Fact> := [(b + 128, U16Both(SectorSize)), (b + 132, U32Both(10))];
    var g3: seq<Fact> := [(b + 140, LittleEndian(LPathTableSector, 4)), (b + 148, BigEndian(MPathTableSector, 4))];
    assert Ordered(g1, b + 80, b + 128);
    assert Ordered(g2, b + 128, b + 140);
    assert Ordered(g3, b + 140, b + 156);
    OrderedConcat(g1, g2, b + 80, b + 128, b + 140);
    OrderedConcat(g1 + g2, g3, b + 80, b + 140, b + 156);
    assert PvdNumbers(totalSectors) == g1 + g2 + g3;
  }

  lemma PvdOrdered(vid: seq<byte>, totalSectors: nat, rootDirSector: nat)
    requires |vid| <= 32 && totalSectors < U32Limit && rootDirSector < U32Limit
    ensures Ordered(PvdFacts(vid, totalSectors, rootDirSector), PvdSector * SectorSize, (PvdSector + 1) * SectorSize)
  {
    var b := PvdSector * SectorSize;
    var header: seq<Fact> := [(b, [1]), (b + 1, Cd001), (b + 6, [1])];
    var rec := FixedRecordFacts(b + 156, rootDirSector, SectorSize, [0], true);
    var tail: seq<Fact> := [(b + 190, Repeat(Space, 624)), (b + 881, [1])];
    assert Ordered(header, b, b + 8);
    assert Ordered(PvdIdentifiers(vid), b + 8, b + 80);
    PvdNumbersOrdered(totalSectors);
    FixedRecordOrdered(b + 156, rootDirSector, SectorSize, [0], true);
    assert Ordered(tail, b + 190, b + SectorSize);
    OrderedConcat(header, PvdIdentifiers(vid), b, b + 8, b + 80);
    OrderedConcat(header + PvdIdentifiers(vid), PvdNumbers(totalSectors), b, b + 80, b + 156);
    OrderedConcat(header + PvdIdentifiers(vid) + PvdNumbers(totalSectors), rec, b, b + 156, b + 190);
    OrderedConcat(header + PvdIdentifiers(vid) + PvdNumbers(totalSectors) + rec, tail, b, b + 190, b + SectorSize);
  }

  method WritePvd(a: array<byte>, volumeId: string, totalSectors: nat, rootDirSector: nat)
    requires (PvdSector + 1) * SectorSize <= a.Length
    requires |Utf8(volumeId)| <= 32 && totalSectors < U32Limit && rootDirSector < U32Limit
    modifies a
    ensures AllHold(a[..], PvdFacts(Utf8(volumeId), totalSectors, rootDirSector))
    ensures Outside(a[..], old(a[..]), PvdSector * SectorSize, (PvdSector + 1) * SectorSize)
    ensures Only(a[..], old(a[..]), PvdFacts(Utf8(volumeId), totalSectors, rootDirSector))
  {
    PvdOrdered(Utf8(volumeId), totalSectors, rootDirSector);
    WriteAll(a, PvdFacts(Utf8(volumeId), totalSectors, rootDirSector), PvdSector * SectorSize, (PvdSector + 1) * SectorSize);
  }

  /** `write_vdst`: the volume descriptor set terminator at sector 17
      (section 8.3 of ECMA-119). */
  function VdstFacts(): seq<Fact>
  {
    var b := TerminatorSector * SectorSize;
    [(b, [255]), (b + 1, Cd001), (b + 6, [1])]
  }

  method WriteVdst(a: array<byte>)
    requires (TerminatorSector + 1) * SectorSize <= a.Length
    modifies a
    ensures AllHold(a[..], VdstFacts())
    ensures Outside(a[..], old(a[..]), TerminatorSector * SectorSize, (TerminatorSector + 1) * SectorSize)
    ensures Only(a[..], old(a[..]), VdstFacts())
  {
    WriteAll(a, VdstFacts(), TerminatorSector * SectorSize, (TerminatorSector + 1) * SectorSize);
  }

  datatype Endian = Little | Big

  /** `to_le_bytes` or `to_be_bytes`. */
  function Encode(e: Endian, v: nat, width: nat): (r: seq<byte>)
    requires v < Pow256(width)
    ensures |r| == width
  {
    match e
    case Little => LittleEndian(v, width)
    case Big => BigEndian(v, width)
  }

  function Decode(e: Endian, b: seq<byte>): nat
  {
    match e
    case Little => LittleEndianValue(b)
    case Big => BigEndianValue(b)
  }

  lemma EncodeRoundTrip(e: Endian, v: nat, width: nat)
    requires v < Pow256(width)
    ensures Decode(e, Encode(e, v, width)) == v
  {
    match e
    case Little => LittleEndianRoundTrip(v, width);
    case Big => BigEndianRoundTrip(v, width);
  }

  /** `write_path_table`: the one 10-byte entry of the root directory at the
      start of `sector` (section 9.4 of ECMA-119), in byte order `e`. */
  function PathTableFacts(sector: nat, rootExtent: nat, e: Endian): seq<Fact>
    requires rootExtent < U32Limit
  {
    Pow256Widths();
    var b := sector * SectorSize;
    [(b, [1]), (b + 1, [0]), (b + 2, Encode(e, rootExtent, 4)), (b + 6, Encode(e, 1, 2)), (b + 8, [0]), (b + 9, [0])]
  }

  method WritePathTable(a: array<byte>, sector: nat, rootExtent: nat, e: Endian)
    requires rootExtent < U32Limit && sector * SectorSize + 10 <= a.Length
    modifies a
    ensures AllHold(a[..], PathTableFacts(sector, rootExtent, e))
    ensures Outside(a[..], old(a[..]), sector * SectorSize, sector * SectorSize + 10)
    ensures Only(a[..], old(a[..]), PathTableFacts(sector, rootExtent, e))
  {
    WriteAll(a, PathTableFacts(sector, rootExtent, e), sector * SectorSize, sector * SectorSize + 10);
  }

  // ---------------------------------------------------------------------
  // The root directory (sector 20) and its continuation area (sector 21)
  // ---------------------------------------------------------------------

  /** The system-use area of the "." record: the SUSP indicator and a
      pointer to an ER entry of `erLength` bytes at the start of sector
      `ceSector`. */
  function DotSystemUse(ceSector: nat, erLength: nat): (r: seq<byte>)
    requires ceSector < U32Limit && erLength < U32Limit
    ensures |r| == 35
  {
    SuspSp() + SuspCe(ceSector, 0, erLength)
  }

  /** The "." record: the root directory itself, name byte 0x00. */
  function DotRecord(rootSector: nat, ceSector: nat, erLength: nat): (r: seq<byte>)
    requires rootSector < U32Limit && ceSector < U32Limit && erLength < U32Limit
    ensures |r| == 69
  {
    DirRecord(rootSector, SectorSize, [0], true, DotSystemUse(ceSector, erLength))
  }

  /** The ".." record: the root is its own parent, name byte 0x01. */
  function DotDotRecord(rootSector: nat): (r: seq<byte>)
    requires rootSector < U32Limit
    ensures |r| == 34
  {
    DirRecord(rootSector, SectorSize, [1], true, [])
  }

  /** The system-use area of a file's record: its real name (NM) and its
      POSIX attributes (PX). */
  function FileSystemUse(name: seq<byte>): (r: seq<byte>)
    requires 5 + |name| < 256
    ensures |r| == |name| + 49
  {
    RripNm(name) + RripPx(FileMode, 1)
  }

  /** A file's record fits the one-byte record length. */
  predicate FileRecordFits(f: IsoFile)
  {
    RecordLength(|Utf8(ToLevel1Name(f.name))|, 5 + |Utf8(f.name)| + 44) < 256
  }

  predicate AllFit(files: seq<IsoFile>)
  {
    forall i | 0 <= i < |files| :: FileRecordFits(files[i])
  }

  /** The record of one file: its Level 1 name, its start sector and length
      cast to `u32`, and its Rock Ridge entries. */
  function FileRecord(f: IsoFile, sector: nat, size: nat): (r: seq<byte>)
    requires FileRecordFits(f)
    ensures |r| == RecordLength(|Utf8(ToLevel1Name(f.name))|, 5 + |Utf8(f.name)| + 44)
  {
    var name := Utf8(ToLevel1Name(f.name));
    var su := FileSystemUse(Utf8(f.name));
    DirRecordLayout(ToU32(sector), ToU32(size), name, false, su);
    DirRecord(ToU32(sector), ToU32(size), name, false, su)
  }

  /** Byte runs end to end. */
  function Flatten(runs: seq<seq<byte>>): seq<byte>
  {
    if |runs| == 0 then [] else Flatten(runs[..|runs| - 1]) + runs[|runs| - 1]
  }

  lemma FlattenStep(runs: seq<seq<byte>>, i: nat)
    requires i < |runs|
    ensures Flatten(runs[..i + 1]) == Flatten(runs[..i]) + runs[i]
  {
    assert runs[..i + 1][..i] == runs[..i];
  }

  lemma {:induction false} FlattenPrefix(runs: seq<seq<byte>>, i: nat)
    requires i <= |runs|
    ensures |Flatten(runs[..i])| <= |Flatten(runs)|
    decreases |runs| - i
  {
    if i < |runs| {
      FlattenPrefix(runs, i + 1);
      FlattenStep(runs, i);
    } else {
      assert runs[..i] == runs;
    }
  }

  /** Each file's record, in input order. */
  function FileRecordList(files: seq<IsoFile>, layout: seq<(nat, nat)>): (r: seq<seq<byte>>)
    requires |layout| == |files| && AllFit(files)
    ensures |r| == |files|
  {
    seq(|files|, i requires 0 <= i < |files| => FileRecord(files[i], layout[i].0, layout[i].1))
  }

  /** The records of the root directory's extent: ".", ".." and the files. */
  function RootRecords(rootSector: nat, ceSector: nat, erLength: nat, files: seq<IsoFile>, layout: seq<(nat, nat)>): (r: seq<seq<byte>>)
    requires rootSector < U32Limit && ceSector < U32Limit && erLength < U32Limit
    requires |layout| == |files| && AllFit(files)
    ensures |r| == |files| + 2
  {
    [DotRecord(rootSector, ceSector, erLength), DotDotRecord(rootSector)] + FileRecordList(files, layout)
  }

  /** The root directory's extent as `write_root_directory` packs it: the
      records end to end. */
  function RootDirectory(rootSector: nat, ceSector: nat, erLength: nat, files: seq<IsoFile>, layout: seq<(nat, nat)>): seq<byte>
    requires rootSector < U32Limit && ceSector < U32Limit && erLength < U32Limit
    requires |layout| == |files| && AllFit(files)
  {
    Flatten(RootRecords(rootSector, ceSector, erLength, files, layout))
  }

  /** Two writes one after the other make one run. */
  lemma Append(s0: seq<byte>, s1: seq<byte>, s2: seq<byte>, at: nat, w: seq<byte>, b: seq<byte>)
    requires Holds(s1, at, w) && Outside(s1, s0, at, at + |w|)
    requires Holds(s2, at + |w|, b) && Outside(s2, s1, at + |w|, at + |w| + |b|)
    ensures Holds(s2, at, w + b) && Outside(s2, s0, at, at + |w + b|)
  {
    HoldsKept(s1, s2, at + |w|, at + |w| + |b|, at, w);
    HoldsConcat(s2, at, w, b);
    OutsideGrow(s1, s0, at, at + |w| + |b|, at, at + |w|);
    OutsideGrow(s2, s1, at, at + |w| + |b|, at + |w|, at + |w| + |b|);
  }

  /** Copies each run where the previous one ended. */
  method WriteRuns(a: array<byte>, start: nat, runs: seq<seq<byte>>)
    requires start + |Flatten(runs)| <= a.Length
    modifies a
    ensures Holds(a[..], start, Flatten(runs))
    ensures Outside(a[..], old(a[..]), start, start + |Flatten(runs)|)
  {
    ghost var s0 := a[..];
    var pos := start;
    ghost var written: seq<byte> := [];
    var i := 0;
    while i < |runs|
      invariant i <= |runs|
      invariant written == Flatten(runs[..i])
      invariant pos == start + |written| <= start + |Flatten(runs)|
      invariant Holds(a[..], start, written) && Outside(a[..], s0, start, pos)
    {
      FlattenStep(runs, i);
      FlattenPrefix(runs, i + 1);
      ghost var s1 := a[..];
      CopyInto(a, pos, runs[i]);
      Append(s0, s1, a[..], start, written, runs[i]);
      written := written + runs[i];
      pos := pos + |runs[i]|;
      i := i + 1;
    }
    assert runs[..i] == runs;
  }

  /** `write_root_directory`: the "." record, the ".." record, then one
      record per file, each copied where the previous one ended. */
  method WriteRootDirectory(a: array<byte>, rootSector: nat, ceSector: nat, erEntry: seq<byte>,
                            files: seq<IsoFile>, layout: seq<(nat, nat)>)
    requires rootSector < U32Limit && ceSector < U32Limit && |erEntry| < U32Limit
    requires |layout| == |files| && AllFit(files)
    requires rootSector * SectorSize + |RootDirectory(rootSector, ceSector, |erEntry|, files, layout)| <= a.Length
    modifies a
    ensures Holds(a[..], rootSector * SectorSize, RootDirectory(rootSector, ceSector, |erEntry|, files, layout))
    ensures Outside(a[..], old(a[..]), rootSector * SectorSize,
                    rootSector * SectorSize + |RootDirectory(rootSector, ceSector, |erEntry|, files, layout)|)
    ensures Only(a[..], old(a[..]), [(rootSector * SectorSize, RootDirectory(rootSector, ceSector, |erEntry|, files, layout))])
  {
    WriteRuns(a, rootSector * SectorSize, RootRecords(rootSector, ceSector, |erEntry|, files, layout));
    OnlyOne(a[..], old(a[..]), rootSector * SectorSize, RootDirectory(rootSector, ceSector, |erEntry|, files, layout));
  }

  // ---------------------------------------------------------------------
  // The whole image
  // ---------------------------------------------------------------------

  /** Where each file's data goes and how long it is. */
  function Layout(files: seq<IsoFile>): (r: seq<(nat, nat)>)
    ensures |r| == |files|
  {
    seq(|files|, i requires 0 <= i < |files| => (FileStart(files, i), |files[i].data|))
  }

  /** Each file's data at the start of its run of sectors. */
  function FileFacts(files: seq<IsoFile>): (r: seq<Fact>)
    ensures |r| == |files|
  {
    seq(|files|, i requires 0 <= i < |files| => (FileStart(files, i) * SectorSize, files[i].data))
  }

  /** The file's data ends within its run, and its run within the image. */
  lemma FileFitsImage(files: seq<IsoFile>, i: nat)
    requires i < |files|
    ensures FirstFileSector <= FileStart(files, i)
    ensures FileStart(files, i) * SectorSize + |files[i].data| <= FileStart(files, i + 1) * SectorSize
    ensures FileStart(files, i + 1) <= TotalSectors(files)
  {
    FileRunsConsecutive(files, i);
    FileStartMonotone(files, i + 1, |files|);
    assert files[..|files|] == files;
  }

  /** The last loop of `build_iso`: each file's data copied to the start of
      its run, the runs taken from the layout. */
  method WriteFiles(a: array<byte>, files: seq<IsoFile>, layout: seq<(nat, nat)>)
    requires layout == Layout(files) && TotalSectors(files) * SectorSize <= a.Length
    modifies a
    ensures AllHold(a[..], FileFacts(files))
    ensures Within(FileFacts(files), FirstFileSector * SectorSize, TotalSectors(files) * SectorSize)
    ensures Outside(a[..], old(a[..]), FirstFileSector * SectorSize, TotalSectors(files) * SectorSize)
    ensures Only(a[..], old(a[..]), FileFacts(files))
  {
    ghost var s0 := a[..];
    ghost var x := FirstFileSector * SectorSize;
    ghost var end := x;
    var i := 0;
    while i < |files|
      invariant i <= |files|
      invariant x <= end <= FileStart(files, i) * SectorSize <= TotalSectors(files) * SectorSize
      invariant AllHold(a[..], FileFacts(files)[..i]) && Within(FileFacts(files)[..i], x, end)
      invariant Outside(a[..], s0, x, end)
      invariant Only(a[..], s0, FileFacts(files)[..i])
    {
      FileFitsImage(files, i);
      var offset := layout[i].0 * SectorSize;
      ghost var s1 := a[..];
      CopyInto(a, offset, files[i].data);
      Step(s0, s1, a[..], FileFacts(files)[..i], x, end, offset, files[i].data);
      OnlyOne(a[..], s1, offset, files[i].data);
      OnlyThen(s0, s1, a[..], FileFacts(files)[..i], [(offset, files[i].data)]);
      assert FileFacts(files)[..i + 1] == FileFacts(files)[..i] + [(offset, files[i].data)];
      end := offset + |files[i].data|;
      i := i + 1;
    }
    assert FileFacts(files)[..i] == FileFacts(files);
    if |files| == 0 {
      assert TotalSectors(files) == FirstFileSector;
    }
    OutsideGrow(a[..], s0, x, TotalSectors(files) * SectorSize, x, end);
  }

  /** The primary volume descriptor and the terminator after it. */
  function VolumeDescriptorFacts(vid: seq<byte>, totalSectors: nat): seq<Fact>
    requires |vid| <= 32 && totalSectors < U32Limit
  {
    PvdFacts(vid, totalSectors, RootSector) + VdstFacts()
  }

  method WriteVolumeDescriptors(a: array<byte>, volumeId: string, totalSectors: nat)
    requires |Utf8(volumeId)| <= 32 && totalSectors < U32Limit
    requires (TerminatorSector + 1) * SectorSize <= a.Length
    modifies a
    ensures AllHold(a[..], VolumeDescriptorFacts(Utf8(volumeId), totalSectors))
    ensures Within(VolumeDescriptorFacts(Utf8(volumeId), totalSectors), PvdSector * SectorSize, (TerminatorSector + 1) * SectorSize)
    ensures Outside(a[..], old(a[..]), PvdSector * SectorSize, (TerminatorSector + 1) * SectorSize)
    ensures Only(a[..], old(a[..]), VolumeDescriptorFacts(Utf8(volumeId), totalSectors))
  {
    ghost var s0 := a[..];
    WritePvd(a, volumeId, totalSectors, RootSector);
    PvdOrdered(Utf8(volumeId), totalSectors, RootSector);
    ghost var s1 := a[..];
    WriteVdst(a);
    OnlyThen(s0, s1, a[..], PvdFacts(Utf8(volumeId), totalSectors, RootSector), VdstFacts());
    StepMany(s0, s1, a[..], PvdFacts(Utf8(volumeId), totalSectors, RootSector), PvdSector * SectorSize, (PvdSector + 1) * SectorSize,
             VdstFacts(), TerminatorSector * SectorSize, (TerminatorSector + 1) * SectorSize);
  }

  /** The L and M path tables, each naming the root directory's sector. */
  function PathTablesFacts(): seq<Fact>
  {
    PathTableFacts(LPathTableSector, RootSector, Little) + PathTableFacts(MPathTableSector, RootSector, Big)
  }

  method WritePathTables(a: array<byte>)
    requires MPathTableSector * SectorSize + 10 <= a.Length
    modifies a
    ensures AllHold(a[..], PathTablesFacts())
    ensures Within(PathTablesFacts(), LPathTableSector * SectorSize, MPathTableSector * SectorSize + 10)
    ensures Outside(a[..], old(a[..]), LPathTableSector * SectorSize, MPathTableSector * SectorSize + 10)
    ensures Only(a[..], old(a[..]), PathTablesFacts())
  {
    ghost var s0 := a[..];
    WritePathTable(a, LPathTableSector, RootSector, Little);
    ghost var s1 := a[..];
    WritePathTable(a, MPathTableSector, RootSector, Big);
    OnlyThen(s0, s1, a[..], PathTableFacts(LPathTableSector, RootSector, Little), PathTableFacts(MPathTableSector, RootSector, Big));
    StepMany(s0, s1, a[..], PathTableFacts(LPathTableSector, RootSector, Little), LPathTableSector * SectorSize, LPathTableSector * SectorSize + 10,
             PathTableFacts(MPathTableSector, RootSector, Big), MPathTableSector * SectorSize, MPathTableSector * SectorSize + 10);
  }

  /** The volume descriptors and both path tables. */
  function DescriptorFacts(vid: seq<byte>, totalSectors: nat): seq<Fact>
    requires |vid| <= 32 && totalSectors < U32Limit
  {
    VolumeDescriptorFacts(vid, totalSectors) + PathTablesFacts()
  }

  /** The first writes of `build_iso`: the primary volume descriptor, the
      terminator and the L and M path tables. */
  method WriteDescriptors(a: array<byte>, volumeId: string, totalSectors: nat)
    requires |Utf8(volumeId)| <= 32 && totalSectors < U32Limit
    requires (MPathTableSector + 1) * SectorSize <= a.Length
    modifies a
    ensures AllHold(a[..], DescriptorFacts(Utf8(volumeId), totalSectors))
    ensures Within(DescriptorFacts(Utf8(volumeId), totalSectors), PvdSector * SectorSize, MPathTableSector * SectorSize + 10)
    ensures Outside(a[..], old(a[..]), PvdSector * SectorSize, MPathTableSector * SectorSize + 10)
    ensures Only(a[..], old(a[..]), DescriptorFacts(Utf8(volumeId), totalSectors))
  {
    ghost var s0 := a[..];
    WriteVolumeDescriptors(a, volumeId, totalSectors);
    ghost var s1 := a[..];
    WritePathTables(a);
    OnlyThen(s0, s1, a[..], VolumeDescriptorFacts(Utf8(volumeId), totalSectors), PathTablesFacts());
    StepMany(s0, s1, a[..], VolumeDescriptorFacts(Utf8(volumeId), totalSectors), PvdSector * SectorSize, (TerminatorSector + 1) * SectorSize,
             PathTablesFacts(), LPathTableSector * SectorSize, MPathTableSector * SectorSize + 10);
  }

  /** The root directory in sector 20 and the ER entry in sector 21. */
  function DirectoryFacts(files: seq<IsoFile>): seq<Fact>
    requires AllFit(files)
  {
    [(RootSector * SectorSize, RootDirectory(RootSector, ContinuationSector, ErLength, files, Layout(files))),
     (ContinuationSector * SectorSize, SuspEr())]
  }

  /** The middle writes of `build_iso`: the root directory, whose "." record
      points at the ER entry, and the ER entry itself. */
  method WriteDirectory(a: array<byte>, files: seq<IsoFile>, layout: seq<(nat, nat)>)
    requires AllFit(files) && layout == Layout(files)
    requires |RootDirectory(RootSector, ContinuationSector, ErLength, files, layout)| <= SectorSize
    requires (ContinuationSector + 1) * SectorSize <= a.Length
    modifies a
    ensures AllHold(a[..], DirectoryFacts(files))
    ensures Within(DirectoryFacts(files), RootSector * SectorSize, ContinuationSector * SectorSize + ErLength)
    ensures Outside(a[..], old(a[..]), RootSector * SectorSize, ContinuationSector * SectorSize + ErLength)
    ensures Only(a[..], old(a[..]), DirectoryFacts(files))
  {
    ghost var s0 := a[..];
    var erEntry := SuspEr();
    SuspErLayout();
    WriteRootDirectory(a, RootSector, ContinuationSector, erEntry, files, layout);
    ghost var root := RootDirectory(RootSector, ContinuationSector, ErLength, files, layout);
    ghost var s1 := a[..];
    CopyInto(a, ContinuationSector * SectorSize, erEntry);
    TwoWrites(s0, s1, a[..], RootSector * SectorSize, root, ContinuationSector * SectorSize, erEntry);
    OnlyOne(a[..], s1, ContinuationSector * SectorSize, erEntry);
    OnlyPair(s0, s1, a[..], RootSector * SectorSize, root, ContinuationSector * SectorSize, erEntry);
  }

  /** The runs the finished image holds. */
  function ImageFacts(volumeId: string, files: seq<IsoFile>): seq<Fact>
    requires |volumeId| <= 32 && IsAscii(volumeId) && AllFit(files)
  {
    Utf8OfAscii(volumeId);
    DescriptorFacts(Utf8(volumeId), ToU32(TotalSectors(files))) + DirectoryFacts(files) + FileFacts(files)
  }

  /** `build_iso`: lay the files out, allocate the zeroed image, write the
      volume descriptors, both path tables, the root directory, the ER entry
      in the continuation sector and the files' data. The caller must pass
      an ASCII volume identifier of at most 32 bytes and files whose records
      fit in the root directory's one sector. */
  method BuildIso(volumeId: string, files: seq<IsoFile>) returns (iso: array<byte>)
    requires |volumeId| <= 32 && IsAscii(volumeId)
    requires AllFit(files)
    requires |RootDirectory(RootSector, ContinuationSector, ErLength, files, Layout(files))| <= SectorSize
    ensures fresh(iso)
    ensures iso.Length == TotalSectors(files) * SectorSize
    ensures iso[..PvdSector * SectorSize] == Repeat(0, PvdSector * SectorSize)
    ensures AllHold(iso[..], ImageFacts(volumeId, files))
    // every byte no run covers is still zero: in particular the rest of
    // the root directory's sector, where a reader stops at a zero length,
    // and the rest of the continuation sector
    ensures ZeroOutside(iso[..], ImageFacts(volumeId, files))
    ensures Holds(iso[..], RootEnd(files), Repeat(0, ContinuationSector * SectorSize - RootEnd(files)))
    ensures Holds(iso[..], ContinuationSector * SectorSize + ErLength, Repeat(0, SectorSize - ErLength))
  {
    var layout, total := PlanLayout(files);
    ImageSize(files);
    iso := ZeroImage(total * SectorSize);
    ghost var s0 := iso[..];
    WriteImage(iso, volumeId, files, layout);
    ZerosRemain(s0, iso[..], volumeId, files);
  }

  /** `vec![0u8; n]`: a fresh, zero-filled image. */
  method ZeroImage(n: nat) returns (a: array<byte>)
    ensures fresh(a) && a.Length == n && a[..] == Repeat(0, n)
  {
    a := new byte[n](_ => 0);
  }

  /** The writes of `build_iso` into the allocated image, in order: the
      volume descriptors and path tables, the root directory and ER entry,
      the files' data. The system area before sector 16 is left as it was. */
  method WriteImage(iso: array<byte>, volumeId: string, files: seq<IsoFile>, layout: seq<(nat, nat)>)
    requires |volumeId| <= 32 && IsAscii(volumeId) && AllFit(files) && layout == Layout(files)
    requires |RootDirectory(RootSector, ContinuationSector, ErLength, files, layout)| <= SectorSize
    requires iso.Length == TotalSectors(files) * SectorSize
    modifies iso
    ensures iso[..PvdSector * SectorSize] == old(iso[..PvdSector * SectorSize])
    ensures AllHold(iso[..], ImageFacts(volumeId, files))
    ensures Only(iso[..], old(iso[..]), ImageFacts(volumeId, files))
    ensures iso[RootEnd(files)..ContinuationSector * SectorSize] == old(iso[RootEnd(files)..ContinuationSector * SectorSize])
    ensures iso[ContinuationSector * SectorSize + ErLength..FirstFileSector * SectorSize]
         == old(iso[ContinuationSector * SectorSize + ErLength..FirstFileSector * SectorSize])
  {
    Utf8OfAscii(volumeId);
    ImageSize(files);
    ghost var s0 := iso[..];
    WriteDescriptors(iso, volumeId, ToU32(TotalSectors(files)));
    ghost var s1 := iso[..];
    WriteDirectory(iso, files, layout);
    ghost var s2 := iso[..];
    WriteFiles(iso, files, layout);
    ImageWrites(s0, s1, s2, iso[..], volumeId, files);
    OnlyThen(s0, s1, s2, DescriptorFacts(Utf8(volumeId), ToU32(TotalSectors(files))), DirectoryFacts(files));
    OnlyThen(s0, s2, iso[..], DescriptorFacts(Utf8(volumeId), ToU32(TotalSectors(files))) + DirectoryFacts(files), FileFacts(files));
    GapsKept(s0, iso[..], volumeId, files);
    assert s0[..PvdSector * SectorSize] == old(iso[..PvdSector * SectorSize]);
  }

  /** Where the root directory's records end. */
  function RootEnd(files: seq<IsoFile>): nat
    requires AllFit(files)
  {
    RootSector * SectorSize + |RootDirectory(RootSector, ContinuationSector, ErLength, files, Layout(files))|
  }

  /** The bytes of sector 20 after the root directory's records, and of
      sector 21 after the ER entry. */
  predicate InDirectoryGaps(files: seq<IsoFile>, k: int)
    requires AllFit(files)
  {
    RootEnd(files) <= k < ContinuationSector * SectorSize ||
    ContinuationSector * SectorSize + ErLength <= k < FirstFileSector * SectorSize
  }

  /** Neither directory run covers the gaps after it. */
  lemma DirectoryGapUncovered(files: seq<IsoFile>, k: nat)
    requires AllFit(files) && InDirectoryGaps(files, k)
    requires |RootDirectory(RootSector, ContinuationSector, ErLength, files, Layout(files))| <= SectorSize
    ensures !Covered(DirectoryFacts(files), k)
  {
    var root := RootDirectory(RootSector, ContinuationSector, ErLength, files, Layout(files));
    SuspErLayout();
    NotCoveredPair(RootSector * SectorSize, root, ContinuationSector * SectorSize, SuspEr(), k);
  }

  /** The writes of `build_iso` leave the gaps of the directory sectors
      as they were. */
  lemma GapsKept(s0: seq<byte>, s3: seq<byte>, volumeId: string, files: seq<IsoFile>)
    requires |volumeId| <= 32 && IsAscii(volumeId) && AllFit(files) && |Utf8(volumeId)| <= 32
    requires |RootDirectory(RootSector, ContinuationSector, ErLength, files, Layout(files))| <= SectorSize
    requires FirstFileSector * SectorSize <= |s0|
    requires Within(DescriptorFacts(Utf8(volumeId), ToU32(TotalSectors(files))), PvdSector * SectorSize, MPathTableSector * SectorSize + 10)
    requires Within(FileFacts(files), FirstFileSector * SectorSize, TotalSectors(files) * SectorSize)
    requires Only(s3, s0, ImageFacts(volumeId, files))
    ensures s3[RootEnd(files)..ContinuationSector * SectorSize] == s0[RootEnd(files)..ContinuationSector * SectorSize]
    ensures s3[ContinuationSector * SectorSize + ErLength..FirstFileSector * SectorSize]
         == s0[ContinuationSector * SectorSize + ErLength..FirstFileSector * SectorSize]
  {
    var facts := ImageFacts(volumeId, files);
    forall k | RootEnd(files) <= k < ContinuationSector * SectorSize
      ensures !Covered(facts, k)
    {
      GapUncovered(volumeId, files, k);
    }
    KeptRange(s3, s0, facts, RootEnd(files), ContinuationSector * SectorSize);
    forall k | ContinuationSector * SectorSize + ErLength <= k < FirstFileSector * SectorSize
      ensures !Covered(facts, k)
    {
      GapUncovered(volumeId, files, k);
    }
    KeptRange(s3, s0, facts, ContinuationSector * SectorSize + ErLength, FirstFileSector * SectorSize);
  }

  /** No run of the image covers a byte of the directory sectors' gaps. */
  lemma GapUncovered(volumeId: string, files: seq<IsoFile>, k: nat)
    requires |volumeId| <= 32 && IsAscii(volumeId) && AllFit(files) && |Utf8(volumeId)| <= 32
    requires |RootDirectory(RootSector, ContinuationSector, ErLength, files, Layout(files))| <= SectorSize
    requires Within(DescriptorFacts(Utf8(volumeId), ToU32(TotalSectors(files))), PvdSector * SectorSize, MPathTableSector * SectorSize + 10)
    requires Within(FileFacts(files), FirstFileSector * SectorSize, TotalSectors(files) * SectorSize)
    requires InDirectoryGaps(files, k)
    ensures !Covered(ImageFacts(volumeId, files), k)
  {
    var desc := DescriptorFacts(Utf8(volumeId), ToU32(TotalSectors(files)));
    NotCovered(desc, PvdSector * SectorSize, MPathTableSector * SectorSize + 10, k);
    DirectoryGapUncovered(files, k);
    NotCovered(FileFacts(files), FirstFileSector * SectorSize, TotalSectors(files) * SectorSize, k);
    NotCoveredJoin(desc, DirectoryFacts(files), FileFacts(files), k);
  }

  lemma ImageSize(files: seq<IsoFile>)
    ensures (ContinuationSector + 1) * SectorSize <= TotalSectors(files) * SectorSize
  {
    assert FirstFileSector <= TotalSectors(files);
  }

  /** What the writes leave of the zero-filled image: the system area,
      every byte outside the runs, and so both directory sectors' gaps. */
  lemma ZerosRemain(s0: seq<byte>, s3: seq<byte>, volumeId: string, files: seq<IsoFile>)
    requires |volumeId| <= 32 && IsAscii(volumeId) && AllFit(files)
    requires |RootDirectory(RootSector, ContinuationSector, ErLength, files, Layout(files))| <= SectorSize
    requires s0 == Repeat(0, TotalSectors(files) * SectorSize) && |s3| == |s0|
    requires s3[..PvdSector * SectorSize] == s0[..PvdSector * SectorSize]
    requires Only(s3, s0, ImageFacts(volumeId, files))
    requires s3[RootEnd(files)..ContinuationSector * SectorSize] == s0[RootEnd(files)..ContinuationSector * SectorSize]
    requires s3[ContinuationSector * SectorSize + ErLength..FirstFileSector * SectorSize]
          == s0[ContinuationSector * SectorSize + ErLength..FirstFileSector * SectorSize]
    ensures s3[..PvdSector * SectorSize] == Repeat(0, PvdSector * SectorSize)
    ensures ZeroOutside(s3, ImageFacts(volumeId, files))
    ensures Holds(s3, RootEnd(files), Repeat(0, ContinuationSector * SectorSize - RootEnd(files)))
    ensures Holds(s3, ContinuationSector * SectorSize + ErLength, Repeat(0, SectorSize - ErLength))
  {
    ImageSize(files);
    ZerosHold(s0, 0, PvdSector * SectorSize);
    ZerosHold(s0, RootEnd(files), ContinuationSector * SectorSize - RootEnd(files));
    ZerosHold(s0, ContinuationSector * SectorSize + ErLength, SectorSize - ErLength);
    OnlyFromZeros(s3, s0, ImageFacts(volumeId, files));
  }

  /** The three writes of `build_iso`, each in its own range and in
      increasing order, leave every run of the image in place and the
      system area untouched. */
  lemma ImageWrites(s0: seq<byte>, s1: seq<byte>, s2: seq<byte>, s3: seq<byte>, volumeId: string, files: seq<IsoFile>)
    ensures |volumeId| <= 32 && IsAscii(volumeId) && AllFit(files) && |Utf8(volumeId)| <= 32 &&
      Wrote(s1, s0, DescriptorFacts(Utf8(volumeId), ToU32(TotalSectors(files))), PvdSector * SectorSize, MPathTableSector * SectorSize + 10) &&
      Wrote(s2, s1, DirectoryFacts(files), RootSector * SectorSize, ContinuationSector * SectorSize + ErLength) &&
      Wrote(s3, s2, FileFacts(files), FirstFileSector * SectorSize, TotalSectors(files) * SectorSize)
      ==> AllHold(s3, ImageFacts(volumeId, files)) && s3[..PvdSector * SectorSize] == s0[..PvdSector * SectorSize]
  {
    if |volumeId| <= 32 && IsAscii(volumeId) && AllFit(files) && |Utf8(volumeId)| <= 32 &&
      Wrote(s1, s0, DescriptorFacts(Utf8(volumeId), ToU32(TotalSectors(files))), PvdSector * SectorSize, MPathTableSector * SectorSize + 10) &&
      Wrote(s2, s1, DirectoryFacts(files), RootSector * SectorSize, ContinuationSector * SectorSize + ErLength) &&
      Wrote(s3, s2, FileFacts(files), FirstFileSector * SectorSize, TotalSectors(files) * SectorSize)
    {
      Utf8OfAscii(volumeId);
      var d := DescriptorFacts(Utf8(volumeId), ToU32(TotalSectors(files)));
      StepMany(s0, s1, s2, d, PvdSector * SectorSize, MPathTableSector * SectorSize + 10,
               DirectoryFacts(files), RootSector * SectorSize, ContinuationSector * SectorSize + ErLength);
      StepMany(s0, s2, s3, d + DirectoryFacts(files), PvdSector * SectorSize, ContinuationSector * SectorSize + ErLength,
               FileFacts(files), FirstFileSector * SectorSize, TotalSectors(files) * SectorSize);
    }
  }

  // ---------------------------------------------------------------------
  // What a reader of the image finds
  // ---------------------------------------------------------------------

  /** The runs of each part of the image hold in an image that holds them all. */
  lemma ImageParts(s: seq<byte>, volumeId: string, files: seq<IsoFile>)
    requires |volumeId| <= 32 && IsAscii(volumeId) && AllFit(files)
    requires AllHold(s, ImageFacts(volumeId, files))
    ensures |Utf8(volumeId)| <= 32
    ensures AllHold(s, PvdFacts(Utf8(volumeId), ToU32(TotalSectors(files)), RootSector))
    ensures AllHold(s, VdstFacts())
    ensures AllHold(s, PathTableFacts(LPathTableSector, RootSector, Little))
    ensures AllHold(s, PathTableFacts(MPathTableSector, RootSector, Big))
    ensures AllHold(s, DirectoryFacts(files)) && AllHold(s, FileFacts(files))
  {
    Utf8OfAscii(volumeId);
    var vid := Utf8(volumeId);
    var total := ToU32(TotalSectors(files));
    var d := DescriptorFacts(vid, total);
    AllHoldSplit(s, d + DirectoryFacts(files), FileFacts(files));
    AllHoldSplit(s, d, DirectoryFacts(files));
    AllHoldSplit(s, VolumeDescriptorFacts(vid, total), PathTablesFacts());
    AllHoldSplit(s, PvdFacts(vid, total, RootSector), VdstFacts());
    AllHoldSplit(s, PathTableFacts(LPathTableSector, RootSector, Little), PathTableFacts(MPathTableSector, RootSector, Big));
  }

  /** A both-endian number read back from either half. */
  lemma HoldsU32Both(s: seq<byte>, at: nat, v: nat)
    requires v < U32Limit && Holds(s, at, U32Both(v))
    ensures LittleEndianValue(s[at..at + 4]) == v && BigEndianValue(s[at + 4..at + 8]) == v
  {
    U32BothRoundTrip(v);
    assert s[at..at + 4] == U32Both(v)[..4] && s[at + 4..at + 8] == U32Both(v)[4..];
  }

  lemma HoldsU16Both(s: seq<byte>, at: nat, v: nat)
    requires v < 0x1_0000 && Holds(s, at, U16Both(v))
    ensures LittleEndianValue(s[at..at + 2]) == v && BigEndianValue(s[at + 2..at + 4]) == v
  {
    U16BothRoundTrip(v);
    assert s[at..at + 2] == U16Both(v)[..2] && s[at + 2..at + 4] == U16Both(v)[2..];
  }

  /** The fixed record read back: its length, extent, size, flags and name. */
  lemma FixedRecordReadBack(s: seq<byte>, at: nat, extent: nat, size: nat, name: seq<byte>, isDir: bool)
    requires extent < U32Limit && size < U32Limit && RecordLength(|name|, 0) < 256
    requires AllHold(s, FixedRecordFacts(at, extent, size, name, isDir))
    ensures |s| >= at + 33 + |name|
    ensures s[at] as nat == RecordLength(|name|, 0)
    ensures LittleEndianValue(s[at + 2..at + 6]) == extent && BigEndianValue(s[at + 6..at + 10]) == extent
    ensures LittleEndianValue(s[at + 10..at + 14]) == size && BigEndianValue(s[at + 14..at + 18]) == size
    ensures s[at + 25] == (if isDir then 0x02 else 0x00)
    ensures s[at + 32] as nat == |name| && s[at + 33..at + 33 + |name|] == name
  {
    FixedRecordNumbers(s, at, extent, size, name, isDir);
    FixedRecordName(s, at, extent, size, name, isDir);
  }

  lemma FixedRecordNumbers(s: seq<byte>, at: nat, extent: nat, size: nat, name: seq<byte>, isDir: bool)
    requires extent < U32Limit && size < U32Limit && RecordLength(|name|, 0) < 256
    requires AllHold(s, FixedRecordFacts(at, extent, size, name, isDir))
    ensures |s| >= at + 18
    ensures s[at] as nat == RecordLength(|name|, 0)
    ensures LittleEndianValue(s[at + 2..at + 6]) == extent && BigEndianValue(s[at + 6..at + 10]) == extent
    ensures LittleEndianValue(s[at + 10..at + 14]) == size && BigEndianValue(s[at + 14..at + 18]) == size
  {
    var f := FixedRecordFacts(at, extent, size, name, isDir);
    assert Holds(s, f[0].0, f[0].1) && Holds(s, f[1].0, f[1].1) && Holds(s, f[2].0, f[2].1);
    HoldsByte(s, at, RecordLength(|name|, 0) as byte);
    HoldsU32Both(s, at + 2, extent);
    HoldsU32Both(s, at + 10, size);
  }

  lemma FixedRecordName(s: seq<byte>, at: nat, extent: nat, size: nat, name: seq<byte>, isDir: bool)
    requires extent < U32Limit && size < U32Limit && RecordLength(|name|, 0) < 256
    requires AllHold(s, FixedRecordFacts(at, extent, size, name, isDir))
    ensures |s| >= at + 33 + |name|
    ensures s[at + 25] == (if isDir then 0x02 else 0x00)
    ensures s[at + 32] as nat == |name| && s[at + 33..at + 33 + |name|] == name
  {
    var f := FixedRecordFacts(at, extent, size, name, isDir);
    assert Holds(s, f[3].0, f[3].1) && Holds(s, f[5].0, f[5].1) && Holds(s, f[6].0, f[6].1);
    HoldsByte(s, at + 25, if isDir then 0x02 else 0x00);
    HoldsByte(s, at + 32, |name| as byte);
  }

  lemma PvdNumbersReadBack(s: seq<byte>, totalSectors: nat)
    requires totalSectors < U32Limit && AllHold(s, PvdNumbers(totalSectors))
    ensures var b := PvdSector * SectorSize;
      |s| >= b + 152 &&
      LittleEndianValue(s[b + 80..b + 84]) == totalSectors && BigEndianValue(s[b + 84..b + 88]) == totalSectors &&
      LittleEndianValue(s[b + 128..b + 130]) == SectorSize && BigEndianValue(s[b + 130..b + 132]) == SectorSize &&
      LittleEndianValue(s[b + 140..b + 144]) == LPathTableSector &&
      BigEndianValue(s[b + 148..b + 152]) == MPathTableSector
  {
    Pow256Widths();
    var b := PvdSector * SectorSize;
    var f := PvdNumbers(totalSectors);
    assert Holds(s, f[0].0, f[0].1) && Holds(s, f[3].0, f[3].1);
    assert Holds(s, f[5].0, f[5].1) && Holds(s, f[6].0, f[6].1);
    HoldsU32Both(s, b + 80, totalSectors);
    HoldsU16Both(s, b + 128, SectorSize);
    LittleEndianRoundTrip(LPathTableSector, 4);
    BigEndianRoundTrip(MPathTableSector, 4);
  }

  /** The primary volume descriptor read back: its type and identifier, the
      volume label padded with spaces, the volume size in sectors, the block
      size, where the two path tables are, and the root directory's record. */
  lemma PvdReadBack(s: seq<byte>, vid: seq<byte>, totalSectors: nat, rootDirSector: nat)
    requires |vid| <= 32 && totalSectors < U32Limit && rootDirSector < U32Limit
    requires AllHold(s, PvdFacts(vid, totalSectors, rootDirSector))
    ensures var b := PvdSector * SectorSize;
      |s| >= b + 882 &&
      s[b] == 1 && s[b + 1..b + 6] == Cd001 && s[b + 6] == 1 &&
      s[b + 40..b + 72] == vid + Repeat(Space, 32 - |vid|) &&
      LittleEndianValue(s[b + 80..b + 84]) == totalSectors && BigEndianValue(s[b + 84..b + 88]) == totalSectors &&
      LittleEndianValue(s[b + 128..b + 130]) == SectorSize &&
      LittleEndianValue(s[b + 140..b + 144]) == LPathTableSector &&
      BigEndianValue(s[b + 148..b + 152]) == MPathTableSector &&
      LittleEndianValue(s[b + 158..b + 162]) == rootDirSector &&
      LittleEndianValue(s[b + 166..b + 170]) == SectorSize &&
      s[b + 181] == 0x02 && s[b + 881] == 1
  {
    var b := PvdSector * SectorSize;
    PvdParts(s, vid, totalSectors, rootDirSector);
    PvdHeaderReadBack(s);
    PvdIdentifierReadBack(s, vid);
    PvdNumbersReadBack(s, totalSectors);
    FixedRecordReadBack(s, b + 156, rootDirSector, SectorSize, [0], true);
    PvdTailReadBack(s);
  }

  lemma PvdHeaderReadBack(s: seq<byte>)
    requires AllHold(s, PvdHeader())
    ensures var b := PvdSector * SectorSize;
      |s| >= b + 7 && s[b] == 1 && s[b + 1..b + 6] == Cd001 && s[b + 6] == 1
  {
    var b := PvdSector * SectorSize;
    var header := PvdHeader();
    assert Holds(s, header[0].0, header[0].1) && Holds(s, header[1].0, header[1].1) && Holds(s, header[2].0, header[2].1);
    HoldsByte(s, b, 1);
    HoldsByte(s, b + 6, 1);
  }

  lemma PvdIdentifierReadBack(s: seq<byte>, vid: seq<byte>)
    requires |vid| <= 32 && AllHold(s, PvdIdentifiers(vid))
    ensures var b := PvdSector * SectorSize;
      |s| >= b + 72 && s[b + 40..b + 72] == vid + Repeat(Space, 32 - |vid|)
  {
    assert Holds(s, PvdIdentifiers(vid)[1].0, PvdIdentifiers(vid)[1].1);
  }

  lemma PvdTailReadBack(s: seq<byte>)
    requires AllHold(s, PvdTail())
    ensures var b := PvdSector * SectorSize;
      |s| >= b + 882 && s[b + 881] == 1
  {
    var tail := PvdTail();
    assert Holds(s, tail[1].0, tail[1].1);
    HoldsByte(s, PvdSector * SectorSize + 881, 1);
  }

  lemma PvdParts(s: seq<byte>, vid: seq<byte>, totalSectors: nat, rootDirSector: nat)
    requires |vid| <= 32 && totalSectors < U32Limit && rootDirSector < U32Limit
    requires AllHold(s, PvdFacts(vid, totalSectors, rootDirSector))
    ensures AllHold(s, PvdHeader()) && AllHold(s, PvdIdentifiers(vid)) && AllHold(s, PvdNumbers(totalSectors))
    ensures AllHold(s, FixedRecordFacts(PvdSector * SectorSize + 156, rootDirSector, SectorSize, [0], true))
    ensures AllHold(s, PvdTail())
  {
    var rec := FixedRecordFacts(PvdSector * SectorSize + 156, rootDirSector, SectorSize, [0], true);
    AllHoldSplit(s, PvdHeader() + PvdIdentifiers(vid) + PvdNumbers(totalSectors) + rec, PvdTail());
    AllHoldSplit(s, PvdHeader() + PvdIdentifiers(vid) + PvdNumbers(totalSectors), rec);
    AllHoldSplit(s, PvdHeader() + PvdIdentifiers(vid), PvdNumbers(totalSectors));
    AllHoldSplit(s, PvdHeader(), PvdIdentifiers(vid));
  }

  lemma VdstReadBack(s: seq<byte>)
    requires AllHold(s, VdstFacts())
    ensures var t := TerminatorSector * SectorSize;
      |s| >= t + 7 && s[t] == 255 && s[t + 1..t + 6] == Cd001 && s[t + 6] == 1
  {
    var t := TerminatorSector * SectorSize;
    var v := VdstFacts();
    assert Holds(s, v[0].0, v[0].1) && Holds(s, v[1].0, v[1].1) && Holds(s, v[2].0, v[2].1);
    HoldsByte(s, t, 255);
    HoldsByte(s, t + 6, 1);
  }

  /** A path table read back: one root entry naming `rootExtent` as its
      extent and entry 1, itself, as its parent, in the table's byte order. */
  lemma PathTableReadBack(s: seq<byte>, sector: nat, rootExtent: nat, e: Endian)
    requires rootExtent < U32Limit && AllHold(s, PathTableFacts(sector, rootExtent, e))
    ensures var b := sector * SectorSize;
      |s| >= b + 10 && s[b] == 1 && Decode(e, s[b + 2..b + 6]) == rootExtent && Decode(e, s[b + 6..b + 8]) == 1
  {
    Pow256Widths();
    var b := sector * SectorSize;
    var f := PathTableFacts(sector, rootExtent, e);
    assert Holds(s, f[0].0, f[0].1) && Holds(s, f[2].0, f[2].1) && Holds(s, f[3].0, f[3].1) && Holds(s, f[5].0, f[5].1);
    HoldsByte(s, b, 1);
    EncodeRoundTrip(e, rootExtent, 4);
    EncodeRoundTrip(e, 1, 2);
  }

  /** What a reader finds in the volume descriptors of a built image: the
      primary descriptor with the label, the size, the path tables' sectors
      and the root directory's sector, and the terminator after it. */
  lemma VolumeDescriptorsReadBack(s: seq<byte>, volumeId: string, files: seq<IsoFile>)
    requires |volumeId| <= 32 && IsAscii(volumeId) && AllFit(files)
    requires AllHold(s, ImageFacts(volumeId, files))
    ensures var b := PvdSector * SectorSize;
      |s| >= b + 882 &&
      s[b] == 1 && s[b + 1..b + 6] == Cd001 &&
      s[b + 40..b + 72] == AsciiBytes(volumeId) + Repeat(Space, 32 - |volumeId|) &&
      LittleEndianValue(s[b + 80..b + 84]) == ToU32(TotalSectors(files)) &&
      LittleEndianValue(s[b + 140..b + 144]) == LPathTableSector &&
      BigEndianValue(s[b + 148..b + 152]) == MPathTableSector &&
      LittleEndianValue(s[b + 158..b + 162]) == RootSector
    ensures var t := TerminatorSector * SectorSize;
      |s| >= t + 7 && s[t] == 255 && s[t + 1..t + 6] == Cd001
  {
    ImageParts(s, volumeId, files);
    Utf8OfAscii(volumeId);
    PvdReadBack(s, Utf8(volumeId), ToU32(TotalSectors(files)), RootSector);
    VdstReadBack(s);
  }

  /** Both path tables of a built image name the root directory's sector. */
  lemma PathTablesLocateRoot(s: seq<byte>, volumeId: string, files: seq<IsoFile>)
    requires |volumeId| <= 32 && IsAscii(volumeId) && AllFit(files)
    requires AllHold(s, ImageFacts(volumeId, files))
    ensures var l := LPathTableSector * SectorSize;
      |s| >= l + 10 && LittleEndianValue(s[l + 2..l + 6]) == RootSector
    ensures var m := MPathTableSector * SectorSize;
      |s| >= m + 10 && BigEndianValue(s[m + 2..m + 6]) == RootSector
  {
    ImageParts(s, volumeId, files);
    PathTableReadBack(s, LPathTableSector, RootSector, Little);
    PathTableReadBack(s, MPathTableSector, RootSector, Big);
  }

  /** Run `i` sits in the flattened bytes right after the runs before it. */
  lemma {:induction false} FlattenHolds(runs: seq<seq<byte>>, i: nat)
    requires i < |runs|
    ensures Holds(Flatten(runs), |Flatten(runs[..i])|, runs[i])
    decreases |runs|
  {
    var n := |runs| - 1;
    assert runs[..n] + [runs[n]] == runs;
    if i == n {
      assert Flatten(runs) == Flatten(runs[..n]) + runs[n];
    } else {
      FlattenHolds(runs[..n], i);
      assert runs[..n][..i] == runs[..i];
      var w := Flatten(runs[..n]);
      var at := |Flatten(runs[..i])|;
      assert Flatten(runs) == w + runs[n];
      assert Flatten(runs)[at..at + |runs[i]|] == w[at..at + |runs[i]|];
    }
  }

  /** The "." record's system-use area: the SUSP indicator, then a CE
      entry whose block, offset and length locate the ER entry. */
  lemma DotSystemUseEntries(ceSector: nat, erLength: nat)
    requires ceSector < U32Limit && erLength < U32Limit
    ensures var su := DotSystemUse(ceSector, erLength);
      su[..7] == SuspSp() && su[7..9] == [0x43, 0x45] && su[9] == 28 &&
      LittleEndianValue(su[11..15]) == ceSector && LittleEndianValue(su[19..23]) == 0 &&
      LittleEndianValue(su[27..31]) == erLength
  {
    var su := DotSystemUse(ceSector, erLength);
    var ce := SuspCe(ceSector, 0, erLength);
    assert su[..7] == SuspSp() && su[7..] == ce;
    CeReadBack(su, 7, ceSector, 0, erLength);
  }

  /** A CE entry read back in place: its signature, length, and the
      little-endian halves of its block, offset and length. */
  lemma CeReadBack(s: seq<byte>, at: nat, block: nat, offset: nat, length: nat)
    requires block < U32Limit && offset < U32Limit && length < U32Limit
    requires Holds(s, at, SuspCe(block, offset, length))
    ensures s[at..at + 2] == [0x43, 0x45] && s[at + 2] == 28
    ensures LittleEndianValue(s[at + 4..at + 8]) == block && LittleEndianValue(s[at + 12..at + 16]) == offset
    ensures LittleEndianValue(s[at + 20..at + 24]) == length
  {
    var ce := SuspCe(block, offset, length);
    SuspCeFields(block, offset, length);
    HoldsInside(s, at, ce, 0, [0x43, 0x45, 28, 1]);
    HoldsInside(s, at, ce, 4, U32Both(block));
    HoldsInside(s, at, ce, 12, U32Both(offset));
    HoldsInside(s, at, ce, 20, U32Both(length));
    assert s[at..at + 4] == [0x43, 0x45, 28, 1];
    assert s[at..at + 2] == s[at..at + 4][..2];
    HoldsU32Both(s, at + 4, block);
    HoldsU32Both(s, at + 12, offset);
    HoldsU32Both(s, at + 20, length);
  }

  /** The "." record describes the root directory, one sector long, under
      the name byte 0x00, and carries the area above from offset 34. */
  lemma DotRecordDescribes(rootSector: nat, ceSector: nat, erLength: nat)
    requires rootSector < U32Limit && ceSector < U32Limit && erLength < U32Limit
    ensures var r := DotRecord(rootSector, ceSector, erLength);
      LittleEndianValue(r[2..6]) == rootSector && LittleEndianValue(r[10..14]) == SectorSize &&
      r[25] == 0x02 && r[32] == 1 && r[33] == 0 && r[34..] == DotSystemUse(ceSector, erLength)
  {
    var r := DotRecord(rootSector, ceSector, erLength);
    DirRecordLayout(rootSector, SectorSize, [0], true, DotSystemUse(ceSector, erLength));
    HoldsU32Both(r, 2, rootSector);
    HoldsU32Both(r, 10, SectorSize);
    assert r[33..34] == [0];
  }

  /** An NM entry read back in place: signature, flags 0, then the name. */
  lemma NmEntryFields(s: seq<byte>, at: nat, name: seq<byte>)
    requires 5 + |name| < 256 && Holds(s, at, RripNm(name))
    ensures Holds(s, at, [0x4E, 0x4D]) && s[at + 4] == 0 && Holds(s, at + 5, name)
  {
    var nm := RripNm(name);
    assert Holds(nm, 0, [0x4E, 0x4D]) && Holds(nm, 4, [0]);
    HoldsInside(s, at, nm, 0, [0x4E, 0x4D]);
    HoldsInside(s, at, nm, 4, [0]);
    HoldsByte(s, at + 4, 0);
    HoldsInside(s, at, nm, 5, name);
  }

  /** A PX entry read back in place: signature, then mode and link count. */
  lemma PxEntryFields(s: seq<byte>, at: nat, mode: nat, nlinks: nat)
    requires mode < U32Limit && nlinks < U32Limit && Holds(s, at, RripPx(mode, nlinks))
    ensures Holds(s, at, [0x50, 0x58])
    ensures LittleEndianValue(s[at + 4..at + 8]) == mode && LittleEndianValue(s[at + 12..at + 16]) == nlinks
  {
    var px := RripPx(mode, nlinks);
    RripPxMode(mode, nlinks);
    assert Holds(px, 0, [0x50, 0x58]);
    HoldsInside(s, at, px, 0, [0x50, 0x58]);
    HoldsInside(s, at, px, 4, U32Both(mode));
    HoldsInside(s, at, px, 12, U32Both(nlinks));
    HoldsU32Both(s, at + 4, mode);
    HoldsU32Both(s, at + 12, nlinks);
  }

  /** A file's system-use area: an NM entry carrying the file's real name,
      then a PX entry carrying mode 0o100644 and one link. */
  lemma FileSystemUseEntries(name: seq<byte>)
    requires 5 + |name| < 256
    ensures var su := FileSystemUse(name);
      var n := |name|;
      |su| == n + 49 && Holds(su, 0, [0x4E, 0x4D]) && su[4] == 0 && Holds(su, 5, name) &&
      Holds(su, 5 + n, [0x50, 0x58]) &&
      LittleEndianValue(su[n + 9..n + 13]) == FileMode && LittleEndianValue(su[n + 17..n + 21]) == 1
  {
    var su := FileSystemUse(name);
    HoldsParts(RripNm(name), RripPx(FileMode, 1));
    NmEntryFields(su, 0, name);
    PxEntryFields(su, 5 + |name|, FileMode, 1);
  }

  /** A directory record read back: its extent and length in both byte
      orders' little-endian half, its flags, its name and, after the
      padding, its system-use area. */
  lemma DirRecordReadBack(extent: nat, size: nat, name: seq<byte>, isDir: bool, su: seq<byte>)
    requires extent < U32Limit && size < U32Limit
    requires RecordLength(|name|, |su|) < 256
    ensures var r := DirRecord(extent, size, name, isDir, su);
      LittleEndianValue(r[2..6]) == extent && LittleEndianValue(r[10..14]) == size &&
      r[25] == (if isDir then 0x02 else 0x00) && r[32] as nat == |name| && r[33..33 + |name|] == name &&
      r[33 + |name| + NamePadding(|name|)..] == su
  {
    var r := DirRecord(extent, size, name, isDir, su);
    DirRecordLayout(extent, size, name, isDir, su);
    HoldsU32Both(r, 2, extent);
    HoldsU32Both(r, 10, size);
  }

  /** A file's record read back: its extent and length (cast to `u32`), a
      regular file, its Level 1 name, and its Rock Ridge entries after it. */
  lemma FileRecordDescribes(f: IsoFile, sector: nat, size: nat)
    requires FileRecordFits(f)
    ensures var r := FileRecord(f, sector, size);
      var iso := Utf8(ToLevel1Name(f.name));
      LittleEndianValue(r[2..6]) == ToU32(sector) && LittleEndianValue(r[10..14]) == ToU32(size) &&
      r[25] == 0x00 && r[32] as nat == |iso| && r[33..33 + |iso|] == iso &&
      r[33 + |iso| + NamePadding(|iso|)..] == FileSystemUse(Utf8(f.name))
  {
    DirRecordReadBack(ToU32(sector), ToU32(size), Utf8(ToLevel1Name(f.name)), false, FileSystemUse(Utf8(f.name)));
  }

  /** The root directory of a built image starts with the "." record, which
      points at sector 21 for the ER entry. */
  lemma DirectoryReadBack(s: seq<byte>, volumeId: string, files: seq<IsoFile>)
    requires |volumeId| <= 32 && IsAscii(volumeId) && AllFit(files)
    requires AllHold(s, ImageFacts(volumeId, files))
    ensures Holds(s, RootSector * SectorSize, DotRecord(RootSector, ContinuationSector, ErLength))
  {
    ImageDirectory(s, volumeId, files);
    var records := RootRecords(RootSector, ContinuationSector, ErLength, files, Layout(files));
    RunHolds(s, RootSector * SectorSize, records, 0);
    assert records[..0] == [];
  }

  /** Sector 21 of a built image starts with the ER entry naming
      `RRIP_1991A`, as long as the "." record's CE entry says. */
  lemma ContinuationReadBack(s: seq<byte>, volumeId: string, files: seq<IsoFile>)
    requires |volumeId| <= 32 && IsAscii(volumeId) && AllFit(files)
    requires AllHold(s, ImageFacts(volumeId, files))
    ensures Holds(s, ContinuationSector * SectorSize, SuspEr()) && |SuspEr()| == ErLength
    ensures Holds(s, ContinuationSector * SectorSize + 8, AsciiBytes("RRIP_1991A"))
  {
    ImageDirectory(s, volumeId, files);
    SuspErLayout();
    assert Holds(SuspEr(), 8, AsciiBytes("RRIP_1991A"));
    HoldsInside(s, ContinuationSector * SectorSize, SuspEr(), 8, AsciiBytes("RRIP_1991A"));
  }

  /** The root directory and the ER entry hold in an image that holds them all. */
  lemma ImageDirectory(s: seq<byte>, volumeId: string, files: seq<IsoFile>)
    requires |volumeId| <= 32 && IsAscii(volumeId) && AllFit(files)
    requires AllHold(s, ImageFacts(volumeId, files))
    ensures Holds(s, RootSector * SectorSize, RootDirectory(RootSector, ContinuationSector, ErLength, files, Layout(files)))
    ensures Holds(s, ContinuationSector * SectorSize, SuspEr())
  {
    Utf8OfAscii(volumeId);
    var d := DescriptorFacts(Utf8(volumeId), ToU32(TotalSectors(files)));
    AllHoldSplit(s, d + DirectoryFacts(files), FileFacts(files));
    AllHoldSplit(s, d, DirectoryFacts(files));
    var df := DirectoryFacts(files);
    assert Holds(s, df[0].0, df[0].1) && Holds(s, df[1].0, df[1].1);
  }

  /** Each file's data holds in an image that holds all its runs. */
  lemma ImageFileData(s: seq<byte>, volumeId: string, files: seq<IsoFile>, i: nat)
    requires |volumeId| <= 32 && IsAscii(volumeId) && AllFit(files) && i < |files|
    requires AllHold(s, ImageFacts(volumeId, files))
    ensures Holds(s, FileStart(files, i) * SectorSize, files[i].data)
  {
    Utf8OfAscii(volumeId);
    var d := DescriptorFacts(Utf8(volumeId), ToU32(TotalSectors(files)));
    AllHoldSplit(s, d + DirectoryFacts(files), FileFacts(files));
    var ff := FileFacts(files);
    assert Holds(s, ff[i].0, ff[i].1);
  }

  /** The record of file `i` sits in a root directory that holds, after the
      records before it. */
  lemma FileRecordHeld(s: seq<byte>, files: seq<IsoFile>, i: nat)
    requires AllFit(files) && i < |files|
    requires Holds(s, RootSector * SectorSize, RootDirectory(RootSector, ContinuationSector, ErLength, files, Layout(files)))
    ensures var records := RootRecords(RootSector, ContinuationSector, ErLength, files, Layout(files));
      Holds(s, RootSector * SectorSize + |Flatten(records[..i + 2])|,
            FileRecord(files[i], FileStart(files, i), |files[i].data|))
  {
    var records := RootRecords(RootSector, ContinuationSector, ErLength, files, Layout(files));
    RunHolds(s, RootSector * SectorSize, records, i + 2);
    RootRecordOfFile(files, i);
  }

  /** Run `k` of runs that hold end to end at `at` holds after the runs before it. */
  lemma RunHolds(s: seq<byte>, at: nat, runs: seq<seq<byte>>, k: nat)
    requires k < |runs| && Holds(s, at, Flatten(runs))
    ensures Holds(s, at + |Flatten(runs[..k])|, runs[k])
  {
    FlattenHolds(runs, k);
    HoldsInside(s, at, Flatten(runs), |Flatten(runs[..k])|, runs[k]);
  }

  lemma RootRecordOfFile(files: seq<IsoFile>, i: nat)
    requires AllFit(files) && i < |files|
    ensures RootRecords(RootSector, ContinuationSector, ErLength, files, Layout(files))[i + 2]
         == FileRecord(files[i], FileStart(files, i), |files[i].data|)
  {
    var layout := Layout(files);
    assert layout[i] == (FileStart(files, i), |files[i].data|);
    assert FileRecordList(files, layout)[i] == FileRecord(files[i], layout[i].0, layout[i].1);
  }

  /** For each file, the root directory of a built image holds its record
      after the records before it, and the file's data is at the start of
      the sector the record's extent names (below 2^32 sectors). */
  lemma FileReadBack(s: seq<byte>, volumeId: string, files: seq<IsoFile>, i: nat)
    requires |volumeId| <= 32 && IsAscii(volumeId) && AllFit(files) && i < |files|
    requires AllHold(s, ImageFacts(volumeId, files))
    ensures var records := RootRecords(RootSector, ContinuationSector, ErLength, files, Layout(files));
      Holds(s, RootSector * SectorSize + |Flatten(records[..i + 2])|,
            FileRecord(files[i], FileStart(files, i), |files[i].data|))
    ensures Holds(s, FileStart(files, i) * SectorSize, files[i].data)
  {
    ImageDirectory(s, volumeId, files);
    FileRecordHeld(s, files, i);
    ImageFileData(s, volumeId, files, i);
  }
}
