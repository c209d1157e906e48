/** The layout of a streamOptimized VMDK: what `header`, `metadata_marker` and `grain_record` of
    examples/hypervisor-restore/stream_vmdk.py emit, and what `VmdkReader` finds in it. */
module VmdkFormat {
  import opened Basics
  import opened LittleEndian
  import opened VmdkReader

  const SECTOR: nat := 512
  const GRAIN_SECTORS: nat := 128
  const GRAIN: nat := 65536
  const GTES_PER_GT: nat := 512
  const GT_SECTORS: nat := 4
  const OVERHEAD_SECTORS: nat := 128
  const MAGIC: nat := 0x564D_444B
  const FLAGS: nat := 0x3_0001
  const GD_AT_END: nat := 0xFFFF_FFFF_FFFF_FFFF
  const MARKER_EOS: nat := 0
  const MARKER_GT: nat := 1
  const MARKER_GD: nat := 2
  const MARKER_FOOTER: nat := 3

  const U32: nat := 0x1_0000_0000
  const U64: nat := 0x1_0000_0000_0000_0000

  function CeilDiv(n: nat, d: nat): (q: nat)
    requires d > 0
    ensures n <= q * d < n + d
  {
    RoundsUp(n + d - 1, d);
    (n + d - 1) / d
  }

  lemma RoundsUp(n: nat, d: nat)
    requires d > 0
    ensures n - d < n / d * d <= n
  {
    assert n == d * (n / d) + n % d;
  }

  /** The fields before the capacity. */
  function HeaderStart(): Bytes { Encode(MAGIC, 4) + Encode(3, 4) + Encode(FLAGS, 4) }

  /** The fields between the capacity and the number of entries of a grain table. */
  function HeaderMiddle(descriptorSectors: nat): Bytes {
    Encode(GRAIN_SECTORS, 8) + Encode(1, 8) + Encode(descriptorSectors, 8)
  }

  /** The fields after the grain directory's offset. */
  function HeaderEnd(): Bytes {
    Encode(OVERHEAD_SECTORS, 8) + [0] + [10, 32, 13, 10] + Encode(1, 2) + Zeros(433)
  }

  /** `header`: the sparse extent header, also the footer. `struct.pack` refuses a value too wide for its field. */
  function Header(capacity: nat, descriptorSectors: nat, gdOffset: nat): Option<Bytes> {
    if capacity < U64 && descriptorSectors < U64 && gdOffset < U64 then
      Some(HeaderStart() + (Encode(capacity, 8) + (HeaderMiddle(descriptorSectors) + (Encode(GTES_PER_GT, 4)
           + (Encode(0, 8) + (Encode(gdOffset, 8) + HeaderEnd()))))))
    else None
  }

  lemma HeaderIsOneSector(capacity: nat, descriptorSectors: nat, gdOffset: nat)
    ensures Header(capacity, descriptorSectors, gdOffset).Some? ==>
              |Header(capacity, descriptorSectors, gdOffset).value| == SECTOR
  {
  }

  function MetadataMarker(sectors: nat, kind: nat): (b: Bytes)
    ensures |b| == SECTOR
  {
    Encode(sectors, 8) + Encode(0, 4) + Encode(kind, 4) + Zeros(496)
  }

  function Padding(n: nat): (p: nat)
    ensures (n + p) % SECTOR == 0 && p < SECTOR
  {
    (SECTOR - n % SECTOR) % SECTOR
  }

  /** `grain_record`: a grain marker and its deflated data, padded to whole sectors. */
  function GrainRecord(lba: nat, data: Bytes): Option<Bytes> {
    if lba < U64 && |data| < U32 then
      Some(Encode(lba, 8) + (Encode(|data|, 4) + (data + Zeros(Padding(12 + |data|)))))
    else None
  }

  /** A grain table or directory as `array("I").tobytes()`. */
  function TableBytes(entries: seq<nat>): (b: Bytes)
    ensures |b| == 4 * |entries|
  {
    if entries == [] then [] else TableBytes(entries[..|entries| - 1]) + Encode(entries[|entries| - 1], 4)
  }

  lemma {:induction false} EntryAt(out: Bytes, pos: nat, entries: seq<nat>, i: nat)
    requires At(out, pos, TableBytes(entries))
    requires i < |entries| && entries[i] < U32
    ensures WordAt(out, pos + 4 * i) == Some(entries[i])
  {
    var n := |entries| - 1;
    AtParts(out, pos, TableBytes(entries[..n]), Encode(entries[n], 4));
    if i == n {
      WordReads(out, pos + 4 * i, entries[i]);
    } else {
      EntryAt(out, pos, entries[..n], i);
    }
  }

  // ------------------------------------------------------------------------------------------------------
  // What the reader finds
  // ------------------------------------------------------------------------------------------------------

  lemma MarkerReads(file: Bytes, pos: nat, sectors: nat, kind: byte)
    requires At(file, pos, MetadataMarker(sectors, kind as nat)) && sectors < U64
    ensures MarkerAt(file, pos, sectors, kind)
  {
    var (a, b, c) := (Encode(sectors, 8), Encode(0, 4), Encode(kind as nat, 4));
    SmallWord(0);
    SmallWord(kind);
    assert b + c == [0, 0, 0, 0, kind, 0, 0, 0];
    hide Encode, Zeros, At, LongAt;
    assert a + b + c == a + (b + c);
    AtParts(file, pos, a + (b + c), Zeros(496));
    AtParts(file, pos, a, b + c);
    LongReads(file, pos, sectors);
  }

  /** Small numbers as bytes, lowest first. */
  lemma SmallWord(n: byte)
    ensures Encode(n as nat, 4) == [n, 0, 0, 0]
  {
    assert Encode(0, 1) == [0] && Encode(0, 2) == [0, 0] && Encode(0, 3) == [0, 0, 0];
  }

  lemma SmallLong(n: byte)
    ensures Encode(n as nat, 8) == [n, 0, 0, 0, 0, 0, 0, 0]
  {
    assert Encode(0, 1) == [0] && Encode(0, 2) == [0, 0] && Encode(0, 3) == [0, 0, 0] && Encode(0, 4) == [0, 0, 0, 0];
    assert Encode(0, 5) == [0, 0, 0, 0, 0] && Encode(0, 6) == [0, 0, 0, 0, 0, 0];
    assert Encode(0, 7) == [0, 0, 0, 0, 0, 0, 0];
  }

  /** "KDMV", version 3, and the flags. */
  lemma StartBytes()
    ensures HeaderStart() == [0x4B, 0x44, 0x4D, 0x56, 3, 0, 0, 0, 1, 0, 3, 0]
  {
    SmallWord(3);
    assert Encode(0x564D_444B, 4) == [0x4B] + Encode(0x56_4D44, 3) == [0x4B, 0x44] + Encode(0x564D, 2)
           == [0x4B, 0x44, 0x4D] + Encode(0x56, 1);
    assert Encode(0x3_0001, 4) == [1] + Encode(0x300, 3) == [1, 0] + Encode(3, 2) == [1, 0, 3] + Encode(0, 1);
  }

  lemma TableBytesInHeader()
    ensures Encode(GTES_PER_GT, 4) + Encode(0, 8) == [0, 2, 0, 0, 0, 0, 0, 0, 0, 0, 0, 0]
  {
    SmallLong(0);
    assert Encode(512, 4) == [0] + Encode(2, 3) == [0, 2] + Encode(0, 2) == [0, 2, 0] + Encode(0, 1);
  }

  lemma EndBytes()
    ensures HeaderEnd() == [0x80, 0, 0, 0, 0, 0, 0, 0, 0, 0x0A, 0x20, 0x0D, 0x0A, 1, 0] + Zeros(433)
  {
    SmallLong(0x80);
    assert Encode(1, 2) == [1] + Encode(0, 1);
  }

  lemma OnesInHeader()
    ensures Encode(GD_AT_END, 8) == [0xFF, 0xFF, 0xFF, 0xFF, 0xFF, 0xFF, 0xFF, 0xFF]
  {
    assert Encode(0xFF, 1) == [0xFF];
    assert Encode(0xFFFF, 2) == [0xFF] + Encode(0xFF, 1);
    assert Encode(0xFF_FFFF, 3) == [0xFF] + Encode(0xFFFF, 2);
    assert Encode(0xFFFF_FFFF, 4) == [0xFF] + Encode(0xFF_FFFF, 3);
    assert Encode(0xFF_FFFF_FFFF, 5) == [0xFF] + Encode(0xFFFF_FFFF, 4);
    assert Encode(0xFFFF_FFFF_FFFF, 6) == [0xFF] + Encode(0xFF_FFFF_FFFF, 5);
    assert Encode(0xFF_FFFF_FFFF_FFFF, 7) == [0xFF] + Encode(0xFFFF_FFFF_FFFF, 6);
    assert Encode(0xFFFF_FFFF_FFFF_FFFF, 8) == [0xFF] + Encode(0xFF_FFFF_FFFF_FFFF, 7);
  }

  lemma MiddleFields(file: Bytes, pos: nat, descriptorSectors: nat)
    requires At(file, pos, HeaderMiddle(descriptorSectors)) && descriptorSectors < U64
    ensures At(file, pos, [0x80, 0, 0, 0, 0, 0, 0, 0])
    ensures LongAt(file, pos + 8) == Some(1) && LongAt(file, pos + 16) == Some(descriptorSectors)
  {
    SmallLong(0x80);
    hide Encode, LongAt, At;
    AtParts(file, pos, Encode(GRAIN_SECTORS, 8) + Encode(1, 8), Encode(descriptorSectors, 8));
    AtParts(file, pos, Encode(GRAIN_SECTORS, 8), Encode(1, 8));
    LongReads(file, pos + 8, 1);
    LongReads(file, pos + 16, descriptorSectors);
  }

  lemma FooterFields(file: Bytes, pos: nat, capacity: nat, descriptorSectors: nat, gdOffset: nat)
    requires Header(capacity, descriptorSectors, gdOffset).Some?
    requires At(file, pos, Header(capacity, descriptorSectors, gdOffset).value)
    ensures HeaderAt(file, pos)
    ensures LongAt(file, pos + 12) == Some(capacity) && LongAt(file, pos + 56) == Some(gdOffset)
    ensures LongAt(file, pos + 28) == Some(1) && LongAt(file, pos + 36) == Some(descriptorSectors)
    ensures At(file, pos + 56, Encode(gdOffset, 8))
  {
    StartBytes();
    TableBytesInHeader();
    EndBytes();
    HeaderPartsFit(descriptorSectors);
    hide Encode, Zeros, LongAt, At, HeaderStart, HeaderMiddle, HeaderEnd;
    var table := Encode(GTES_PER_GT, 4) + Encode(0, 8);
    var afterTable := Encode(gdOffset, 8) + HeaderEnd();
    assert Encode(GTES_PER_GT, 4) + (Encode(0, 8) + afterTable) == table + afterTable;
    var afterCapacity := HeaderMiddle(descriptorSectors) + (table + afterTable);
    AtParts(file, pos, HeaderStart(), Encode(capacity, 8) + afterCapacity);
    AtParts(file, pos + 12, Encode(capacity, 8), afterCapacity);
    AtParts(file, pos + 20, HeaderMiddle(descriptorSectors), table + afterTable);
    AtParts(file, pos + 44, table, afterTable);
    AtParts(file, pos + 56, Encode(gdOffset, 8), HeaderEnd());
    AtParts(file, pos + 64, [0x80, 0, 0, 0, 0, 0, 0, 0, 0, 0x0A, 0x20, 0x0D, 0x0A, 1, 0], Zeros(433));
    MiddleFields(file, pos + 20, descriptorSectors);
    LongReads(file, pos + 12, capacity);
    LongReads(file, pos + 56, gdOffset);
  }

  lemma HeaderPartsFit(descriptorSectors: nat)
    ensures |HeaderStart()| == 12 && |HeaderMiddle(descriptorSectors)| == 24
  {
  }

  /** The overhead sectors: the header, the descriptor behind it, and zeros. */
  function Opening(capacity: nat, text: Bytes): Option<Bytes>
    requires |text| <= (OVERHEAD_SECTORS - 1) * SECTOR
  {
    match Header(capacity, CeilDiv(|text|, SECTOR), GD_AT_END)
    case Some(header) => Some(header + text + Zeros((OVERHEAD_SECTORS - 1) * SECTOR - |text|))
    case None => None
  }

  /** A file that begins so gives its descriptor and its capacity back. */
  lemma DescriptorReads(file: Bytes, capacity: nat, text: Bytes)
    requires |text| <= (OVERHEAD_SECTORS - 1) * SECTOR
    requires Opening(capacity, text).Some? && Opening(capacity, text).value <= file
    ensures ReadDescriptor(file) == Some(text + Zeros(CeilDiv(|text|, SECTOR) * SECTOR - |text|))
    ensures LongAt(file, 12) == Some(capacity)
  {
    OnesInHeader();
    hide HeaderAt, LongAt, Header, Encode;
    var sectors := CeilDiv(|text|, SECTOR);
    var header := Header(capacity, sectors, GD_AT_END).value;
    HeaderIsOneSector(capacity, sectors, GD_AT_END);
    assert At(file, 0, header) by {
      assert file[..SECTOR] == header;
    }
    FooterFields(file, 0, capacity, sectors, GD_AT_END);
    var padded := text + Zeros(sectors * SECTOR - |text|);
    assert file[SECTOR..(1 + sectors) * SECTOR] == padded by {
      assert |Opening(capacity, text).value| == OVERHEAD_SECTORS * SECTOR;
      assert Opening(capacity, text).value[SECTOR..(1 + sectors) * SECTOR] == padded;
    }
  }

  /** A grain record reads back as its grain. */
  lemma RecordReads(file: Bytes, inflate: Bytes -> Bytes, sector: nat, lba: nat, data: Bytes)
    requires GrainRecord(lba, data).Some?
    requires At(file, sector * SECTOR, GrainRecord(lba, data).value)
    ensures ReadMarker(file, inflate, sector, lba) == Some(inflate(data))
  {
    hide Encode, Zeros, LongAt, WordAt;
    var pos := sector * SECTOR;
    var padded := data + Zeros(Padding(12 + |data|));
    AtParts(file, pos, Encode(lba, 8), Encode(|data|, 4) + padded);
    AtParts(file, pos + 8, Encode(|data|, 4), padded);
    AtParts(file, pos + 12, data, Zeros(Padding(12 + |data|)));
    LongReads(file, pos, lba);
    WordReads(file, pos + 8, |data|);
  }
}
