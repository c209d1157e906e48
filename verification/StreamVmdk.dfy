/** `StreamOptimizedVmdkSink` (examples/hypervisor-restore/stream_vmdk.py): the writer that emits grains as they come
    and tables last, every offset taken from its running sector counter. */
module StreamVmdk {
  import opened Basics
  import opened LittleEndian
  import opened VmdkReader
  import opened VmdkFormat
  import opened VmdkContents
  import opened Sorting
  import SinkModel
  import ExportDriver

  const SEGMENT_SIZE: nat := 0x200_0000
  const BLOCK: nat := 0x80_0000

  /** Why a call raised: a descriptor too long for the overhead sectors, a value too wide for a header or marker field,
      a block off the grain grid, a sector number too wide for a table, a table beyond the directory. */
  datatype Status = Done | NoRoom | TooWide | Misaligned | TooLong | OffDirectory

  function Less(): (nat, nat) -> bool { (a: nat, b: nat) => a < b }

  lemma LessIsOrder()
    ensures StrictTotalOrder(Less())
  {
  }

  /** A block cut into grains, the last one completed with zeros. */
  function CutGrains(block: Bytes): (grains: seq<Bytes>)
    decreases |block|
  {
    if block == [] then []
    else if |block| <= GRAIN then [block + Zeros(GRAIN - |block|)]
    else [block[..GRAIN]] + CutGrains(block[GRAIN..])
  }

  lemma {:induction false} CutGrainsJoin(block: Bytes)
    ensures IsGrains(CutGrains(block))
    ensures Join(CutGrains(block)) == block + Zeros(GrainPad(|block|))
    decreases |block|
  {
    hide Zeros, Join, GrainPad, IsGrains;
    PadOfBlock(|block|);
    if block == [] {
      JoinNone();
      CutNone();
      assert [] + Zeros(0) == [];
    } else if |block| <= GRAIN {
      JoinOne(block + Zeros(GrainPad(|block|)));
      assert CutGrains(block) == [block + Zeros(GrainPad(|block|))];
      CutOne(block + Zeros(GrainPad(|block|)), []);
    } else {
      var first, rest := block[..GRAIN], block[GRAIN..];
      CutGrainsJoin(rest);
      JoinOne(first);
      CutOne(first, CutGrains(rest));
      JoinAppends([first], CutGrains(rest));
      assert block == first + rest;
    }
  }

  lemma CutNone()
    ensures IsGrains([]) && Zeros(0) == []
  {
  }

  lemma CutOne(first: Bytes, rest: seq<Bytes>)
    requires |first| == GRAIN && IsGrains(rest)
    ensures IsGrains([first]) && IsGrains([first] + rest)
  {
  }

  lemma PadOfBlock(n: nat)
    ensures n == 0 ==> GrainPad(n) == 0
    ensures 0 < n <= GRAIN ==> GrainPad(n) == GRAIN - n
    ensures n >= GRAIN ==> GrainPad(n) == GrainPad(n - GRAIN)
  {
  }

  lemma {:induction false} JoinLength(grains: seq<Bytes>)
    requires IsGrains(grains)
    ensures |Join(grains)| == |grains| * GRAIN
  {
    ImageIsJoin(grains, |grains|);
    assert grains[..|grains|] == grains;
  }

  lemma RoomForText(n: nat)
    ensures 1 + CeilDiv(n, SECTOR) > OVERHEAD_SECTORS <==> n > (OVERHEAD_SECTORS - 1) * SECTOR
  {
  }

  lemma HeaderFails(capacity: nat, descriptorSectors: nat)
    requires Header(capacity, descriptorSectors, GD_AT_END) == None && descriptorSectors < OVERHEAD_SECTORS
    ensures capacity >= U64
  {
  }

  lemma HeaderHolds(capacity: nat, descriptorSectors: nat)
    requires Header(capacity, descriptorSectors, GD_AT_END).Some?
    ensures capacity < U64
  {
  }

  lemma OpeningIs(capacity: nat, text: Bytes, header: Bytes)
    requires |text| <= (OVERHEAD_SECTORS - 1) * SECTOR
    requires Header(capacity, CeilDiv(|text|, SECTOR), GD_AT_END) == Some(header)
    ensures |header + text| <= OVERHEAD_SECTORS * SECTOR
    ensures Opening(capacity, text) == Some(header + text + Zeros(OVERHEAD_SECTORS * SECTOR - |header + text|))
  {
    HeaderIsOneSector(capacity, CeilDiv(|text|, SECTOR), GD_AT_END);
    hide Header;
  }

  lemma NothingWritten(file: Bytes, inflate: Bytes -> Bytes)
    requires |file| == OVERHEAD_SECTORS * SECTOR
    ensures Consistent(file, OVERHEAD_SECTORS, inflate, map[], [])
    ensures Join([]) == [] + Zeros(GrainPad(0))
  {
  }

  lemma JoinNext(blocks: seq<Bytes>, i: nat)
    requires i < |blocks|
    ensures Join(blocks[..i + 1]) == Join(blocks[..i]) + blocks[i]
    ensures |Join(blocks[..i + 1])| <= |Join(blocks)|
  {
    assert blocks[..i + 1][..i] == blocks[..i];
    JoinAppends(blocks[..i + 1], blocks[i + 1..]);
    assert blocks[..i + 1] + blocks[i + 1..] == blocks;
  }

  /** After whole grains, a block begins a new grain, and its own padding completes its last one. */
  lemma BlockFits(content: Bytes, grains: seq<Bytes>, block: Bytes)
    requires IsGrains(grains) && |content| % GRAIN == 0
    requires Join(grains) == content + Zeros(GrainPad(|content|))
    ensures |grains| * GRAIN == |content| && IsGrains(CutGrains(block))
    ensures |CutGrains(block)| * GRAIN == |block| + GrainPad(|block|)
    ensures Join(grains + CutGrains(block)) == content + block + Zeros(GrainPad(|content + block|))
  {
    hide Zeros, Join, GrainPad, CutGrains, IsGrains;
    CutGrainsJoin(block);
    JoinLength(grains);
    JoinLength(CutGrains(block));
    JoinAppends(grains, CutGrains(block));
    PadAfter(|content|, |block|);
    assert Join(grains) == content;
  }

  lemma PadAfter(n: nat, m: nat)
    requires n % GRAIN == 0
    ensures GrainPad(n) == 0 && GrainPad(n + m) == GrainPad(m)
  {
  }

  lemma NonePlaced(listed: seq<nat>)
    ensures Elements(listed[..0]) == {}
  {
  }

  lemma OnePlaced(listed: seq<nat>, i: nat)
    requires i < |listed|
    ensures listed[i] in Elements(listed) && Elements(listed[..i + 1]) == Elements(listed[..i]) + {listed[i]}
  {
  }

  lemma HeaderFits(capacity: nat, descriptorSectors: nat, gd: nat)
    requires capacity < U64 && descriptorSectors < U64 && gd < U64
    ensures Header(capacity, descriptorSectors, gd).Some?
  {
  }

  class StreamOptimizedVmdkSink {
    const deflate: Bytes -> Bytes
    ghost const inflate: Bytes -> Bytes
    /** What `output` was given. */
    var output: Bytes
    var capacity: nat
    var descriptorSectors: nat
    var sector: nat
    var tables: Tables
    /** The grains written or skipped so far. */
    ghost var grains: seq<Bytes>

    ghost predicate Valid()
      reads this
    {
      && Lossless(deflate, inflate) && IsGrains(grains) && Consistent(output, sector, inflate, tables, grains)
      && capacity < U64 && descriptorSectors < OVERHEAD_SECTORS
    }

    /** `content` was flushed, its last grain completed with zeros. */
    ghost predicate HasFlushed(content: Bytes)
      reads this
    {
      Join(grains) == content + Zeros(GrainPad(|content|))
    }

    constructor (deflate: Bytes -> Bytes, ghost inflate: Bytes -> Bytes)
      ensures this.deflate == deflate && this.inflate == inflate
      ensures output == [] && sector == 0 && tables == map[] && grains == [] && capacity == 0 && descriptorSectors == 0
    {
      this.deflate, this.inflate := deflate, inflate;
      output, sector, tables, grains, capacity, descriptorSectors := [], 0, map[], [], 0, 0;
    }

    /** `_emit` */
    method Emit(data: Bytes)
      modifies this`output, this`sector
      ensures output == old(output) + data && sector == old(sector) + |data| / SECTOR
    {
      output := output + data;
      sector := sector + |data| / SECTOR;
    }

    /** `create_destination`; `text` is the descriptor. */
    method CreateDestination(logicalSize: nat, text: Bytes) returns (status: Status)
      requires Lossless(deflate, inflate)
      requires output == [] && sector == 0 && tables == map[] && grains == []
      modifies this`output, this`sector, this`capacity, this`descriptorSectors
      ensures status == Done ==> Valid() && HasFlushed([]) && sector == OVERHEAD_SECTORS
      ensures status == Done ==> capacity == CeilDiv(logicalSize, SECTOR)
      ensures status == NoRoom <==> |text| > (OVERHEAD_SECTORS - 1) * SECTOR
      ensures status == Done ==> Opening(capacity, text).Some? && output == Opening(capacity, text).value
      ensures status == Done || status == NoRoom || (status == TooWide && CeilDiv(logicalSize, SECTOR) >= U64)
    {
      hide Lossless, Consistent, Join, Header, Opening, Zeros, CeilDiv;
      capacity := CeilDiv(logicalSize, SECTOR);
      descriptorSectors := CeilDiv(|text|, SECTOR);
      RoomForText(|text|);
      if 1 + descriptorSectors > OVERHEAD_SECTORS {
        return NoRoom;
      }
      var packed := Header(capacity, descriptorSectors, GD_AT_END);
      if packed == None {
        HeaderFails(capacity, descriptorSectors);
        return TooWide;
      }
      HeaderHolds(capacity, descriptorSectors);
      var head := packed.value + text;
      OpeningIs(capacity, text, packed.value);
      Emit(head + Zeros(OVERHEAD_SECTORS * SECTOR - |head|));
      NothingWritten(output, inflate);
      return Done;
    }

    /** `_write_grains`, for the grains that follow those written so far. It fails only where the sector of a grain no
        longer fits a table entry, or where a grain's address no longer fits a marker. */
    method WriteGrains(firstLba: nat, next: seq<Bytes>) returns (status: Status)
      requires Valid() && IsGrains(next) && firstLba == |grains| * GRAIN_SECTORS
      modifies this`output, this`sector, this`tables, this`grains
      ensures old(output) <= output && (status == Done ==> Valid() && grains == old(grains) + next)
      ensures status == Done || (status == TooLong && sector >= U32)
              || (status == TooWide && firstLba + (|next| - 1) * GRAIN_SECTORS >= U64)
    {
      hide Consistent, Zeros, WithEntry, GrainRecord, Lossless;
      for i := 0 to |next|
        invariant Valid() && grains == old(grains) + next[..i]
        invariant old(output) <= output
      {
        assert next[..i + 1] == next[..i] + [next[i]];
        if next[i] == Zeros(GRAIN) {
          ZeroKeeps(output, sector, inflate, tables, grains);
        } else {
          var lba := firstLba + i * GRAIN_SECTORS;
          var data := deflate(next[i]);
          Deflates(deflate, inflate, next[i]);
          if sector >= U32 {
            return TooLong;
          }
          ghost var was, file, at := tables, output, sector;
          tables := WithEntry(tables, lba / GRAIN_SECTORS, sector);
          var record := GrainRecord(lba, data);
          if record == None {
            RecordFails(lba, data);
            return TooWide;
          }
          Emit(record.value);
          GrainKeeps(file, at, inflate, was, grains, next[i], data, record.value);
        }
        grains := grains + [next[i]];
      }
      assert next[..|next|] == next;
      return Done;
    }

    /** `flush_segment`, for the segment that follows what was flushed so far. */
    method FlushSegment(start: nat, bytes: Bytes, ghost content: Bytes) returns (status: Status)
      requires Valid() && HasFlushed(content) && start == |content|
      modifies this`output, this`sector, this`tables, this`grains
      ensures old(output) <= output
      ensures status == Done ==> Valid() && HasFlushed(content + bytes)
      ensures status == Misaligned <==> bytes != [] && start % GRAIN != 0
      ensures status == TooLong ==> sector >= U32
      ensures status == TooWide ==> start + |bytes| > U64 * SECTOR
      ensures status != NoRoom && status != OffDirectory
    {
      hide Lossless, Consistent, Zeros, GrainPad, Join, CutGrains;
      var blocks := ExportDriver.Blocks(bytes, BLOCK);
      var offset := start;
      assert blocks[..|blocks|] == blocks && blocks[..0] == [];
      JoinNone();
      for i := 0 to |blocks|
        invariant Valid() && HasFlushed(content + Join(blocks[..i])) && old(output) <= output
        invariant offset == start + |Join(blocks[..i])|
        invariant i > 0 ==> start % GRAIN == 0
        invariant i < |blocks| ==> (offset - start) % GRAIN == 0
      {
        if offset % GRAIN != 0 {
          return Misaligned;
        }
        ghost var before := content + Join(blocks[..i]);
        JoinNext(blocks, i);
        BlockFits(before, grains, blocks[i]);
        assert before + blocks[i] == content + Join(blocks[..i + 1]);
        status := WriteGrains(offset / SECTOR, CutGrains(blocks[i]));
        if status != Done {
          return;
        }
        offset := offset + |blocks[i]|;
      }
      return Done;
    }

    /** The first part of `finalize_destination`: each grain table behind its marker, lowest index first. */
    method WriteTables(ghost content: Bytes) returns (status: Status, directory: seq<nat>)
      requires Valid() && HasFlushed(content)
      modifies this`output, this`sector
      ensures old(output) <= output && |output| == sector * SECTOR
      ensures |directory| == CeilDiv(capacity, GRAIN_SECTORS * GTES_PER_GT)
      ensures status == Done ==> DirectoryFinds(output, tables, directory, tables.Keys)
      ensures status == Done ==> sector == old(sector) + 5 * |tables| && (tables == map[] || sector - 4 < U32)
      ensures status == Done || status == OffDirectory
              || (status == TooLong && tables != map[] && old(sector) + 5 * |tables| - 4 >= U32 && sector >= U32)
      ensures |content| <= capacity * SECTOR ==> status != OffDirectory
    {
      hide Lossless, Consistent, Zeros, TableBytes, DirectoryFinds, CeilDiv, MetadataMarker, Join, GrainPad;
      hide TablesFit, IsGrains, StrictTotalOrder, StrictlyIncreasing, Elements, Less;
      ghost var file0, at0 := output, sector;
      ConsistentParts(output, sector, inflate, tables, grains);
      directory := seq(CeilDiv(capacity, GRAIN_SECTORS * GTES_PER_GT), _ => 0);
      NothingPlaced(output, tables, |directory|);
      LessIsOrder();
      var listed := SortedSet(Less(), tables.Keys);
      IncreasingSize(Less(), listed);
      ghost var done: set<nat> := {};
      assert |listed| == |tables.Keys| == |tables|;
      NonePlaced(listed);
      for i := 0 to |listed|
        invariant file0 <= output && |output| == sector * SECTOR && sector == old(sector) + 5 * i
        invariant |directory| == CeilDiv(capacity, GRAIN_SECTORS * GTES_PER_GT)
        invariant done == Elements(listed[..i]) && DirectoryFinds(output, tables, directory, done)
        invariant i > 0 ==> sector - 4 < U32
      {
        var index := listed[i];
        OnePlaced(listed, i);
        ghost var file := output;
        var marker := MetadataMarker(GT_SECTORS, MARKER_GT);
        Emit(marker);
        if index >= |directory| {
          if |content| <= capacity * SECTOR {
            ConsistentTables(file0, at0, inflate, tables, grains);
            TableInDirectory(tables, grains, content, capacity, index);
          }
          return OffDirectory, directory;
        }
        if sector >= U32 {
          return TooLong, directory;
        }
        TablePlaced(file, tables, directory, done, index, sector);
        directory := directory[index := sector];
        Emit(TableBytes(tables[index]));
        done := done + {index};
      }
      assert listed[..|listed|] == listed;
      return Done, directory;
    }

    /** The rest of `finalize_destination`: the directory, the footer and the end-of-stream marker. */
    method WriteFooter(directory: seq<nat>) returns (status: Status)
      requires |output| == sector * SECTOR && capacity < U64
      modifies this`output, this`sector
      ensures |output| == sector * SECTOR
      ensures status == Done ==>
                && Header(capacity, descriptorSectors, old(sector) + 1).Some?
                && output == Closed(old(output), directory, Header(capacity, descriptorSectors, old(sector) + 1).value)
      ensures status != Done ==> status == TooWide && Header(capacity, descriptorSectors, old(sector) + 1) == None
      ensures old(output) <= output
    {
      hide TableBytes, CeilDiv, MetadataMarker, Header, Zeros;
      var gdSectors := CeilDiv(4 * |directory|, SECTOR);
      Emit(MetadataMarker(gdSectors, MARKER_GD));
      var gdOffset := sector;
      Emit(TableBytes(directory) + Zeros(gdSectors * SECTOR - 4 * |directory|));
      Emit(MetadataMarker(1, MARKER_FOOTER));
      var packed := Header(capacity, descriptorSectors, gdOffset);
      if packed == None {
        return TooWide;
      }
      HeaderIsOneSector(capacity, descriptorSectors, gdOffset);
      Emit(packed.value);
      Emit(MetadataMarker(0, MARKER_EOS));
      return Done;
    }

    /** `finalize_destination`, once `content` was flushed: a reader then finds the disk, zero-padded to the capacity.
        It fails only where a grain table would lie beyond 2^32 sectors. */
    method FinalizeDestination(ghost content: Bytes) returns (status: Status)
      requires Valid() && HasFlushed(content) && |content| <= capacity * SECTOR
      modifies this`output, this`sector
      ensures old(output) <= output && |output| == sector * SECTOR
      ensures status == Done || status == TooLong
      ensures status == TooLong <==> tables != map[] && old(sector) + 5 * |tables| - 4 >= U32
      ensures status == TooLong ==> sector >= U32
      ensures status == Done ==> ReadDisk(output, inflate) == Some(content + Zeros(capacity * SECTOR - |content|))
    {
      hide Lossless, Consistent, Zeros, DirectoryFinds, CeilDiv, Header, ReadDisk, Join, Closed, GrainPad, IsGrains;
      ghost var file0, at0 := output, sector;
      ConsistentParts(output, sector, inflate, tables, grains);
      var directory;
      status, directory := WriteTables(content);
      if status != Done {
        return;
      }
      ghost var placed, gd := output, sector + 1;
      status := WriteFooter(directory);
      HeaderFits(capacity, descriptorSectors, gd);
      ClosedReads(file0, placed, at0, inflate, tables, grains, directory, content, capacity, descriptorSectors, gd,
                  Header(capacity, descriptorSectors, gd).value);
    }
  }

  /** An export into the sink, as `_export_segments` drives it and a flusher that is not cancelled follows: the file
      reads back as the content, and its descriptor as given, unless the descriptor does not fit, the size does not fit
      the header, or the file reached 2^32 sectors. */
  method StreamDisk(sink: StreamOptimizedVmdkSink, content: Bytes, text: Bytes) returns (status: Status)
    requires Lossless(sink.deflate, sink.inflate)
    requires sink.output == [] && sink.sector == 0 && sink.tables == map[] && sink.grains == []
    modifies sink
    ensures status == Done ==>
              ReadDisk(sink.output, sink.inflate) == Some(content + Zeros(CeilDiv(|content|, SECTOR) * SECTOR - |content|))
    ensures status == Done ==>
              ReadDescriptor(sink.output) == Some(text + Zeros(CeilDiv(|text|, SECTOR) * SECTOR - |text|))
    ensures status == NoRoom <==> |text| > (OVERHEAD_SECTORS - 1) * SECTOR
    ensures status == TooWide ==> CeilDiv(|content|, SECTOR) >= U64
    ensures status == TooLong ==> sink.sector >= U32
    ensures status != Misaligned && status != OffDirectory
  {
    hide Lossless, Consistent, ReadDisk, ReadDescriptor, Opening, Zeros, CeilDiv, Join, IsGrains, GrainPad;
    status := sink.CreateDestination(|content|, text);
    if status != Done {
      return;
    }
    ghost var head := sink.output;
    var cfg := SinkModel.Config(SEGMENT_SIZE, 1, |content|);
    var ranges := ExportDriver.SegmentRanges(cfg);
    ghost var done := 0;
    for i := 0 to |ranges|
      invariant done == (if i == 0 then 0 else ranges[i - 1].1) <= |content|
      invariant sink.Valid() && sink.HasFlushed(content[..done])
      invariant sink.capacity == CeilDiv(|content|, SECTOR) && head <= sink.output
    {
      var (start, end) := ranges[i];
      assert ExportDriver.IsRange(cfg, ranges[i], i);
      RangeFits(cfg, ranges[i], i);
      assert content[..start] + content[start..end] == content[..end];
      status := sink.FlushSegment(start, content[start..end], content[..start]);
      if status != Done {
        return;
      }
      done := end;
    }
    assert content[..done] == content by { assert done == |content|; }
    status := sink.FinalizeDestination(content);
    if status == Done {
      DescriptorReads(sink.output, CeilDiv(|content|, SECTOR), text);
    }
  }

  lemma RangeFits(cfg: SinkModel.Config, range: (nat, nat), i: nat)
    requires cfg.segmentSize == SEGMENT_SIZE && ExportDriver.IsRange(cfg, range, i)
    ensures range.0 < range.1 <= cfg.size && range.0 % GRAIN == 0
  {
  }
}
