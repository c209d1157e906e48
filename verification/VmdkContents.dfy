/** What the bytes of a streamOptimized VMDK hold while it is being written: the grains so far, found through tables
    that are still in memory; and what a reader finds once tables and directory are in the file. */
module VmdkContents {
  import opened Basics
  import opened LittleEndian
  import opened VmdkReader
  import opened VmdkFormat

  /** The grain tables by their index; a table is absent while its grains are all zero. */
  type Tables = map<nat, seq<nat>>

  /** zlib on one grain: a deflated grain inflates to itself (RFC 1950, section 2.2) and its length fits a marker. */
  ghost predicate Lossless(deflate: Bytes -> Bytes, inflate: Bytes -> Bytes) {
    forall g: Bytes :: |g| == GRAIN ==> |deflate(g)| < U32 && inflate(deflate(g)) == g
  }

  lemma Deflates(deflate: Bytes -> Bytes, inflate: Bytes -> Bytes, g: Bytes)
    requires Lossless(deflate, inflate) && |g| == GRAIN
    ensures |deflate(g)| < U32 && inflate(deflate(g)) == g
  {
  }

  predicate IsGrains(grains: seq<Bytes>) {
    forall k :: 0 <= k < |grains| ==> |grains[k]| == GRAIN
  }

  /** The table entry of grain `k`; zero if it has no table. */
  function Entry(tables: Tables, k: nat): nat {
    var t := k / GTES_PER_GT;
    if t in tables && |tables[t]| == GTES_PER_GT then tables[t][k % GTES_PER_GT] else 0
  }

  /** `setdefault`, then the entry of grain `k`. */
  function WithEntry(tables: Tables, k: nat, sector: nat): Tables {
    var t := k / GTES_PER_GT;
    var table := if t in tables then tables[t] else seq(GTES_PER_GT, _ => 0);
    if |table| == GTES_PER_GT then tables[t := table[k % GTES_PER_GT := sector]] else tables
  }

  /** Grain `k` can be found: no entry if it is all zero, else one that points at a marker carrying its own address. */
  predicate Stored(file: Bytes, inflate: Bytes -> Bytes, tables: Tables, k: nat, grain: Bytes) {
    var e := Entry(tables, k);
    if grain == Zeros(GRAIN) then e == 0
    else e != 0 && ReadMarker(file, inflate, e, k * GRAIN_SECTORS) == Some(grain)
  }

  predicate Holds(file: Bytes, inflate: Bytes -> Bytes, tables: Tables, grains: seq<Bytes>) {
    forall k :: 0 <= k < |grains| ==> Stored(file, inflate, tables, k, grains[k])
  }

  /** The tables cover nothing but the first `n` grains, and their entries fit 32 bits. */
  ghost predicate TablesFit(tables: Tables, n: nat) {
    && (forall t :: t in tables ==> |tables[t]| == GTES_PER_GT && t * GTES_PER_GT < n)
    && (forall t, e :: t in tables && 0 <= e < |tables[t]| ==> tables[t][e] < U32)
    && (forall k :: k >= n ==> Entry(tables, k) == 0)
  }

  lemma EntryOfOther(tables: Tables, k: nat, sector: nat, j: nat)
    requires forall t :: t in tables ==> |tables[t]| == GTES_PER_GT
    ensures Entry(WithEntry(tables, k, sector), j) == if j == k then sector else Entry(tables, j)
  {
  }

  lemma ReadExtends(file: Bytes, file': Bytes, pos: nat)
    requires file <= file'
    ensures WordAt(file, pos).Some? ==> WordAt(file', pos) == WordAt(file, pos)
    ensures LongAt(file, pos).Some? ==> LongAt(file', pos) == LongAt(file, pos)
  {
  }

  lemma MarkerExtends(file: Bytes, file': Bytes, inflate: Bytes -> Bytes, sector: nat, lba: nat)
    requires file <= file' && ReadMarker(file, inflate, sector, lba).Some?
    ensures ReadMarker(file', inflate, sector, lba) == ReadMarker(file, inflate, sector, lba)
  {
    hide WordAt, LongAt;
    var pos := sector * SECTOR;
    ReadExtends(file, file', pos);
    ReadExtends(file, file', pos + 8);
    var length := WordAt(file, pos + 8).value;
    assert file'[pos + 12..pos + 12 + length] == file[pos + 12..pos + 12 + length];
  }

  lemma HoldsExtends(file: Bytes, file': Bytes, inflate: Bytes -> Bytes, tables: Tables, grains: seq<Bytes>)
    requires file <= file' && Holds(file, inflate, tables, grains)
    ensures Holds(file', inflate, tables, grains)
  {
    hide ReadMarker, Entry, Zeros;
    forall k | 0 <= k < |grains| ensures Stored(file', inflate, tables, k, grains[k]) {
      assert Stored(file, inflate, tables, k, grains[k]);
      if grains[k] != Zeros(GRAIN) {
        MarkerExtends(file, file', inflate, Entry(tables, k), k * GRAIN_SECTORS);
      }
    }
  }

  lemma ZeroGrainSkipped(file: Bytes, inflate: Bytes -> Bytes, tables: Tables, grains: seq<Bytes>)
    requires Holds(file, inflate, tables, grains) && TablesFit(tables, |grains|)
    ensures Holds(file, inflate, tables, grains + [Zeros(GRAIN)]) && TablesFit(tables, |grains| + 1)
  {
    hide ReadMarker, Entry, Zeros;
    var grains' := grains + [Zeros(GRAIN)];
    forall k | 0 <= k < |grains'| ensures Stored(file, inflate, tables, k, grains'[k]) {
      if k < |grains| { assert Stored(file, inflate, tables, k, grains[k]); }
    }
  }

  lemma GrainAppended(file: Bytes, inflate: Bytes -> Bytes, tables: Tables, grains: seq<Bytes>, grain: Bytes,
                      sector: nat, data: Bytes)
    requires Holds(file, inflate, tables, grains) && TablesFit(tables, |grains|)
    requires |file| == sector * SECTOR && 0 < sector && grain != Zeros(GRAIN) && inflate(data) == grain
    requires GrainRecord(|grains| * GRAIN_SECTORS, data).Some?
    ensures Holds(file + GrainRecord(|grains| * GRAIN_SECTORS, data).value, inflate,
                  WithEntry(tables, |grains|, sector), grains + [grain])
  {
    hide ReadMarker, Entry, Zeros, GrainRecord, WithEntry;
    var n := |grains|;
    var record := GrainRecord(n * GRAIN_SECTORS, data).value;
    var file', tables', grains' := file + record, WithEntry(tables, n, sector), grains + [grain];
    HoldsExtends(file, file', inflate, tables, grains);
    forall k | 0 <= k < |grains'| ensures Stored(file', inflate, tables', k, grains'[k]) {
      EntryOfOther(tables, n, sector, k);
      if k < n {
        assert Stored(file', inflate, tables, k, grains[k]);
      } else {
        AtEnd(file, record);
        RecordReads(file', inflate, sector, n * GRAIN_SECTORS, data);
      }
    }
  }

  lemma EntryFits(tables: Tables, n: nat, sector: nat)
    requires TablesFit(tables, n) && sector < U32
    ensures TablesFit(WithEntry(tables, n, sector), n + 1) && WithEntry(tables, n, sector) != map[]
  {
    var tables' := WithEntry(tables, n, sector);
    assert n / GTES_PER_GT in tables';
    forall k | k >= n + 1 ensures Entry(tables', k) == 0 {
      EntryOfOther(tables, n, sector, k);
    }
    hide Entry;
  }

  /** The sector counter counts the output, and every grain so far can be found through the tables. */
  ghost predicate Consistent(file: Bytes, sector: nat, inflate: Bytes -> Bytes, tables: Tables, grains: seq<Bytes>) {
    && |file| == sector * SECTOR && sector >= OVERHEAD_SECTORS && (tables == map[] ==> sector == OVERHEAD_SECTORS)
    && TablesFit(tables, |grains|) && Holds(file, inflate, tables, grains)
  }

  lemma RecordIsWhole(lba: nat, data: Bytes)
    ensures GrainRecord(lba, data).Some? ==> |GrainRecord(lba, data).value| % SECTOR == 0
  {
  }

  lemma RecordFails(lba: nat, data: Bytes)
    requires GrainRecord(lba, data) == None && |data| < U32
    ensures lba >= U64
  {
  }

  lemma ZeroKeeps(file: Bytes, sector: nat, inflate: Bytes -> Bytes, tables: Tables, grains: seq<Bytes>)
    requires Consistent(file, sector, inflate, tables, grains)
    ensures Consistent(file, sector, inflate, tables, grains + [Zeros(GRAIN)])
  {
    hide Holds, TablesFit;
    ZeroGrainSkipped(file, inflate, tables, grains);
  }

  lemma GrainKeeps(file: Bytes, sector: nat, inflate: Bytes -> Bytes, tables: Tables, grains: seq<Bytes>, grain: Bytes,
                   data: Bytes, record: Bytes)
    requires Consistent(file, sector, inflate, tables, grains)
    requires |grain| == GRAIN && grain != Zeros(GRAIN) && inflate(data) == grain && sector < U32
    requires GrainRecord(|grains| * GRAIN_SECTORS, data) == Some(record)
    ensures Consistent(file + record, sector + |record| / SECTOR, inflate, WithEntry(tables, |grains|, sector),
                       grains + [grain])
  {
    hide Holds, TablesFit, Zeros, WithEntry, GrainRecord;
    RecordIsWhole(|grains| * GRAIN_SECTORS, data);
    GrainAppended(file, inflate, tables, grains, grain, sector, data);
    EntryFits(tables, |grains|, sector);
  }

  // ------------------------------------------------------------------------------------------------------
  // The finished file
  // ------------------------------------------------------------------------------------------------------

  /** A grain table at sector `at`, behind its marker. */
  predicate TableAt(file: Bytes, at: nat, table: seq<nat>) {
    && 0 < at < U32 && At(file, at * SECTOR - SECTOR, MetadataMarker(GT_SECTORS, MARKER_GT))
    && At(file, at * SECTOR, TableBytes(table))
  }

  /** The directory finds the tables `done` in the file, and has no entry for any other. */
  ghost predicate DirectoryFinds(file: Bytes, tables: Tables, directory: seq<nat>, done: set<nat>) {
    forall t :: 0 <= t < |directory| ==>
      if t in done then t in tables && TableAt(file, directory[t], tables[t]) else directory[t] == 0
  }

  lemma FindsExtends(file: Bytes, file': Bytes, tables: Tables, directory: seq<nat>, done: set<nat>)
    requires DirectoryFinds(file, tables, directory, done) && file <= file'
    ensures DirectoryFinds(file', tables, directory, done)
  {
    hide At, TableBytes, MetadataMarker;
    forall t | 0 <= t < |directory| && t in done ensures TableAt(file', directory[t], tables[t]) {
      assert TableAt(file, directory[t], tables[t]);
      AtExtends(file, file', directory[t] * SECTOR, TableBytes(tables[t]));
      AtExtends(file, file', directory[t] * SECTOR - SECTOR, MetadataMarker(GT_SECTORS, MARKER_GT));
    }
  }

  /** A marker and the table behind it. */
  lemma TablePlaced(file: Bytes, tables: Tables, directory: seq<nat>, done: set<nat>, t: nat, sector: nat)
    requires DirectoryFinds(file, tables, directory, done)
    requires t in tables && t < |directory| && |file| + SECTOR == sector * SECTOR && 0 < sector < U32
    ensures DirectoryFinds(file + MetadataMarker(GT_SECTORS, MARKER_GT) + TableBytes(tables[t]), tables,
                           directory[t := sector], done + {t})
  {
    hide At, TableBytes, MetadataMarker;
    var (marker, bytes) := (MetadataMarker(GT_SECTORS, MARKER_GT), TableBytes(tables[t]));
    FindsExtends(file, file + marker + bytes, tables, directory, done);
    AtEnd(file, marker);
    AtExtends(file + marker, file + marker + bytes, |file|, marker);
    AtEnd(file + marker, bytes);
  }

  /** Grain `k` of a disk that is zero beyond `grains`. */
  function GrainAt(grains: seq<Bytes>, k: nat): Bytes {
    if k < |grains| then grains[k] else Zeros(GRAIN)
  }

  /** `gd` is the sector of a directory through which a reader finds `grains`. */
  ghost predicate Indexed(file: Bytes, inflate: Bytes -> Bytes, tables: Tables, directory: seq<nat>, gd: nat,
                          grains: seq<Bytes>) {
    && Holds(file, inflate, tables, grains) && TablesFit(tables, |grains|)
    && DirectoryFinds(file, tables, directory, tables.Keys) && At(file, gd * SECTOR, TableBytes(directory))
  }

  lemma GrainReads(file: Bytes, inflate: Bytes -> Bytes, tables: Tables, directory: seq<nat>, gd: nat,
                   grains: seq<Bytes>, k: nat)
    requires Indexed(file, inflate, tables, directory, gd, grains)
    requires k / GTES_PER_GT < |directory|
    ensures ReadGrain(file, inflate, gd, k) == Some(GrainAt(grains, k))
  {
    hide ReadMarker, Zeros, At, WordAt, TableBytes, MetadataMarker, MarkerAt;
    var t := k / GTES_PER_GT;
    EntryAt(file, gd * SECTOR, directory, t);
    if k < |grains| { assert Stored(file, inflate, tables, k, grains[k]); }
    if t in tables {
      assert TableAt(file, directory[t], tables[t]);
      MarkerReads(file, directory[t] * SECTOR - SECTOR, GT_SECTORS, 1);
      EntryAt(file, directory[t] * SECTOR, tables[t], k % GTES_PER_GT);
    }
  }

  /** The first `n` grains of the disk, joined. */
  function Image(grains: seq<Bytes>, n: nat): Bytes {
    if n == 0 then [] else Image(grains, n - 1) + GrainAt(grains, n - 1)
  }

  lemma {:induction false} GrainsRead(file: Bytes, inflate: Bytes -> Bytes, tables: Tables, directory: seq<nat>,
                                      gd: nat, grains: seq<Bytes>, n: nat)
    requires Indexed(file, inflate, tables, directory, gd, grains)
    requires n <= |directory| * GTES_PER_GT
    ensures ReadGrains(file, inflate, gd, n) == Some(Image(grains, n))
  {
    hide Indexed, ReadGrain, GrainAt;
    if n > 0 {
      GrainsRead(file, inflate, tables, directory, gd, grains, n - 1);
      GrainReads(file, inflate, tables, directory, gd, grains, n - 1);
    }
  }

  lemma {:induction false} ImageIsJoin(grains: seq<Bytes>, n: nat)
    requires IsGrains(grains)
    ensures n <= |grains| ==> Image(grains, n) == Join(grains[..n]) && |Join(grains[..n])| == n * GRAIN
    ensures n >= |grains| ==> Image(grains, n) == Join(grains) + Zeros((n - |grains|) * GRAIN)
                              && |Join(grains)| == |grains| * GRAIN
  {
    assert grains[..|grains|] == grains;
    if n > 0 {
      ImageIsJoin(grains, n - 1);
      if n <= |grains| {
        assert grains[..n][..n - 1] == grains[..n - 1];
      } else {
        assert Zeros((n - 1 - |grains|) * GRAIN) + Zeros(GRAIN) == Zeros((n - |grains|) * GRAIN);
      }
    }
  }

  /** How many zeros complete the last grain. */
  function GrainPad(n: nat): (p: nat)
    ensures (n + p) % GRAIN == 0 && p < GRAIN
  {
    (GRAIN - n % GRAIN) % GRAIN
  }

  lemma NothingPlaced(file: Bytes, tables: Tables, n: nat)
    ensures DirectoryFinds(file, tables, seq(n, _ => 0), {})
  {
  }

  lemma ConsistentParts(file: Bytes, sector: nat, inflate: Bytes -> Bytes, tables: Tables, grains: seq<Bytes>)
    requires Consistent(file, sector, inflate, tables, grains)
    ensures |file| == sector * SECTOR && sector >= OVERHEAD_SECTORS && (tables == map[] ==> sector == OVERHEAD_SECTORS)
    ensures forall t :: t in tables ==> |tables[t]| == GTES_PER_GT
  {
    hide Holds, Entry;
  }

  lemma ConsistentTables(file: Bytes, sector: nat, inflate: Bytes -> Bytes, tables: Tables, grains: seq<Bytes>)
    requires Consistent(file, sector, inflate, tables, grains)
    ensures TablesFit(tables, |grains|)
  {
  }

  /** Every table has a place in the directory of a disk that its grains fit. */
  lemma TableInDirectory(tables: Tables, grains: seq<Bytes>, content: Bytes, capacity: nat, t: nat)
    requires TablesFit(tables, |grains|) && IsGrains(grains) && t in tables
    requires Join(grains) == content + Zeros(GrainPad(|content|)) && |content| <= capacity * SECTOR
    ensures t < CeilDiv(capacity, GRAIN_SECTORS * GTES_PER_GT)
  {
    hide Entry, Zeros, Join, IsGrains;
    ImageIsJoin(grains, |grains|);
    assert grains[..|grains|] == grains;
    assert |grains| * GRAIN == |content| + GrainPad(|content|);
    assert t * GTES_PER_GT < |grains|;
  }

  /** `file`, closed by the directory, the footer's marker, the footer and the end-of-stream marker. */
  function Closed(file: Bytes, directory: seq<nat>, packed: Bytes): Bytes {
    var gdSectors := CeilDiv(4 * |directory|, SECTOR);
    file + MetadataMarker(gdSectors, MARKER_GD)
    + (TableBytes(directory) + Zeros(gdSectors * SECTOR - 4 * |directory|))
    + MetadataMarker(1, MARKER_FOOTER) + packed + MetadataMarker(0, MARKER_EOS)
  }

  /** What a reader finds around the directory at byte `gd` and at the end of the file. */
  ghost predicate Framed(file: Bytes, gd: nat, directory: seq<nat>, packed: Bytes) {
    && gd >= SECTOR && |file| >= 3 * SECTOR
    && At(file, gd - SECTOR, MetadataMarker(CeilDiv(4 * |directory|, SECTOR), MARKER_GD))
    && At(file, gd, TableBytes(directory))
    && At(file, |file| - 3 * SECTOR, MetadataMarker(1, MARKER_FOOTER))
    && At(file, |file| - 2 * SECTOR, packed)
    && At(file, |file| - SECTOR, MetadataMarker(0, MARKER_EOS))
  }

  lemma ClosedHolds(file: Bytes, directory: seq<nat>, packed: Bytes)
    requires |packed| == SECTOR
    ensures file <= Closed(file, directory, packed)
    ensures Framed(Closed(file, directory, packed), |file| + SECTOR, directory, packed)
  {
    hide At, TableBytes, MetadataMarker, Zeros, CeilDiv;
    var out := Closed(file, directory, packed);
    var gdSectors := CeilDiv(4 * |directory|, SECTOR);
    var (gdMarker, footerMarker, end) :=
      (MetadataMarker(gdSectors, MARKER_GD), MetadataMarker(1, MARKER_FOOTER), MetadataMarker(0, MARKER_EOS));
    var (gd, zeros) := (TableBytes(directory), Zeros(gdSectors * SECTOR - 4 * |directory|));
    var upToGd := file + gdMarker + (gd + zeros);
    AtEnd(file, gdMarker);
    AtEnd(file + gdMarker, gd + zeros);
    AtEnd(upToGd, footerMarker);
    AtEnd(upToGd + footerMarker, packed);
    AtEnd(upToGd + footerMarker + packed, end);
    AtExtends(file + gdMarker, out, |file|, gdMarker);
    AtExtends(upToGd, out, |file + gdMarker|, gd + zeros);
    AtExtends(upToGd + footerMarker, out, |upToGd|, footerMarker);
    AtExtends(upToGd + footerMarker + packed, out, |upToGd + footerMarker|, packed);
    AtParts(out, |file + gdMarker|, gd, zeros);
  }

  /** A file with its directory behind a marker, its footer second-last between two markers, reads as its content,
      zero-padded to the capacity. */
  lemma FileReads(file: Bytes, inflate: Bytes -> Bytes, tables: Tables, directory: seq<nat>, gd: nat,
                  grains: seq<Bytes>, content: Bytes, capacity: nat, descriptorSectors: nat)
    requires Indexed(file, inflate, tables, directory, gd, grains) && IsGrains(grains)
    requires Join(grains) == content + Zeros(GrainPad(|content|)) && |content| <= capacity * SECTOR
    requires |directory| == CeilDiv(capacity, GRAIN_SECTORS * GTES_PER_GT)
    requires Header(capacity, descriptorSectors, gd).Some?
    requires Framed(file, gd * SECTOR, directory, Header(capacity, descriptorSectors, gd).value)
    ensures ReadDisk(file, inflate) == Some(content + Zeros(capacity * SECTOR - |content|))
  {
    hide Indexed, At, LongAt, ReadGrains, Zeros, Join, Image, MarkerAt, HeaderAt, MetadataMarker, TableBytes;
    DirectoryIsSmall(capacity, |directory|);
    hide Header;
    FooterFields(file, |file| - 2 * SECTOR, capacity, descriptorSectors, gd);
    MarkerReads(file, gd * SECTOR - SECTOR, DirectorySectors(capacity), 2);
    MarkerReads(file, |file| - 3 * SECTOR, 1, 3);
    MarkerReads(file, |file| - SECTOR, 0, 0);
    var n := CeilDiv(capacity, GRAIN_SECTORS);
    GrainsRead(file, inflate, tables, directory, gd, grains, n);
    ImageIsJoin(grains, |grains|);
    assert |grains| * GRAIN == |content| + GrainPad(|content|);
    assert |grains| <= n;
    ImageIsJoin(grains, n);
    var bytes := Join(grains) + Zeros((n - |grains|) * GRAIN);
    assert |bytes| == n * GRAIN >= capacity * SECTOR;
    CutsToContent(content, GrainPad(|content|), (n - |grains|) * GRAIN, capacity * SECTOR);
  }

  lemma DirectoryIsSmall(capacity: nat, n: nat)
    requires capacity < U64 && n == CeilDiv(capacity, GRAIN_SECTORS * GTES_PER_GT)
    ensures CeilDiv(4 * n, SECTOR) == DirectorySectors(capacity) < U64
  {
  }

  lemma CutsToContent(content: Bytes, pad: nat, more: nat, size: nat)
    requires |content| <= size <= |content| + pad + more
    ensures (content + Zeros(pad) + Zeros(more))[..size] == content + Zeros(size - |content|)
  {
  }

  /** Once the tables stand in the file and the directory finds them, closing the file makes the disk readable. */
  lemma ClosedReads(file: Bytes, placed: Bytes, sector: nat, inflate: Bytes -> Bytes, tables: Tables,
                    grains: seq<Bytes>, directory: seq<nat>, content: Bytes, capacity: nat, descriptorSectors: nat,
                    gd: nat, packed: Bytes)
    requires Consistent(file, sector, inflate, tables, grains) && IsGrains(grains)
    requires Join(grains) == content + Zeros(GrainPad(|content|)) && |content| <= capacity * SECTOR
    requires file <= placed && |placed| + SECTOR == gd * SECTOR
    requires |directory| == CeilDiv(capacity, GRAIN_SECTORS * GTES_PER_GT)
    requires DirectoryFinds(placed, tables, directory, tables.Keys)
    requires Header(capacity, descriptorSectors, gd) == Some(packed)
    ensures ReadDisk(Closed(placed, directory, packed), inflate) == Some(content + Zeros(capacity * SECTOR - |content|))
  {
    hide At, DirectoryFinds, Holds, TablesFit, ReadDisk, Closed, Header, Join, Zeros, CeilDiv, IsGrains, MetadataMarker;
    hide TableBytes;
    var out := Closed(placed, directory, packed);
    HeaderIsOneSector(capacity, descriptorSectors, gd);
    ClosedHolds(placed, directory, packed);
    HoldsExtends(file, out, inflate, tables, grains);
    FindsExtends(placed, out, tables, directory, tables.Keys);
    FileReads(out, inflate, tables, directory, gd, grains, content, capacity, descriptorSectors);
  }
}
