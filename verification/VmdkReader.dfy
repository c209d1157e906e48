/** A reader of streamOptimized VMDK files, from the bytes alone: its numbers are those of the technical note "Virtual Disk
    Format 5.0", section "Stream-Optimized Compressed Sparse Extents". It starts from the footer, and refuses any other
    magic, version, flag, size, marker or compression. */
module VmdkReader {
  import opened Basics

  /** `b` stands at position `pos` of `file`. */
  predicate At(file: Bytes, pos: nat, b: Bytes) {
    pos + |b| <= |file| && file[pos..pos + |b|] == b
  }

  /** The four-byte integer at `pos`, lowest byte first. */
  function WordAt(file: Bytes, pos: nat): Option<nat> {
    if pos + 4 > |file| then None
    else
      Some(file[pos] as nat + 0x100 * file[pos + 1] as nat + 0x1_0000 * file[pos + 2] as nat
           + 0x100_0000 * file[pos + 3] as nat)
  }

  /** The eight-byte integer at `pos`. */
  function LongAt(file: Bytes, pos: nat): Option<nat> {
    match (WordAt(file, pos), WordAt(file, pos + 4))
    case (Some(low), Some(high)) => Some(low + 0x1_0000_0000 * high)
    case _ => None
  }

  function Ceil(n: nat, d: nat): nat
    requires d > 0
  {
    (n + d - 1) / d
  }

  /** The grain that the marker at sector `sector` carries, if it is the marker of the grain at `lba`. */
  function ReadMarker(file: Bytes, inflate: Bytes -> Bytes, sector: nat, lba: nat): Option<Bytes> {
    var pos := sector * 512;
    match (LongAt(file, pos), WordAt(file, pos + 8))
    case (Some(own), Some(length)) =>
      if own == lba && pos + 12 + length <= |file| then Some(inflate(file[pos + 12..pos + 12 + length])) else None
    case _ => None
  }

  /** A metadata marker at byte `pos`: how many sectors of metadata follow it, no data size, and of what kind. */
  predicate MarkerAt(file: Bytes, pos: int, sectors: nat, kind: byte) {
    pos >= 0 && LongAt(file, pos) == Some(sectors) && At(file, pos + 8, [0, 0, 0, 0, kind, 0, 0, 0])
  }

  /** Grain `k`: directory entry, then the table of 512 entries in 4 sectors behind its marker, then table entry, then the
      grain's marker; an entry of zero means an all-zero grain. */
  function ReadGrain(file: Bytes, inflate: Bytes -> Bytes, gdOffset: nat, k: nat): Option<Bytes> {
    match WordAt(file, gdOffset * 512 + 4 * (k / 512))
    case None => None
    case Some(table) =>
      if table == 0 then Some(Zeros(65536))
      else if !MarkerAt(file, table * 512 - 512, 4, 1) then None
      else
        match WordAt(file, table * 512 + 4 * (k % 512))
        case None => None
        case Some(entry) =>
          if entry == 0 then Some(Zeros(65536)) else ReadMarker(file, inflate, entry, k * 128)
  }

  function ReadGrains(file: Bytes, inflate: Bytes -> Bytes, gdOffset: nat, n: nat): Option<Bytes> {
    if n == 0 then Some([])
    else
      match (ReadGrains(file, inflate, gdOffset, n - 1), ReadGrain(file, inflate, gdOffset, n - 1))
      case (Some(before), Some(grain)) => Some(before + grain)
      case _ => None
  }

  /** The sectors of the directory of a disk of that capacity: four bytes for each table of 512 grains of 128 sectors. */
  function DirectorySectors(capacity: nat): nat { Ceil(4 * Ceil(capacity, 65536), 512) }

  /** The fields of a header or footer that the layout fixes: "KDMV", version 3, the flags of the newline test, of
      compressed grains and of markers; 128 sectors a grain; 512 entries a table, no redundant directory; 128 sectors of
      overhead, a clean shutdown, the newline test, deflate; and zeros. */
  predicate HeaderAt(file: Bytes, pos: nat) {
    && At(file, pos, [0x4B, 0x44, 0x4D, 0x56, 3, 0, 0, 0, 1, 0, 3, 0])
    && At(file, pos + 20, [0x80, 0, 0, 0, 0, 0, 0, 0])
    && At(file, pos + 44, [0, 2, 0, 0, 0, 0, 0, 0, 0, 0, 0, 0])
    && At(file, pos + 64, [0x80, 0, 0, 0, 0, 0, 0, 0, 0, 0x0A, 0x20, 0x0D, 0x0A, 1, 0])
    && At(file, pos + 79, Zeros(433))
  }

  /** The disk: the footer is the second-last sector, between its marker and the end-of-stream marker; its grains, cut at
      the capacity. */
  function ReadDisk(file: Bytes, inflate: Bytes -> Bytes): Option<Bytes> {
    if |file| < 1536 then None
    else
      var footer := |file| - 1024;
      match (LongAt(file, footer + 12), LongAt(file, footer + 56))
      case (Some(capacity), Some(gdOffset)) =>
        if !HeaderAt(file, footer) || !MarkerAt(file, footer - 512, 1, 3) || !MarkerAt(file, footer + 512, 0, 0)
           || !MarkerAt(file, gdOffset as int * 512 - 512, DirectorySectors(capacity), 2)
        then None
        else
          var bytes := ReadGrains(file, inflate, gdOffset, Ceil(capacity, 128));
          if bytes.Some? && capacity * 512 <= |bytes.value| then Some(bytes.value[..capacity * 512]) else None
      case _ => None
  }

  /** The descriptor, with the zeros that complete its last sector: the header in the first sector says where it is, and,
      by eight bytes of ones, that the directory's offset is to be looked up in the footer. */
  function ReadDescriptor(file: Bytes): Option<Bytes> {
    match (LongAt(file, 28), LongAt(file, 36))
    case (Some(offset), Some(sectors)) =>
      if HeaderAt(file, 0) && At(file, 56, [0xFF, 0xFF, 0xFF, 0xFF, 0xFF, 0xFF, 0xFF, 0xFF])
         && (offset + sectors) * 512 <= |file|
      then Some(file[offset * 512..(offset + sectors) * 512])
      else None
    case _ => None
  }
}
