/** The two ends the sink is driven from: `_export_segments` (sdk/api/export.py) cuts an export into segments, and
    `FlushableSegment.blocks` (sdk/dedup/buffered_export_sink.py) cuts a segment into blocks. */
module ExportDriver {
  import opened Basics
  import opened SinkModel
  import opened SinkInvariant

  /** `range` is the stretch of the export that segment `i` covers. */
  predicate IsRange(cfg: Config, range: (nat, nat), i: nat) {
    range.0 == i * cfg.segmentSize && ExpectedLength(cfg, i) > 0 && range.1 == range.0 + ExpectedLength(cfg, i)
  }

  /** The ranges of an export: `range(0, size, segment_size)`, each ending at the next start or at the size. */
  method SegmentRanges(cfg: Config) returns (ranges: seq<(nat, nat)>)
    requires cfg.Valid()
    ensures |ranges| == cfg.Segments()
    ensures forall i :: 0 <= i < |ranges| ==>
              IsRange(cfg, ranges[i], i)
    ensures forall i :: 0 <= i < |ranges| ==> ranges[i].0 == if i == 0 then 0 else ranges[i - 1].1
    ensures ranges != [] ==> ranges[|ranges| - 1].1 == cfg.size
  {
    ranges := [];
    var start := 0;
    while start < cfg.size
      invariant start == |ranges| * cfg.segmentSize
      invariant |ranges| > 0 ==> (|ranges| - 1) * cfg.segmentSize < cfg.size
      invariant forall i :: 0 <= i < |ranges| ==>
                  IsRange(cfg, ranges[i], i)
      invariant forall i :: 0 <= i < |ranges| ==> ranges[i].0 == if i == 0 then 0 else ranges[i - 1].1
      invariant ranges != [] ==> ranges[|ranges| - 1].1 == if start < cfg.size then start else cfg.size
      decreases cfg.size - start
    {
      var end := if start + cfg.segmentSize < cfg.size then start + cfg.segmentSize else cfg.size;
      assert (|ranges| + 1) * cfg.segmentSize == start + cfg.segmentSize;
      ranges := ranges + [(start, end)];
      start := start + cfg.segmentSize;
    }
    CountSegments(cfg, |ranges|);
  }

  lemma CountSegments(cfg: Config, n: nat)
    requires cfg.Valid()
    requires n * cfg.segmentSize >= cfg.size
    requires n > 0 ==> (n - 1) * cfg.segmentSize < cfg.size
    ensures n == cfg.Segments()
  {
    var d := cfg.segmentSize;
    var q := cfg.size + d - 1;
    assert q == d * (q / d) + q % d;
    assert n * d <= q < n * d + d by { assert n > 0 ==> (n - 1) * d == n * d - d; }
    Quotient(q, d, n);
  }

  lemma Quotient(q: nat, d: nat, n: nat)
    requires d > 0 && n * d <= q < n * d + d
    ensures q / d == n
  {
    var m := q / d;
    assert q == d * m + q % d;
    assert (n - m) * d < d && (m - n) * d < d;
    assert forall x: int :: x >= 1 ==> x * d >= d;
  }

  /** The sink accepts the driver's every `begin_segment`: range `i` is what it asks for once the ranges before it
      were begun and completed. */
  lemma DriverIsAccepted(cfg: Config, s: Sink, ranges: seq<(nat, nat)>, i: nat)
    requires cfg.Valid() && Inv(cfg, s)
    requires s.ctl.phase == Open && !Filling(s.feed)
    requires i < |ranges| && |s.feed.sealed| == i
    requires IsRange(cfg, ranges[i], i)
    ensures BeginAccepted(cfg, s, i, ranges[i].0, ranges[i].1 as int - ranges[i].0)
  {
    hide Slots, Contents, Blank, Lifecycle, CommitStops, AbortStops, Parking, Deaths, Losses;
  }

  /** `blocks(block)`: the segment's bytes in order, in blocks of the given size but for a shorter last one. */
  method Blocks(bytes: Bytes, block: nat) returns (blocks: seq<Bytes>)
    requires block > 0
    ensures Join(blocks) == bytes
    ensures forall i :: 0 <= i < |blocks| ==> 0 < |blocks[i]| <= block
    ensures forall i :: 0 <= i < |blocks| - 1 ==> |blocks[i]| == block
    ensures bytes == [] <==> blocks == []
  {
    blocks := [];
    var offset := 0;
    while offset < |bytes|
      invariant Join(blocks) == bytes[..if offset < |bytes| then offset else |bytes|]
      invariant forall i :: 0 <= i < |blocks| ==> 0 < |blocks[i]| <= block
      invariant offset < |bytes| ==> forall i :: 0 <= i < |blocks| ==> |blocks[i]| == block
      invariant forall i :: 0 <= i < |blocks| - 1 ==> |blocks[i]| == block
      invariant offset == 0 <==> blocks == []
      decreases |bytes| - offset
    {
      var length := if block < |bytes| - offset then block else |bytes| - offset;
      var next := bytes[offset..offset + length];
      assert bytes[..offset + length] == bytes[..offset] + next;
      assert (blocks + [next])[..|blocks|] == blocks;
      blocks := blocks + [next];
      offset := offset + block;
    }
  }
}
