/** Each step keeps the invariant of the sink. */
module SinkSteps {
  import opened Basics
  import opened SinkModel
  import opened SinkInvariant

  lemma InitialInv(cfg: Config, s: Sink)
    requires cfg.Valid() && Initial(cfg, s)
    ensures Inv(cfg, s)
  {
    assert Segments([]) == [] && SlotsOf([]) == [];
    CountFresh(cfg.Slots());
  }

  lemma CountFresh(n: nat)
    ensures |Count(n)| == n
  {
  }

  /** The part of the invariant about the segments on their way and the slots that hold them. */
  predicate Traffic(cfg: Config, clean: bool, pool: Pool, segs: seq<Segment>, feed: Feed, f: Flusher)
    requires cfg.Valid()
  {
    Slots(cfg, pool, segs, feed, f) && Cargo(cfg, clean, pool, segs, feed, f)
  }

  /** What the segments and the slots hold. */
  predicate Cargo(cfg: Config, clean: bool, pool: Pool, segs: seq<Segment>, feed: Feed, f: Flusher) {
    && Order(cfg, clean, segs, feed, f)
    && Contents(pool, segs, feed, f)
    && Blank(clean, pool)
  }

  predicate TrafficOf(cfg: Config, s: Sink)
    requires cfg.Valid()
  {
    Traffic(cfg, Clean(s.ctl), s.pool, Segments(s.feed.queue), s.feed, s.flusher)
  }

  /** The rest: stops, wake-ups, deaths and losses. */
  predicate Signals(cfg: Config, s: Sink) {
    && CommitStops(s.ctl, s.feed, s.driver, s.flusher)
    && AbortStops(s.ctl, s.feed, s.flusher)
    && Parking(cfg, s)
    && Deaths(s.ctl, s.flusher)
    && Losses(s.ctl, s.pool, s.flusher)
  }

  lemma DataIsBoth(cfg: Config, s: Sink)
    requires cfg.Valid()
    ensures Data(cfg, s) <==> TrafficOf(cfg, s) && Signals(cfg, s)
  {
    hide Slots, Order, Contents, Blank, CommitStops, AbortStops, Parking, Deaths, Losses, Segments;
  }

  // ------------------------------------------------------------------------------------------------------
  // begin_segment takes a slot
  // ------------------------------------------------------------------------------------------------------

  predicate Takes(s: Sink) { s.ctl.phase == Open && !s.ctl.failure && s.pool.free != [] }

  lemma TakeSlot(cfg: Config, s: Sink, segs: seq<Segment>, index: nat, start: nat, length: nat)
    requires cfg.Valid() && Slots(cfg, s.pool, segs, s.feed, s.flusher)
    requires Takes(s) && !Filling(s.feed)
    ensures var t := Grant(s, index, start, length); Slots(cfg, t.pool, segs, t.feed, t.flusher)
  {
    assert s.pool.free == [s.pool.free[0]] + s.pool.free[1..];
    var t := Grant(s, index, start, length);
    assert HeldSlots(segs, t.feed, t.flusher) == HeldSlots(segs, s.feed, s.flusher) + multiset{s.pool.free[0]};
  }

  lemma TakeBlank(cfg: Config, s: Sink, segs: seq<Segment>, index: nat, start: nat, length: nat)
    requires cfg.Valid() && Cargo(cfg, true, s.pool, segs, s.feed, s.flusher)
    requires Takes(s) && !Filling(s.feed)
    requires s.pool.free[0] < |s.pool.memory| && |s.pool.memory[s.pool.free[0]]| == cfg.segmentSize
    requires s.pool.free[0] !in s.pool.free[1..]
    requires IsSegment(cfg, Segment(index, start, length, 0), s.feed.nextIndex)
    ensures var t := Grant(s, index, start, length); Cargo(cfg, true, t.pool, segs, t.feed, t.flusher)
  {
  }

  lemma TakeBlankSlot(cfg: Config, s: Sink, segs: seq<Segment>, index: nat, start: nat, length: nat)
    requires cfg.Valid() && Traffic(cfg, true, s.pool, segs, s.feed, s.flusher)
    requires Takes(s) && !Filling(s.feed)
    requires IsSegment(cfg, Segment(index, start, length, 0), s.feed.nextIndex)
    ensures var t := Grant(s, index, start, length); Traffic(cfg, true, t.pool, segs, t.feed, t.flusher)
  {
    hide Cargo, HeldSlots, Grant, IsSegment;
    TakeSlot(cfg, s, segs, index, start, length);
    FirstFreeApart(cfg, s.pool, segs, s.feed, s.flusher);
    TakeBlank(cfg, s, segs, index, start, length);
  }

  lemma GrantTraffic(cfg: Config, s: Sink, index: nat, start: nat, length: nat)
    requires cfg.Valid() && TrafficOf(cfg, s)
    requires s.ctl.phase == Open ==> !s.ctl.aborting
    requires MayGoOn(s) && !Filling(s.feed)
    requires IsSegment(cfg, Segment(index, start, length, 0), s.feed.nextIndex)
    ensures TrafficOf(cfg, Grant(s, index, start, length))
  {
    hide Traffic, Segments;
    if Takes(s) {
      TakeBlankSlot(cfg, s, Segments(s.feed.queue), index, start, length);
    }
  }

  lemma BeginTraffic(cfg: Config, s: Sink, index: int, start: int, length: int)
    requires cfg.Valid() && TrafficOf(cfg, s)
    requires s.ctl.phase == Open ==> !s.ctl.aborting
    requires s.driver.Idle?
    ensures TrafficOf(cfg, Begin(cfg, s, index, start, length))
  {
    hide Traffic, Segments, Grant;
    if BeginAccepted(cfg, s, index, start, length) && MayGoOn(s) {
      GrantTraffic(cfg, s, index, start, length);
    }
  }

  lemma WakeTraffic(cfg: Config, s: Sink)
    requires cfg.Valid() && TrafficOf(cfg, s) && Parking(cfg, s)
    requires s.ctl.phase == Open ==> !s.ctl.aborting
    requires s.driver.Parked?
    ensures TrafficOf(cfg, BeginWoken(s))
  {
    hide Traffic, Segments, Grant;
    if MayGoOn(s) {
      GrantTraffic(cfg, s, s.driver.index, s.driver.start, s.driver.length);
    }
  }

  lemma BeginSignals(cfg: Config, s: Sink, index: int, start: int, length: int)
    requires Signals(cfg, s) && s.driver.Idle?
    ensures Signals(cfg, Begin(cfg, s, index, start, length))
  {
  }

  lemma WakeSignals(cfg: Config, s: Sink)
    requires Signals(cfg, s) && s.driver.Parked?
    ensures Signals(cfg, BeginWoken(s))
  {
  }

  // ------------------------------------------------------------------------------------------------------
  // Writing into a segment, and completing it
  // ------------------------------------------------------------------------------------------------------

  lemma WriteContents(cfg: Config, s: Sink, segs: seq<Segment>, offset: int, data: Bytes)
    requires cfg.Valid() && Slots(cfg, s.pool, segs, s.feed, s.flusher)
    requires Contents(s.pool, segs, s.feed, s.flusher)
    requires Grounded(s) && WriteAccepted(s, offset, |data|)
    ensures var t := Write(s, offset, data); Contents(t.pool, segs, t.feed, t.flusher)
  {
    hide Patched, Slots;
    var t := Write(s, offset, data);
    forall i | 0 <= i < |segs| ensures HoldsSealed(t.pool, t.feed, segs[i], t.feed.dequeued + i) {
      QueuedApart(cfg, s.pool, segs, s.feed, s.flusher, i);
      assert HoldsSealed(s.pool, s.feed, segs[i], s.feed.dequeued + i);
    }
    if s.flusher.Flushing? { FlusherApart(cfg, s.pool, segs, s.feed, s.flusher, s.flusher.seg.slot); }
  }

  lemma WriteBlank(cfg: Config, s: Sink, segs: seq<Segment>, clean: bool, offset: int, data: Bytes)
    requires cfg.Valid() && Slots(cfg, s.pool, segs, s.feed, s.flusher)
    requires Blank(clean, s.pool)
    requires Grounded(s) && WriteAccepted(s, offset, |data|)
    ensures var t := Write(s, offset, data); Blank(clean, t.pool)
  {
    hide Slots;
    WriterApart(cfg, s.pool, segs, s.feed, s.flusher, s.feed.writer.value.slot);
  }

  lemma WriteSlots(cfg: Config, s: Sink, segs: seq<Segment>, clean: bool, offset: int, data: Bytes)
    requires cfg.Valid() && Slots(cfg, s.pool, segs, s.feed, s.flusher)
    requires Order(cfg, clean, segs, s.feed, s.flusher)
    requires Grounded(s) && WriteAccepted(s, offset, |data|)
    ensures var t := Write(s, offset, data);
      Slots(cfg, t.pool, segs, t.feed, t.flusher) && Order(cfg, clean, segs, t.feed, t.flusher)
  {
  }

  lemma WriteTraffic(cfg: Config, s: Sink, offset: int, data: Bytes)
    requires cfg.Valid() && TrafficOf(cfg, s) && Grounded(s)
    ensures TrafficOf(cfg, Write(s, offset, data))
  {
    hide Slots, Order, Contents, Blank, Segments, Write;
    var segs := Segments(s.feed.queue);
    if WriteAccepted(s, offset, |data|) {
      WriteSlots(cfg, s, segs, Clean(s.ctl), offset, data);
      WriteContents(cfg, s, segs, offset, data);
      WriteBlank(cfg, s, segs, Clean(s.ctl), offset, data);
    } else {
      WriteRefused(s, offset, data);
    }
  }

  lemma WriteRefused(s: Sink, offset: int, data: Bytes)
    requires Grounded(s) && !WriteAccepted(s, offset, |data|)
    ensures Write(s, offset, data) == s
  {
  }

  lemma WriteSignals(cfg: Config, s: Sink, offset: int, data: Bytes)
    requires Signals(cfg, s) && Grounded(s) && s.driver.Idle?
    ensures Signals(cfg, Write(s, offset, data))
  {
    hide Write;
  }

  lemma CompleteSlots(cfg: Config, s: Sink, segs: seq<Segment>)
    requires cfg.Valid() && Slots(cfg, s.pool, segs, s.feed, s.flusher)
    requires Grounded(s) && WriteAccepted(s, 0, 0)
    ensures var t := Complete(s); Slots(cfg, t.pool, segs + [s.feed.writer.value], t.feed, t.flusher)
  {
    var seg, t := s.feed.writer.value, Complete(s);
    assert SlotsOf(segs + [seg]) == SlotsOf(segs) + [seg.slot];
    assert HeldSlots(segs + [seg], t.feed, t.flusher) == HeldSlots(segs, s.feed, s.flusher);
  }

  lemma CompleteCargo(cfg: Config, s: Sink, segs: seq<Segment>, clean: bool)
    requires Cargo(cfg, clean, s.pool, segs, s.feed, s.flusher)
    requires Grounded(s) && WriteAccepted(s, 0, 0)
    ensures var t := Complete(s); Cargo(cfg, clean, t.pool, segs + [s.feed.writer.value], t.feed, t.flusher)
  {
    var t, more := Complete(s), segs + [s.feed.writer.value];
    forall i | 0 <= i < |more| ensures HoldsSealed(t.pool, t.feed, more[i], t.feed.dequeued + i) {
      if i < |segs| { assert HoldsSealed(s.pool, s.feed, segs[i], s.feed.dequeued + i); }
    }
  }

  lemma OpenTraffic(cfg: Config, clean: bool, pool: Pool, segs: seq<Segment>, feed: Feed, f: Flusher)
    requires cfg.Valid() && Traffic(cfg, clean, pool, segs, feed, f)
    ensures Slots(cfg, pool, segs, feed, f) && Cargo(cfg, clean, pool, segs, feed, f)
  {
  }

  lemma CloseTraffic(cfg: Config, clean: bool, pool: Pool, segs: seq<Segment>, feed: Feed, f: Flusher)
    requires cfg.Valid() && Slots(cfg, pool, segs, feed, f) && Cargo(cfg, clean, pool, segs, feed, f)
    ensures Traffic(cfg, clean, pool, segs, feed, f)
  {
  }

  lemma CompleteTraffic(cfg: Config, s: Sink)
    requires cfg.Valid() && TrafficOf(cfg, s) && Grounded(s)
    ensures TrafficOf(cfg, Complete(s))
  {
    hide Traffic, Slots, Cargo, Segments;
    if WriteAccepted(s, 0, 0) {
      OpenTraffic(cfg, Clean(s.ctl), s.pool, Segments(s.feed.queue), s.feed, s.flusher);
      CompleteSlots(cfg, s, Segments(s.feed.queue));
      CompleteCargo(cfg, s, Segments(s.feed.queue), Clean(s.ctl));
      CloseTraffic(cfg, Clean(s.ctl), s.pool, Segments(s.feed.queue) + [s.feed.writer.value], Complete(s).feed, s.flusher);
      SegmentsAppend(s.feed.queue, Some(s.feed.writer.value));
    }
  }

  lemma CompleteSignals(cfg: Config, s: Sink)
    requires Signals(cfg, s) && Grounded(s) && s.driver.Idle?
    requires s.ctl.phase == Open ==> s.ctl.finalizer == NotYet && !s.ctl.aborting
    ensures Signals(cfg, Complete(s))
  {
  }

  // ------------------------------------------------------------------------------------------------------
  // Stops: `commit` and an abort queue them, the flusher ends at one
  // ------------------------------------------------------------------------------------------------------

  /** A failure or an abort only weakens what has to hold. */
  lemma NotCleanAnyMore(cfg: Config, clean: bool, pool: Pool, segs: seq<Segment>, feed: Feed, f: Flusher)
    requires cfg.Valid() && Traffic(cfg, clean, pool, segs, feed, f)
    ensures Traffic(cfg, false, pool, segs, feed, f)
  {
    hide Slots;
  }

  lemma SameSlots(cfg: Config, pool: Pool, segs: seq<Segment>, feed: Feed, feed': Feed, f: Flusher, f': Flusher)
    requires cfg.Valid() && Slots(cfg, pool, segs, feed, f)
    requires feed'.writer == feed.writer && feed'.completed == feed.completed
    requires FlusherSlots(f') == FlusherSlots(f)
    ensures Slots(cfg, pool, segs, feed', f')
  {
    assert HeldSlots(segs, feed', f') == HeldSlots(segs, feed, f);
  }

  lemma SameCargo(cfg: Config, clean: bool, pool: Pool, segs: seq<Segment>, feed: Feed, feed': Feed, f: Flusher,
                  f': Flusher)
    requires Cargo(cfg, clean, pool, segs, feed, f)
    requires feed' == feed.(queue := feed'.queue)
    requires f' == f || (!f'.Flushing? && !f'.Releasing?)
    ensures Cargo(cfg, clean, pool, segs, feed', f')
  {
    assert Filling(feed') == Filling(feed);
    hide IsSegment, Filling;
    assert Contents(pool, segs, feed', f') by {
      assert forall i :: 0 <= i < |segs| ==> HoldsSealed(pool, feed', segs[i], feed'.dequeued + i);
    }
  }

  /** Nothing but the queue itself, in which a stop is no segment, and the end of the flusher. */
  lemma SameTraffic(cfg: Config, clean: bool, pool: Pool, segs: seq<Segment>, feed: Feed, feed': Feed, f: Flusher,
                    f': Flusher)
    requires cfg.Valid() && Traffic(cfg, clean, pool, segs, feed, f)
    requires feed' == feed.(queue := feed'.queue)
    requires f' == f || (FlusherSlots(f) == multiset{} && !f'.Flushing? && !f'.Releasing?)
    ensures Traffic(cfg, clean, pool, segs, feed', f')
  {
    SameSlots(cfg, pool, segs, feed, feed', f, f');
    SameCargo(cfg, clean, pool, segs, feed, feed', f, f');
    hide Slots, Cargo;
  }

  lemma CommitTraffic(cfg: Config, s: Sink)
    requires cfg.Valid() && TrafficOf(cfg, s)
    ensures TrafficOf(cfg, Commit(s))
  {
    hide Traffic, Segments;
    SegmentsAppend(s.feed.queue, None);
    SameTraffic(cfg, Clean(s.ctl), s.pool, Segments(s.feed.queue), s.feed, Commit(s).feed, s.flusher, s.flusher);
  }

  lemma CommitSignals(cfg: Config, s: Sink)
    requires Signals(cfg, s) && s.driver.Idle?
    requires s.ctl.phase == Open ==> !s.ctl.aborting
    requires s.ctl.finalizer == NotYet
    ensures Signals(cfg, Commit(s))
  {
  }

  lemma AbortTraffic(cfg: Config, s: Sink)
    requires cfg.Valid() && TrafficOf(cfg, s)
    ensures TrafficOf(cfg, AbortTakes(s))
  {
    hide Traffic, Segments;
    SegmentsAppend(s.feed.queue, None);
    NotCleanAnyMore(cfg, Clean(s.ctl), s.pool, Segments(s.feed.queue), s.feed, s.flusher);
    SameTraffic(cfg, false, s.pool, Segments(s.feed.queue), s.feed, AbortTakes(s).feed, s.flusher, s.flusher);
  }

  lemma AbortSignals(cfg: Config, s: Sink)
    requires Signals(cfg, s)
    requires s.flusher.NotStarted? ==> !s.driver.Parked?
    ensures Signals(cfg, AbortTakes(s))
  {
  }

  // ------------------------------------------------------------------------------------------------------
  // The flusher
  // ------------------------------------------------------------------------------------------------------

  lemma TakeSegmentSlots(cfg: Config, pool: Pool, segs: seq<Segment>, feed: Feed, out: Feed)
    requires cfg.Valid() && Slots(cfg, pool, segs, feed, Getting)
    requires segs != []
    requires out.writer == feed.writer && out.completed == feed.completed
    ensures Slots(cfg, pool, segs[1..], out, Flushing(segs[0]))
  {
    assert SlotsOf(segs) == [segs[0].slot] + SlotsOf(segs[1..]);
    assert HeldSlots(segs[1..], out, Flushing(segs[0])) == HeldSlots(segs, feed, Getting);
  }

  /** The next segment comes off the queue into the flusher's hands. */
  lemma TakeSegment(cfg: Config, clean: bool, pool: Pool, segs: seq<Segment>, feed: Feed, out: Feed)
    requires Cargo(cfg, clean, pool, segs, feed, Getting)
    requires segs != []
    requires out == feed.(queue := out.queue, dequeued := feed.dequeued + 1)
    ensures IsSegment(cfg, segs[0], feed.dequeued) && HoldsSealed(pool, feed, segs[0], feed.dequeued)
    ensures Order(cfg, false, segs[1..], out, Flushing(segs[0]))
    ensures Contents(pool, segs[1..], out, Flushing(segs[0]))
  {
    var seg, rest := segs[0], segs[1..];
    assert HoldsSealed(pool, feed, segs[0], feed.dequeued + 0);
    assert IsSegment(cfg, segs[0], feed.dequeued + 0);
    forall i | 0 <= i < |rest| ensures IsSegment(cfg, rest[i], out.dequeued + i) && HoldsSealed(pool, out, rest[i], out.dequeued + i) {
      assert IsSegment(cfg, segs[i + 1], feed.dequeued + (i + 1)) && HoldsSealed(pool, feed, segs[i + 1], feed.dequeued + (i + 1));
    }
  }

  /** A flush begins: the call of `flush_segment` is recorded. */
  lemma FlushCalled(cfg: Config, pool: Pool, segs: seq<Segment>, feed: Feed, out: Feed, seg: Segment)
    requires cfg.Valid()
    requires Slots(cfg, pool, segs, feed, Flushing(seg)) && Order(cfg, false, segs, feed, Flushing(seg))
    requires Contents(pool, segs, feed, Flushing(seg))
    requires feed.dequeued == |feed.flushes| + 1
    requires HoldsSealed(pool, feed, seg, feed.dequeued - 1)
    requires out == feed.(flushes := feed.flushes + [FlushCall(seg.index, seg.start, pool.memory[seg.slot][..seg.length])])
    ensures Slots(cfg, pool, segs, out, Flushing(seg)) && Order(cfg, true, segs, out, Flushing(seg))
    ensures Contents(pool, segs, out, Flushing(seg))
  {
    forall i | 0 <= i < |segs| ensures HoldsSealed(pool, out, segs[i], out.dequeued + i) {
      assert HoldsSealed(pool, feed, segs[i], feed.dequeued + i);
    }
  }

  lemma LetGoSlots(cfg: Config, pool: Pool, pool': Pool, segs: seq<Segment>, feed: Feed, f: Flusher, f': Flusher,
                   slot: nat)
    requires cfg.Valid() && Slots(cfg, pool, segs, feed, f)
    requires FlusherSlots(f) == multiset{slot} && FlusherSlots(f') == multiset{}
    requires pool' == pool.(free := pool.free + [slot])
    ensures Slots(cfg, pool', segs, feed, f')
  {
    assert multiset(pool'.free) == multiset(pool.free) + multiset{slot};
    assert HeldSlots(segs, feed, f) == HeldSlots(segs, feed, f') + multiset{slot};
  }

  /** The flusher lets go of a segment whose slot may be handed out again, or whose export is over. */
  lemma LetGo(cfg: Config, clean: bool, pool: Pool, pool': Pool, segs: seq<Segment>, feed: Feed, f: Flusher,
              f': Flusher, slot: nat)
    requires cfg.Valid()
    requires Slots(cfg, pool, segs, feed, f) && Order(cfg, clean, segs, feed, f) && Contents(pool, segs, feed, f)
    requires FlusherSlots(f) == multiset{slot} && FlusherSlots(f') == multiset{}
    requires clean ==> Blank(true, pool) && slot < |pool.memory| && IsZero(pool.memory[slot])
    requires pool' == pool.(free := pool.free + [slot])
    ensures Traffic(cfg, clean, pool', segs, feed, f')
  {
    LetGoSlots(cfg, pool, pool', segs, feed, f, f', slot);
    hide Slots;
  }

  lemma GetTraffic(cfg: Config, s: Sink)
    requires cfg.Valid() && TrafficOf(cfg, s) && Grounded(s)
    requires s.flusher.Getting? && s.feed.queue != []
    ensures TrafficOf(cfg, Get(s))
  {
    var segs := Segments(s.feed.queue);
    var rest := Segments(s.feed.queue[1..]);
    assert segs == if s.feed.queue[0].None? then rest else [s.feed.queue[0].value] + rest;
    if s.feed.queue[0].None? {
      GetStop(cfg, s, segs);
    } else {
      assert segs[1..] == rest;
      GetSegment(cfg, s, segs);
    }
  }

  lemma GetStop(cfg: Config, s: Sink, segs: seq<Segment>)
    requires cfg.Valid() && Traffic(cfg, Clean(s.ctl), s.pool, segs, s.feed, s.flusher) && Grounded(s)
    requires s.flusher.Getting? && s.feed.queue != [] && s.feed.queue[0].None?
    ensures var t := Get(s); Traffic(cfg, Clean(t.ctl), t.pool, segs, t.feed, t.flusher)
  {
    hide Traffic;
    SameTraffic(cfg, Clean(s.ctl), s.pool, segs, s.feed, Get(s).feed, s.flusher, Ended);
  }

  lemma GetSegment(cfg: Config, s: Sink, segs: seq<Segment>)
    requires cfg.Valid() && Traffic(cfg, Clean(s.ctl), s.pool, segs, s.feed, s.flusher) && Grounded(s)
    requires s.flusher.Getting? && s.feed.queue != [] && s.feed.queue[0].Some?
    requires segs != [] && segs[0] == s.feed.queue[0].value
    ensures var t := Get(s); Traffic(cfg, Clean(t.ctl), t.pool, segs[1..], t.feed, t.flusher)
  {
    hide Slots, Contents, HoldsSealed;
    var seg, t := segs[0], Get(s);
    var out := s.feed.(queue := s.feed.queue[1..], dequeued := s.feed.dequeued + 1);
    TakeSegmentSlots(cfg, s.pool, segs, s.feed, out);
    TakeSegment(cfg, Clean(s.ctl), s.pool, segs, s.feed, out);
    if Clean(s.ctl) {
      SealedAlike(s.pool, s.feed, out, seg, s.feed.dequeued);
      FlushCalled(cfg, s.pool, segs[1..], out, t.feed, seg);
    } else {
      LetGo(cfg, false, s.pool, t.pool, segs[1..], out, Flushing(seg), Getting, seg.slot);
    }
  }

  lemma SealedAlike(pool: Pool, feed: Feed, feed': Feed, seg: Segment, i: nat)
    requires HoldsSealed(pool, feed, seg, i) && feed'.sealed == feed.sealed
    ensures HoldsSealed(pool, feed', seg, i)
  {
  }

  lemma GetSignals(cfg: Config, s: Sink)
    requires Signals(cfg, s) && Grounded(s)
    requires s.flusher.Getting? && s.feed.queue != []
    requires s.ctl.finalizer == NotYet || s.ctl.aborting
    ensures Signals(cfg, Get(s))
  {
    hide Grounded;
    var q := s.feed.queue;
    assert forall i :: 0 <= i < |q| - 1 ==> q[1..][i] == q[i + 1];
  }

  lemma FlushReturnedTraffic(cfg: Config, s: Sink)
    requires cfg.Valid() && TrafficOf(cfg, s)
    requires s.flusher.Flushing?
    ensures TrafficOf(cfg, FlushReturned(s))
  {
    hide Segments, Slots, Contents, Order;
    var seg, segs, t := s.flusher.seg, Segments(s.feed.queue), FlushReturned(s);
    InFlusher(cfg, Clean(s.ctl), s.pool, segs, s.feed, s.flusher, seg.slot);
    if t.flusher.Releasing? {
      StartsClearing(cfg, Clean(s.ctl), s.pool, segs, s.feed, seg);
    } else {
      LetGo(cfg, Clean(s.ctl), s.pool, t.pool, segs, s.feed, s.flusher, Getting, seg.slot);
    }
  }

  lemma InFlusher(cfg: Config, clean: bool, pool: Pool, segs: seq<Segment>, feed: Feed, f: Flusher, slot: nat)
    requires cfg.Valid() && Slots(cfg, pool, segs, feed, f)
    requires FlusherSlots(f) == multiset{slot}
    ensures slot < |pool.memory| && |pool.memory[slot]| == cfg.segmentSize
  {
    FlusherApart(cfg, pool, segs, feed, f, slot);
  }

  lemma StartsClearing(cfg: Config, clean: bool, pool: Pool, segs: seq<Segment>, feed: Feed, seg: Segment)
    requires cfg.Valid()
    requires Slots(cfg, pool, segs, feed, Flushing(seg)) && Order(cfg, clean, segs, feed, Flushing(seg))
    requires Contents(pool, segs, feed, Flushing(seg))
    ensures Slots(cfg, pool, segs, feed, Releasing(seg)) && Order(cfg, clean, segs, feed, Releasing(seg))
    ensures Contents(pool, segs, feed, Releasing(seg))
  {
  }

  lemma FlushRaisedTraffic(cfg: Config, s: Sink, fatal: bool)
    requires cfg.Valid() && TrafficOf(cfg, s)
    requires s.flusher.Flushing?
    ensures TrafficOf(cfg, FlushRaised(s, fatal))
  {
    hide Segments, Traffic, Slots, Order, Contents;
    var segs, t := Segments(s.feed.queue), FlushRaised(s, fatal);
    NotCleanAnyMore(cfg, Clean(s.ctl), s.pool, segs, s.feed, s.flusher);
    Opened(cfg, false, s.pool, segs, s.feed, s.flusher);
    LetGo(cfg, false, s.pool, t.pool, segs, s.feed, s.flusher, t.flusher, s.flusher.seg.slot);
  }

  lemma Opened(cfg: Config, clean: bool, pool: Pool, segs: seq<Segment>, feed: Feed, f: Flusher)
    requires cfg.Valid() && Traffic(cfg, clean, pool, segs, feed, f)
    ensures Slots(cfg, pool, segs, feed, f) && Order(cfg, clean, segs, feed, f) && Contents(pool, segs, feed, f)
    ensures Blank(clean, pool)
  {
  }

  /** Zeroing the flusher's slot touches no other segment's bytes. */
  lemma ZeroSlot(cfg: Config, clean: bool, pool: Pool, pool': Pool, segs: seq<Segment>, feed: Feed, seg: Segment)
    requires cfg.Valid() && Traffic(cfg, clean, pool, segs, feed, Releasing(seg))
    requires seg.slot < |pool.memory|
    requires pool' == pool.(memory := pool.memory[seg.slot := Zeros(cfg.segmentSize)])
    ensures Slots(cfg, pool', segs, feed, Releasing(seg)) && Contents(pool', segs, feed, Releasing(seg))
    ensures Blank(clean, pool')
  {
    FlusherApart(cfg, pool, segs, feed, Releasing(seg), seg.slot);
    forall i | 0 <= i < |segs| ensures HoldsSealed(pool', feed, segs[i], feed.dequeued + i) {
      QueuedApart(cfg, pool, segs, feed, Releasing(seg), i);
      assert HoldsSealed(pool, feed, segs[i], feed.dequeued + i);
    }
  }

  lemma ClearedTraffic(cfg: Config, s: Sink)
    requires cfg.Valid() && TrafficOf(cfg, s) && Grounded(s)
    requires s.flusher.Releasing?
    ensures TrafficOf(cfg, Cleared(cfg, s))
  {
    hide Segments, Traffic, Slots, Order, Contents;
    var seg, segs, t := s.flusher.held, Segments(s.feed.queue), Cleared(cfg, s);
    var zeroed := s.pool.(memory := s.pool.memory[seg.slot := Zeros(cfg.segmentSize)]);
    Opened(cfg, Clean(s.ctl), s.pool, segs, s.feed, s.flusher);
    ZeroSlot(cfg, Clean(s.ctl), s.pool, zeroed, segs, s.feed, seg);
    LetGo(cfg, Clean(s.ctl), zeroed, t.pool, segs, s.feed, s.flusher, Getting, seg.slot);
  }

  lemma LoseSlots(cfg: Config, pool: Pool, pool': Pool, segs: seq<Segment>, feed: Feed, seg: Segment, f': Flusher)
    requires cfg.Valid() && Slots(cfg, pool, segs, feed, Releasing(seg))
    requires pool' == pool.(lost := pool.lost + [seg.slot])
    requires FlusherSlots(f') == multiset{}
    ensures Slots(cfg, pool', segs, feed, f')
  {
    assert multiset(pool'.lost) == multiset(pool.lost) + multiset{seg.slot};
    assert HeldSlots(segs, feed, Releasing(seg)) == HeldSlots(segs, feed, f') + multiset{seg.slot};
  }

  /** A slot that could not be cleared, or whose clearing was cut short, is never handed out again. */
  lemma LoseSlot(cfg: Config, clean: bool, pool: Pool, pool': Pool, segs: seq<Segment>, feed: Feed, seg: Segment,
                 f': Flusher)
    requires cfg.Valid() && Traffic(cfg, clean, pool, segs, feed, Releasing(seg))
    requires pool' == pool.(lost := pool.lost + [seg.slot])
    requires FlusherSlots(f') == multiset{}
    ensures Traffic(cfg, clean, pool', segs, feed, f')
  {
    LoseSlots(cfg, pool, pool', segs, feed, seg, f');
    hide Slots;
  }

  lemma ClearRaisedTraffic(cfg: Config, s: Sink)
    requires cfg.Valid() && TrafficOf(cfg, s)
    requires s.flusher.Releasing?
    ensures TrafficOf(cfg, ClearRaised(s))
  {
    hide Segments, Traffic;
    var segs, t := Segments(s.feed.queue), ClearRaised(s);
    NotCleanAnyMore(cfg, Clean(s.ctl), s.pool, segs, s.feed, s.flusher);
    LoseSlot(cfg, false, s.pool, t.pool, segs, s.feed, s.flusher.held, Getting);
  }

  lemma CancelledTraffic(cfg: Config, s: Sink)
    requires cfg.Valid() && TrafficOf(cfg, s)
    requires s.flusher.Getting? || s.flusher.Releasing?
    ensures TrafficOf(cfg, FlusherCancelled(s))
  {
    hide Segments, Traffic;
    var segs, t := Segments(s.feed.queue), FlusherCancelled(s);
    if s.flusher.Releasing? {
      LoseSlot(cfg, Clean(s.ctl), s.pool, t.pool, segs, s.feed, s.flusher.held, Killed);
    } else {
      SameTraffic(cfg, Clean(s.ctl), s.pool, segs, s.feed, s.feed, s.flusher, Killed);
    }
  }

  lemma FlusherSignals(cfg: Config, s: Sink, a: Action, t: Sink)
    requires Step(cfg, s, a, t) && Signals(cfg, s)
    requires s.ctl.finalizer == NotYet || s.ctl.aborting
    requires a.DoFlushReturn? || a.DoFlushRaise? || a.DoClear? || a.DoClearRaise? || a.DoCancelFlusher?
    ensures Signals(cfg, t)
  {
    hide Grounded;
  }

  // ------------------------------------------------------------------------------------------------------
  // Every step
  // ------------------------------------------------------------------------------------------------------

  lemma TrafficStep(cfg: Config, s: Sink, a: Action, t: Sink)
    requires cfg.Valid() && Step(cfg, s, a, t)
    requires TrafficOf(cfg, s) && Parking(cfg, s)
    requires s.ctl.phase == Open ==> !s.ctl.aborting
    ensures TrafficOf(cfg, t)
  {
    hide TrafficOf, Parking, Grounded, Begin, BeginWoken, Write, Complete, Commit, Get, FlushReturned, FlushRaised,
      Cleared, ClearRaised, FlusherCancelled, AbortTakes;
    match a {
      case DoBegin(index, start, length) => BeginTraffic(cfg, s, index, start, length);
      case DoWake => WakeTraffic(cfg, s);
      case DoWrite(offset, data) => WriteTraffic(cfg, s, offset, data);
      case DoComplete => CompleteTraffic(cfg, s);
      case DoCommit => CommitTraffic(cfg, s);
      case DoGet => GetTraffic(cfg, s);
      case DoFlushReturn => FlushReturnedTraffic(cfg, s);
      case DoFlushRaise(fatal) => FlushRaisedTraffic(cfg, s, fatal);
      case DoClear => ClearedTraffic(cfg, s);
      case DoClearRaise => ClearRaisedTraffic(cfg, s);
      case DoCancelFlusher => CancelledTraffic(cfg, s);
      case DoAbortStart => AbortTraffic(cfg, s); QuietTraffic(cfg, s, t);
      case DoAbortFinalized => AbortTraffic(cfg, s);
      case _ => QuietTraffic(cfg, s, t);
    }
  }

  lemma QuietTraffic(cfg: Config, s: Sink, t: Sink)
    requires cfg.Valid() && TrafficOf(cfg, s)
    ensures Clean(t.ctl) == Clean(s.ctl) && t.pool == s.pool && t.feed == s.feed && t.flusher == s.flusher ==> TrafficOf(cfg, t)
  {
    hide Traffic;
  }

  lemma SignalsStep(cfg: Config, s: Sink, a: Action, t: Sink)
    requires Step(cfg, s, a, t)
    requires Signals(cfg, s) && Lifecycle(s.ctl, s.driver, s.flusher)
    ensures Signals(cfg, t)
  {
    hide Signals, Grounded, Begin, BeginWoken, Write, Complete, Commit, Get, FlushReturned, FlushRaised,
      Cleared, ClearRaised, FlusherCancelled, AbortTakes, DiscardedOnce, OneOutcome;
    match a {
      case DoBegin(index, start, length) => BeginSignals(cfg, s, index, start, length);
      case DoWake => WakeSignals(cfg, s);
      case DoWrite(offset, data) => WriteSignals(cfg, s, offset, data);
      case DoComplete => CompleteSignals(cfg, s);
      case DoCommit => CommitSignals(cfg, s);
      case DoGet => FlusherAlive(cfg, s); GetSignals(cfg, s);
      case DoFlushReturn => FlusherAlive(cfg, s); FlusherSignals(cfg, s, a, t);
      case DoFlushRaise(fatal) => FlusherAlive(cfg, s); FlusherSignals(cfg, s, a, t);
      case DoClear => FlusherAlive(cfg, s); FlusherSignals(cfg, s, a, t);
      case DoClearRaise => FlusherAlive(cfg, s); FlusherSignals(cfg, s, a, t);
      case DoCancelFlusher => FlusherAlive(cfg, s); FlusherSignals(cfg, s, a, t);
      case DoAbortStart => if s.ctl.finalizer == NotYet { AbortSignals(cfg, s); } else { QuietSignals(cfg, s, a, t); }
      case DoAbortFinalized => AbortSignals(cfg, s);
      case _ => QuietSignals(cfg, s, a, t);
    }
  }

  /** A flusher still at work means the destination is not being finalized, or an abort has taken over. */
  lemma FlusherAlive(cfg: Config, s: Sink)
    requires Signals(cfg, s) && !s.flusher.Ended?
    ensures s.ctl.finalizer == NotYet || s.ctl.aborting
  {
  }

  /** A step that only moves `commit` and its finalizer on, or ends a call. */
  lemma QuietCommit(cfg: Config, s: Sink, a: Action, t: Sink)
    requires Step(cfg, s, a, t) && Signals(cfg, s)
    requires FinalizedOnce(s.ctl, s.driver)
    requires MovesCommit(a) && !a.DoCommit?
    ensures Signals(cfg, t)
  {
    hide Grounded, Commit;
  }

  /** A step that only moves an abort on. */
  lemma QuietAbort(cfg: Config, s: Sink, a: Action, t: Sink)
    requires Step(cfg, s, a, t) && Signals(cfg, s)
    requires !MovesData(a) && !MovesCommit(a) && !a.DoAbortFinalized?
    requires a.DoAbortStart? ==> s.ctl.finalizer != NotYet
    ensures Signals(cfg, t)
  {
    hide Grounded, AbortTakes, FinalizedOnce;
  }

  lemma QuietSignals(cfg: Config, s: Sink, a: Action, t: Sink)
    requires Step(cfg, s, a, t) && Signals(cfg, s)
    requires FinalizedOnce(s.ctl, s.driver)
    requires !MovesData(a) && !a.DoCommit? && !a.DoAbortFinalized?
    requires a.DoAbortStart? ==> s.ctl.finalizer != NotYet
    ensures Signals(cfg, t)
  {
    hide Step, Signals, FinalizedOnce;
    if MovesCommit(a) { QuietCommit(cfg, s, a, t); } else { QuietAbort(cfg, s, a, t); }
  }

  lemma StepKeeps(cfg: Config, s: Sink, a: Action, t: Sink)
    requires cfg.Valid() && Step(cfg, s, a, t)
    requires Inv(cfg, s)
    ensures Inv(cfg, t)
  {
    hide Data, Phases, FinalizedOnce, DiscardedOnce, OneOutcome, TrafficOf, Step;
    DataIsBoth(cfg, s);
    LifecycleStep(cfg, s, a, t);
    OpenIsNotAborting(s);
    SignalsParking(cfg, s);
    TrafficStep(cfg, s, a, t);
    SignalsStep(cfg, s, a, t);
    DataIsBoth(cfg, t);
  }

  lemma OpenIsNotAborting(s: Sink)
    requires Lifecycle(s.ctl, s.driver, s.flusher)
    ensures s.ctl.phase == Open ==> !s.ctl.aborting
  {
  }

  lemma SignalsParking(cfg: Config, s: Sink)
    requires Signals(cfg, s)
    ensures Parking(cfg, s)
  {
  }

  /** The invariant makes every step defined. */
  lemma InvGrounded(cfg: Config, s: Sink)
    requires cfg.Valid() && Inv(cfg, s)
    ensures Grounded(s)
  {
    var segs := Segments(s.feed.queue);
    if s.feed.queue != [] && s.feed.queue[0].Some? {
      assert segs[0] == s.feed.queue[0].value;
      assert HoldsSealed(s.pool, s.feed, segs[0], s.feed.dequeued + 0);
    }
    if s.flusher.Releasing? { FlusherApart(cfg, s.pool, segs, s.feed, s.flusher, s.flusher.held.slot); }
  }

  /** A step taken where the invariant holds is defined, and keeps it. */
  lemma StepHolds(cfg: Config, s: Sink, a: Action)
    requires cfg.Valid() && Inv(cfg, s) && Enabled(a, s)
    ensures Grounded(s) && Inv(cfg, Apply(cfg, a, s)) && Grounded(Apply(cfg, a, s))
  {
    hide Inv, Apply, Enabled, Grounded;
    InvGrounded(cfg, s);
    StepKeeps(cfg, s, a, Apply(cfg, a, s));
    InvGrounded(cfg, Apply(cfg, a, s));
  }

  /** Every state of every run meets the invariant. */
  lemma {:induction false} RunKeeps(cfg: Config, states: seq<Sink>, actions: seq<Action>, n: nat)
    requires cfg.Valid() && Run(cfg, states, actions)
    requires n < |states|
    ensures Inv(cfg, states[n])
  {
    hide Inv, Step, Initial;
    if n == 0 {
      InitialInv(cfg, states[0]);
    } else {
      RunKeeps(cfg, states, actions, n - 1);
      StepKeeps(cfg, states[n - 1], actions[n - 1], states[n]);
    }
  }
}
