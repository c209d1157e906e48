/** What every step of the sink keeps. */
module SinkInvariant {
  import opened Basics
  import opened SinkModel

  // ------------------------------------------------------------------------------------------------------
  // The phases of the sink, its finalizer and its abort task
  // ------------------------------------------------------------------------------------------------------

  /** The abort task has passed the point where it takes the state. */
  predicate Taken(a: Aborter) {
    !a.NoTask? && !a.Scheduled? && !a.WaitingFinalizer?
  }

  /** The abort task has waited for the flusher. */
  predicate PastFlusher(a: Aborter) {
    a.ClosingPool? || a.Discarding? || a.Finished? || a.Raised?
  }

  predicate CommitCalled(d: Driver) {
    !d.Idle? && !d.Parked?
  }

  predicate Phases(c: Control, d: Driver, f: Flusher) {
    && (c.aborting <==> Taken(c.aborter))
    && (c.phase == Committed <==> c.finalizer == Succeeded)
    && (c.phase == Open ==> !c.aborting && c.creating && !f.NotStarted?)
    && (c.aborting ==> c.phase == Committed || c.phase == Aborted)
    && (!c.aborting && !f.NotStarted? ==> c.phase == Open || c.phase == Committed)
    && (c.finalizer != NotYet ==> c.creating && !f.NotStarted?)
    && (f.NotStarted? ==> d.Idle? || d.Stopped?)
    && (!c.creating ==> !c.everWritten && f.NotStarted?)
  }

  /** The destination is finalized at most once, never once an abort has taken the state. */
  predicate FinalizedOnce(c: Control, d: Driver) {
    && c.finalizes == (if c.finalizer == NotYet then 0 else 1)
    && (d.Idle? || d.Parked? || d.CommitFlushing? ==> c.finalizer == NotYet)
    && (c.aborter.WaitingFinalizer? ==> c.finalizer != NotYet)
    && (c.aborting ==> c.finalizer != Running)
    && (d.CommitFinalizing? ==> c.finalizer != NotYet)
    && (d.CommitClosing? || d.Returned? ==> c.finalizer == Succeeded)
  }

  /** The destination is discarded at most once, with nothing else at work on it. */
  predicate DiscardedOnce(c: Control, f: Flusher) {
    && (PastFlusher(c.aborter) ==> f.NotStarted? || FlusherDone(f))
    && (c.aborter.WaitingFlusher? ==> (c.aborter.was == Committed <==> c.phase == Committed) && !f.NotStarted?)
    && (c.aborter.ClosingPool? ==> (c.aborter.was == Committed <==> c.phase == Committed))
    && (c.aborter.Discarding? || c.aborter.Raised? ==> c.discards == 1)
    && (!PastFlusher(c.aborter) || c.aborter.ClosingPool? ==> c.discards == 0)
    && c.discards <= 1
    && (c.discards == 1 ==> c.creating && c.phase == Aborted)
    && (c.aborter.Finished? && c.phase != Committed && c.creating ==> c.discards == 1)
  }

  /** Every completed `abort` reported the one outcome. */
  predicate OneOutcome(c: Control) {
    && (c.abortOutcome.Some? <==> c.aborter.Finished? || c.aborter.Raised?)
    && (c.reported <= if c.abortOutcome.Some? then {c.abortOutcome.value} else {})
    && (c.abortOutcome.Some? && c.phase == Committed ==> c.abortOutcome.value.kept)
    && (c.abortOutcome.Some? && !c.creating ==> c.abortOutcome.value == Outcome(false, false))
    && (c.aborter.Discarding? ==> c.aborter.written == c.everWritten)
    && (c.abortOutcome.Some? && c.creating ==> c.abortOutcome.value.everWritten == c.everWritten)
    && (c.aborter.NoTask? ==> c.abortCallers == 0)
  }

  predicate Lifecycle(c: Control, d: Driver, f: Flusher) {
    Phases(c, d, f) && FinalizedOnce(c, d) && DiscardedOnce(c, f) && OneOutcome(c)
  }

  /** An action of the exporting caller up to `commit`, or of the flusher. */
  predicate MovesData(a: Action) {
    a.DoBegin? || a.DoWake? || a.DoWrite? || a.DoComplete? || a.DoGet? || a.DoFlushReturn? || a.DoFlushRaise?
    || a.DoClear? || a.DoClearRaise? || a.DoCancelFlusher?
  }

  predicate MovesCommit(a: Action) {
    a.DoCommit? || a.DoCommitFlushed? || a.DoCommitFinalized? || a.DoCommitClosed? || a.DoCancelCall? || a.DoFinalize?
  }

  lemma DataPhases(cfg: Config, s: Sink, a: Action, t: Sink)
    requires Step(cfg, s, a, t) && MovesData(a)
    requires Phases(s.ctl, s.driver, s.flusher) && FinalizedOnce(s.ctl, s.driver)
    ensures Phases(t.ctl, t.driver, t.flusher) && FinalizedOnce(t.ctl, t.driver)
  {
    hide Grounded, Begin, BeginWoken, Write, Complete, Get, FlushReturned, FlushRaised, Cleared;
  }

  lemma CommitPhases(cfg: Config, s: Sink, a: Action, t: Sink)
    requires Step(cfg, s, a, t) && MovesCommit(a)
    requires Phases(s.ctl, s.driver, s.flusher) && FinalizedOnce(s.ctl, s.driver)
    ensures Phases(t.ctl, t.driver, t.flusher) && FinalizedOnce(t.ctl, t.driver)
  {
    hide Grounded, Begin, BeginWoken, Write, Complete, Get, FlushReturned, FlushRaised, Cleared, ClearRaised,
      FlusherCancelled;
  }

  /** The two steps by which an abort takes the state. */
  predicate TakesState(a: Action) {
    a.DoAbortStart? || a.DoAbortFinalized?
  }

  lemma AbortTaking(cfg: Config, s: Sink, a: Action, t: Sink)
    requires Step(cfg, s, a, t) && TakesState(a)
    requires Phases(s.ctl, s.driver, s.flusher) && FinalizedOnce(s.ctl, s.driver)
    ensures Phases(t.ctl, t.driver, t.flusher) && FinalizedOnce(t.ctl, t.driver)
  {
    hide Grounded, Begin, BeginWoken, Write, Complete, Get, FlushReturned, FlushRaised, Cleared, ClearRaised,
      FlusherCancelled;
  }

  /** Before and after it takes the state, an abort leaves the export's own parties and phases alone. */
  lemma AbortGoesOn(cfg: Config, s: Sink, a: Action, t: Sink)
    requires Step(cfg, s, a, t) && !MovesData(a) && !MovesCommit(a) && !TakesState(a)
    ensures t.driver == s.driver && t.flusher == s.flusher
    ensures t.ctl.phase == s.ctl.phase && t.ctl.creating == s.ctl.creating && t.ctl.everWritten == s.ctl.everWritten
    ensures t.ctl.finalizer == s.ctl.finalizer && t.ctl.finalizes == s.ctl.finalizes && t.ctl.aborting == s.ctl.aborting
    ensures Taken(t.ctl.aborter) == Taken(s.ctl.aborter)
    ensures t.ctl.aborter.WaitingFinalizer? ==> s.ctl.aborter.WaitingFinalizer?
  {
    hide Grounded, Begin, BeginWoken, Write, Complete, Get, FlushReturned, FlushRaised, Cleared, ClearRaised,
      FlusherCancelled, AbortStarts, AbortTakes;
    match a
    case DoAbortCall =>
    case DoAbortFlushed =>
    case DoAbortClosed =>
    case DoDiscard(_) =>
    case DoAbortReport =>
    case DoAbortCallerCancel =>
  }

  lemma AbortPhases(cfg: Config, s: Sink, a: Action, t: Sink)
    requires Step(cfg, s, a, t) && !MovesData(a) && !MovesCommit(a)
    requires Phases(s.ctl, s.driver, s.flusher) && FinalizedOnce(s.ctl, s.driver)
    ensures Phases(t.ctl, t.driver, t.flusher) && FinalizedOnce(t.ctl, t.driver)
  {
    hide Step;
    if TakesState(a) { AbortTaking(cfg, s, a, t); } else { AbortGoesOn(cfg, s, a, t); }
  }

  lemma OutcomeStays(cfg: Config, s: Sink, a: Action, t: Sink)
    requires Step(cfg, s, a, t) && (MovesData(a) || MovesCommit(a))
    requires Lifecycle(s.ctl, s.driver, s.flusher)
    ensures DiscardedOnce(t.ctl, t.flusher) && OneOutcome(t.ctl)
  {
    hide Grounded, Begin, BeginWoken, Grant, Write, Complete, Get, FlushReturned, FlushRaised, Cleared, GiveBack;
  }

  lemma OutcomeSet(cfg: Config, s: Sink, a: Action, t: Sink)
    requires Step(cfg, s, a, t) && !MovesData(a) && !MovesCommit(a)
    requires Lifecycle(s.ctl, s.driver, s.flusher)
    ensures DiscardedOnce(t.ctl, t.flusher) && OneOutcome(t.ctl)
  {
    hide Grounded;
  }

  lemma LifecycleStep(cfg: Config, s: Sink, a: Action, t: Sink)
    requires Step(cfg, s, a, t)
    requires Lifecycle(s.ctl, s.driver, s.flusher)
    ensures Lifecycle(t.ctl, t.driver, t.flusher)
  {
    if MovesData(a) || MovesCommit(a) { OutcomeStays(cfg, s, a, t); } else { OutcomeSet(cfg, s, a, t); }
    hide Step, Phases, FinalizedOnce, DiscardedOnce, OneOutcome;
    if MovesData(a) {
      DataPhases(cfg, s, a, t);
    } else if MovesCommit(a) {
      CommitPhases(cfg, s, a, t);
    } else {
      AbortPhases(cfg, s, a, t);
    }
  }

  // ------------------------------------------------------------------------------------------------------
  // Slots: every slot is free, held by exactly one segment, or lost
  // ------------------------------------------------------------------------------------------------------

  /** The segments in the queue, in order. */
  function Segments(q: seq<Option<Segment>>): seq<Segment> {
    if q == [] then []
    else if q[0].None? then Segments(q[1..])
    else [q[0].value] + Segments(q[1..])
  }

  lemma {:induction false} SegmentsAppend(q: seq<Option<Segment>>, x: Option<Segment>)
    ensures Segments(q + [x]) == if x.None? then Segments(q) else Segments(q) + [x.value]
  {
    if q == [] {
      assert [x][1..] == [];
    } else {
      SegmentsAppend(q[1..], x);
      assert (q + [x])[1..] == q[1..] + [x];
    }
  }

  predicate Filling(feed: Feed) { feed.writer.Some? && !feed.completed }

  function SlotsOf(segs: seq<Segment>): (r: seq<nat>)
    ensures |r| == |segs| && forall i :: 0 <= i < |r| ==> r[i] == segs[i].slot
  {
    seq(|segs|, i requires 0 <= i < |segs| => segs[i].slot)
  }

  function FlusherSlots(f: Flusher): multiset<nat> {
    match f
    case Flushing(seg) => multiset{seg.slot}
    case Releasing(seg) => multiset{seg.slot}
    case _ => multiset{}
  }

  function WriterSlots(feed: Feed): multiset<nat> {
    if Filling(feed) then multiset{feed.writer.value.slot} else multiset{}
  }

  /** The slots of segments being filled, queued or flushed. */
  function HeldSlots(segs: seq<Segment>, feed: Feed, f: Flusher): multiset<nat> {
    multiset(SlotsOf(segs)) + FlusherSlots(f) + WriterSlots(feed)
  }

  /** `segs` are the segments in the queue. */
  predicate Slots(cfg: Config, pool: Pool, segs: seq<Segment>, feed: Feed, f: Flusher)
    requires cfg.Valid()
  {
    && multiset(pool.free) + HeldSlots(segs, feed, f) + multiset(pool.lost) == multiset(Count(cfg.Slots()))
    && |pool.memory| == cfg.Slots()
    && forall i :: 0 <= i < |pool.memory| ==> |pool.memory[i]| == cfg.segmentSize
  }

  lemma {:induction false} CountOnce(n: nat, x: nat)
    ensures multiset(Count(n))[x] == if x < n then 1 else 0
  {
    if n > 0 {
      CountOnce(n - 1, x);
      assert Count(n) == Count(n - 1) + [n - 1];
    } else {
      assert Count(n) == [];
    }
  }

  /** No two segments share a slot, and a held slot is a slot of the pool that is not free. */
  lemma QueuedApart(cfg: Config, pool: Pool, segs: seq<Segment>, feed: Feed, f: Flusher, i: nat)
    requires cfg.Valid() && Slots(cfg, pool, segs, feed, f)
    requires i < |segs|
    ensures segs[i].slot < cfg.Slots()
    ensures segs[i].slot !in FlusherSlots(f) + WriterSlots(feed)
    ensures segs[i].slot !in pool.free
  {
    var x := segs[i].slot;
    assert SlotsOf(segs)[i] == x;
    CountOnce(cfg.Slots(), x);
    assert multiset(SlotsOf(segs))[x] >= 1;
    SlotCounts(cfg, pool, segs, feed, f, x);
  }

  lemma SlotCounts(cfg: Config, pool: Pool, segs: seq<Segment>, feed: Feed, f: Flusher, x: nat)
    requires cfg.Valid() && Slots(cfg, pool, segs, feed, f)
    ensures multiset(pool.free)[x] + multiset(SlotsOf(segs))[x] + FlusherSlots(f)[x] + WriterSlots(feed)[x]
            + multiset(pool.lost)[x] == if x < cfg.Slots() then 1 else 0
  {
    CountOnce(cfg.Slots(), x);
    assert multiset(Count(cfg.Slots()))[x] == multiset(pool.free)[x] + HeldSlots(segs, feed, f)[x] + multiset(pool.lost)[x];
  }

  lemma FlusherApart(cfg: Config, pool: Pool, segs: seq<Segment>, feed: Feed, f: Flusher, x: nat)
    requires cfg.Valid() && Slots(cfg, pool, segs, feed, f)
    requires x in FlusherSlots(f)
    ensures x < cfg.Slots() && x !in WriterSlots(feed) && x !in pool.free
  {
    SlotCounts(cfg, pool, segs, feed, f, x);
  }

  lemma WriterApart(cfg: Config, pool: Pool, segs: seq<Segment>, feed: Feed, f: Flusher, x: nat)
    requires cfg.Valid() && Slots(cfg, pool, segs, feed, f)
    requires x in WriterSlots(feed)
    ensures x < cfg.Slots() && x !in pool.free
  {
    SlotCounts(cfg, pool, segs, feed, f, x);
  }

  lemma FirstFreeApart(cfg: Config, pool: Pool, segs: seq<Segment>, feed: Feed, f: Flusher)
    requires cfg.Valid() && Slots(cfg, pool, segs, feed, f)
    requires pool.free != []
    ensures pool.free[0] < cfg.Slots()
    ensures pool.free[0] !in pool.free[1..]
    ensures pool.free[0] !in HeldSlots(segs, feed, f)
  {
    var x := pool.free[0];
    assert pool.free == [x] + pool.free[1..];
    SlotCounts(cfg, pool, segs, feed, f, x);
  }

  /** At most `Slots()` segments are held at once: the one being filled, those queued and the one being flushed. */
  lemma HeldIsBounded(cfg: Config, pool: Pool, segs: seq<Segment>, feed: Feed, f: Flusher)
    requires cfg.Valid() && Slots(cfg, pool, segs, feed, f)
    ensures |pool.free| + |pool.lost| + |segs| + (if f.Flushing? || f.Releasing? then 1 else 0)
              + (if Filling(feed) then 1 else 0) == cfg.Slots()
  {
    assert |multiset(pool.free) + HeldSlots(segs, feed, f) + multiset(pool.lost)| == |multiset(Count(cfg.Slots()))|;
    assert |Count(cfg.Slots())| == cfg.Slots();
  }

  // ------------------------------------------------------------------------------------------------------
  // The order of segments
  // ------------------------------------------------------------------------------------------------------

  /** `seg` is segment `i` of the export. */
  predicate IsSegment(cfg: Config, seg: Segment, i: nat) {
    seg.index == i && seg.start == i * cfg.segmentSize && seg.length == ExpectedLength(cfg, i) && 0 < seg.length
  }

  /** No flush has failed and no abort has taken the state. */
  predicate Clean(c: Control) { !c.failure && !c.aborting }

  predicate Order(cfg: Config, clean: bool, segs: seq<Segment>, feed: Feed, f: Flusher) {
    && feed.dequeued + |segs| == |feed.sealed|
    && (forall i :: 0 <= i < |segs| ==> IsSegment(cfg, segs[i], feed.dequeued + i))
    && feed.nextIndex == |feed.sealed| + (if Filling(feed) then 1 else 0)
    && (Filling(feed) ==> IsSegment(cfg, feed.writer.value, |feed.sealed|))
    && (f.Flushing? ==> feed.dequeued > 0 && IsSegment(cfg, f.seg, feed.dequeued - 1))
    && (f.Releasing? ==> feed.dequeued > 0 && IsSegment(cfg, f.held, feed.dequeued - 1))
    && (forall i :: 0 <= i < |feed.sealed| ==> |feed.sealed[i]| == ExpectedLength(cfg, i))
    && |feed.flushes| <= feed.dequeued
    && (clean ==> |feed.flushes| == feed.dequeued)
    && (forall i :: 0 <= i < |feed.flushes| ==>
          feed.flushes[i] == FlushCall(i, i * cfg.segmentSize, feed.sealed[i]))
  }

  // ------------------------------------------------------------------------------------------------------
  // What the slots hold
  // ------------------------------------------------------------------------------------------------------

  predicate IsZero(b: Bytes) { forall i :: 0 <= i < |b| ==> b[i] == 0 }

  /** `seg`'s slot holds the bytes its writer sealed. */
  predicate HoldsSealed(pool: Pool, feed: Feed, seg: Segment, i: nat) {
    InPool(pool, seg) && i < |feed.sealed| && pool.memory[seg.slot][..seg.length] == feed.sealed[i]
  }

  predicate Contents(pool: Pool, segs: seq<Segment>, feed: Feed, f: Flusher) {
    && (forall i :: 0 <= i < |segs| ==>
          HoldsSealed(pool, feed, segs[i], feed.dequeued + i))
    && (f.Flushing? ==> feed.dequeued > 0 && HoldsSealed(pool, feed, f.seg, feed.dequeued - 1))
    && (Filling(feed) ==> InPool(pool, feed.writer.value))
    && (feed.writer.Some? ==> InPool(pool, feed.writer.value))
  }

  /** A slot ready to be handed out is all zero, and so is one nothing was written into. */
  predicate Blank(clean: bool, pool: Pool) {
    clean ==>
      && (forall x :: x in pool.free && x < |pool.memory| ==> IsZero(pool.memory[x]))
      && (forall x :: 0 <= x < |pool.memory| && x !in pool.touched ==> IsZero(pool.memory[x]))
  }

  // ------------------------------------------------------------------------------------------------------
  // Stops and wake-ups
  // ------------------------------------------------------------------------------------------------------

  /** Before an abort, a stop reaches the flusher only from `commit`, as the last thing queued. */
  predicate CommitStops(c: Control, feed: Feed, d: Driver, f: Flusher) {
    !c.aborting ==>
      && (forall i :: 0 <= i < |feed.queue| && feed.queue[i].None? ==> i == |feed.queue| - 1 && CommitCalled(d))
      && (f.Ended? ==> feed.queue == [] && CommitCalled(d))
      && (d.CommitFlushing? && !FlusherDone(f) ==> feed.queue != [] && feed.queue[|feed.queue| - 1].None?)
      && (d.CommitFlushing? ==> !Filling(feed))
      && (c.finalizer != NotYet ==> f.Ended? && !c.failure && !Filling(feed))
  }

  /** Once an abort has taken the state, a stop is the last thing queued or the flusher is done. */
  predicate AbortStops(c: Control, feed: Feed, f: Flusher) {
    c.aborting && !f.NotStarted? && !FlusherDone(f) ==> feed.queue != [] && feed.queue[|feed.queue| - 1].None?
  }

  /** No lost wake-up: a parked `begin_segment` that was not woken could not go on. */
  predicate Parking(cfg: Config, s: Sink) {
    s.driver.Parked? ==>
      && (!s.driver.woken ==> !MayGoOn(s))
      && !Filling(s.feed)
      && s.driver.index == s.feed.nextIndex
      && s.driver.start == s.driver.index * cfg.segmentSize
      && s.driver.length == ExpectedLength(cfg, s.driver.index) > 0
  }

  /** The flusher dies of an exception it recorded, or of a cancellation from outside. */
  predicate Deaths(c: Control, f: Flusher) {
    && (f.Killed? ==> c.failure || c.torn)
    && (c.torn ==> f.Killed?)
  }

  /** A slot is lost only where the export fails or the flusher dies. */
  predicate Losses(c: Control, pool: Pool, f: Flusher) {
    pool.lost != [] ==> c.failure || f.Killed?
  }

  /** Everything but the lifecycle. */
  predicate Data(cfg: Config, s: Sink)
    requires cfg.Valid()
  {
    && Slots(cfg, s.pool, Segments(s.feed.queue), s.feed, s.flusher)
    && Order(cfg, Clean(s.ctl), Segments(s.feed.queue), s.feed, s.flusher)
    && Contents(s.pool, Segments(s.feed.queue), s.feed, s.flusher)
    && Blank(Clean(s.ctl), s.pool)
    && CommitStops(s.ctl, s.feed, s.driver, s.flusher)
    && AbortStops(s.ctl, s.feed, s.flusher)
    && Parking(cfg, s)
    && Deaths(s.ctl, s.flusher)
    && Losses(s.ctl, s.pool, s.flusher)
  }

  predicate Inv(cfg: Config, s: Sink)
    requires cfg.Valid()
  {
    Lifecycle(s.ctl, s.driver, s.flusher) && Data(cfg, s)
  }
}
