/** `BufferedExportSink` (sdk/dedup/buffered_export_sink.py) and the slot pool it takes its buffers from
    (sdk/dedup/segment_buffers.py), as a machine whose steps run from one `await` to the next. Any runnable party
    may take the next step: the caller that exports and commits, the flusher task, the finalizer task, the abort
    task, and any number of callers of `abort`. */
module SinkModel {

  import opened Basics

  /** `size` is the logical size of the export. */
  datatype Config = Config(segmentSize: nat, maxBuffered: nat, size: nat) {
    predicate Valid() { segmentSize > 0 && segmentSize % 4096 == 0 && maxBuffered >= 1 }

    /** How many segments the export has. */
    function Segments(): nat
      requires segmentSize > 0
    {
      (size + segmentSize - 1) / segmentSize
    }

    /** How many slots `open` creates. */
    function Slots(): nat
      requires segmentSize > 0
    {
      var wanted := if maxBuffered < Segments() then maxBuffered else Segments();
      if wanted < 1 then 1 else wanted
    }
  }

  datatype Phase = New | Open | Committed | Aborted

  datatype Segment = Segment(index: nat, start: nat, length: nat, slot: nat)

  /** Where `_flush_loop` is: waiting in `queue.get`, inside `flush_segment`, clearing a slot, over, or dead. */
  datatype Flusher = NotStarted | Getting | Flushing(seg: Segment) | Releasing(held: Segment) | Ended | Killed

  datatype Finalizer = NotYet | Running | Succeeded | Failed

  /** Where the exporting caller is. `Parked` is `begin_segment` in `wait_for`; `woken` says a notify reached it. */
  datatype Driver =
    | Idle
    | Parked(index: nat, start: nat, length: nat, woken: bool)
    | CommitFlushing
    | CommitFinalizing
    | CommitClosing
    | Returned
    | Stopped

  datatype Outcome = Outcome(kept: bool, everWritten: bool)

  /** Where the one `_abort` task is. */
  datatype Aborter =
    | NoTask
    | Scheduled
    | WaitingFinalizer
    | WaitingFlusher(was: Phase)
    | ClosingPool(was: Phase)
    | Discarding(written: bool)
    | Finished
    | Raised

  /** One call of `flush_segment`: the segment's place in the export and the bytes it could read. */
  datatype FlushCall = FlushCall(index: nat, start: nat, bytes: Bytes)

  /** The lifecycle: `_Core.state` and `failure`, the flags of the sink, its finalizer and its abort task. */
  datatype Control = Control(
    phase: Phase,
    failure: bool,
    everWritten: bool,
    creating: bool,
    aborting: bool,
    finalizer: Finalizer,
    aborter: Aborter,
    abortOutcome: Option<Outcome>,
    abortCallers: nat,
    // history
    finalizes: nat,
    discards: nat,
    reported: set<Outcome>,
    torn: bool)

  /** `SlotPool`: its free list and its bytes, slot by slot; `touched` are the slots written since they were taken. */
  datatype Pool = Pool(free: seq<nat>, memory: seq<Bytes>, touched: set<nat>, lost: seq<nat>)

  /** The segments on their way: the one being filled, those queued, and the history of those sealed and flushed. */
  datatype Feed = Feed(
    queue: seq<Option<Segment>>,
    nextIndex: nat,
    writer: Option<Segment>,
    completed: bool,
    // history
    sealed: seq<Bytes>,
    dequeued: nat,
    flushes: seq<FlushCall>)

  datatype Sink = Sink(ctl: Control, pool: Pool, feed: Feed, driver: Driver, flusher: Flusher)

  function Count(n: nat): seq<nat> { seq(n, i requires 0 <= i < n => i) }

  // ------------------------------------------------------------------------------------------------------
  // Where a run starts: `open` returned, or failed, or was never called
  // ------------------------------------------------------------------------------------------------------

  function Fresh(cfg: Config, phase: Phase, creating: bool, flusher: Flusher): Sink
    requires cfg.Valid()
  {
    Sink(Control(phase, false, false, creating, false, NotYet, NoTask, None, 0, 0, 0, {}, false),
         Pool(Count(cfg.Slots()), seq(cfg.Slots(), _ => Zeros(cfg.segmentSize)), {}, []),
         Feed([], 0, None, false, [], 0, []),
         Idle,
         flusher)
  }

  predicate Initial(cfg: Config, s: Sink)
    requires cfg.Valid()
  {
    || s == Fresh(cfg, Open, true, Getting)            // open returned
    || s == Fresh(cfg, New, true, NotStarted)          // create_destination failed
    || s == Fresh(cfg, Aborted, false, NotStarted)     // the pool could not be created
    || s == Fresh(cfg, New, false, NotStarted)         // never opened
  }

  // ------------------------------------------------------------------------------------------------------
  // The sink's own code, one function for each stretch without an await
  // ------------------------------------------------------------------------------------------------------

  /** `self._slots.notify_all()`: only a parked `begin_segment` ever waits on the condition. */
  function Notified(d: Driver): Driver {
    if d.Parked? then d.(woken := true) else d
  }

  predicate MayGoOn(s: Sink) { s.ctl.failure || s.ctl.aborting || s.pool.free != [] }

  function ExpectedLength(cfg: Config, index: nat): int {
    var left := cfg.size - index * cfg.segmentSize;
    if cfg.segmentSize < left then cfg.segmentSize else left
  }

  /** What `begin_segment` demands of its arguments and of the previous writer. */
  predicate BeginAccepted(cfg: Config, s: Sink, index: int, start: int, length: int) {
    && s.ctl.phase == Open
    && (s.feed.writer.Some? ==> s.feed.completed)
    && index == s.feed.nextIndex
    && start == index * cfg.segmentSize
    && length == ExpectedLength(cfg, index)
    && length > 0
  }

  /** `begin_segment` once `wait_for` is satisfied: it raises, or takes the lowest free slot. */
  function Grant(s: Sink, index: nat, start: nat, length: nat): (t: Sink)
    requires MayGoOn(s)
    ensures t.ctl == s.ctl && t.flusher == s.flusher && t.driver == Idle
  {
    if s.ctl.phase != Open || s.ctl.failure || s.pool.free == [] then s.(driver := Idle)
    else
      s.(driver := Idle,
         pool := s.pool.(free := s.pool.free[1..], touched := s.pool.touched - {s.pool.free[0]}),
         feed := s.feed.(nextIndex := s.feed.nextIndex + 1, writer := Some(Segment(index, start, length, s.pool.free[0])),
                         completed := false))
  }

  function Begin(cfg: Config, s: Sink, index: int, start: int, length: int): (t: Sink)
    requires s.driver == Idle
    ensures t.ctl == s.ctl && t.flusher == s.flusher && (t.driver.Idle? || (t.driver.Parked? && s.ctl.phase == Open))
  {
    if !BeginAccepted(cfg, s, index, start, length) then s
    else if MayGoOn(s) then Grant(s, index, start, length)
    else s.(driver := Parked(index, start, length, false))
  }

  function BeginWoken(s: Sink): (t: Sink)
    requires s.driver.Parked?
    ensures t.ctl == s.ctl && t.flusher == s.flusher && (t.driver.Idle? || t.driver.Parked?)
  {
    if MayGoOn(s) then Grant(s, s.driver.index, s.driver.start, s.driver.length)
    else s.(driver := s.driver.(woken := false))
  }

  /** `_SegmentWriter._checked` lets a write of `length` bytes at `offset` through. */
  predicate WriteAccepted(s: Sink, offset: int, length: nat) {
    && s.ctl.phase == Open && !s.ctl.failure && s.feed.writer.Some? && !s.feed.completed
    && 0 <= offset && offset + length <= s.feed.writer.value.length
  }

  function Patched<T>(xs: seq<T>, offset: nat, data: seq<T>): (r: seq<T>)
    requires offset + |data| <= |xs|
    ensures |r| == |xs|
    ensures forall i :: 0 <= i < |r| ==> r[i] == if offset <= i < offset + |data| then data[i - offset] else xs[i]
  {
    xs[..offset] + data + xs[offset + |data|..]
  }

  /** `seg`'s bytes are somewhere in the pool. */
  predicate InPool(pool: Pool, seg: Segment) {
    seg.slot < |pool.memory| && seg.length <= |pool.memory[seg.slot]|
  }

  /** The segment being filled is in the pool, and so are the one next in the queue and the one being cleared. */
  predicate Grounded(s: Sink) {
    && (s.feed.writer.Some? ==> InPool(s.pool, s.feed.writer.value))
    && (s.feed.queue != [] && s.feed.queue[0].Some? ==> InPool(s.pool, s.feed.queue[0].value))
    && (s.flusher.Releasing? ==> s.flusher.held.slot < |s.pool.memory|)
  }

  function Write(s: Sink, offset: int, data: Bytes): (t: Sink)
    requires Grounded(s)
    ensures t.flusher == s.flusher && t.driver == s.driver
    ensures t.ctl == s.ctl || (t.ctl == s.ctl.(everWritten := true) && s.ctl.phase == Open)
    ensures t.feed == s.feed && t.pool.free == s.pool.free && t.pool.lost == s.pool.lost
  {
    if !WriteAccepted(s, offset, |data|) then s
    else
      var slot := s.feed.writer.value.slot;
      s.(ctl := s.ctl.(everWritten := true),
         pool := s.pool.(touched := s.pool.touched + {slot},
                         memory := s.pool.memory[slot := Patched(s.pool.memory[slot], offset, data)]))
  }

  function Complete(s: Sink): (t: Sink)
    requires Grounded(s)
    ensures t.flusher == s.flusher && t.driver == s.driver && t.ctl == s.ctl
  {
    if !WriteAccepted(s, 0, 0) then s
    else
      var seg := s.feed.writer.value;
      s.(feed := s.feed.(completed := true, queue := s.feed.queue + [Some(seg)],
                         sealed := s.feed.sealed + [s.pool.memory[seg.slot][..seg.length]]))
  }

  function Commit(s: Sink): Sink {
    if s.ctl.phase != Open || (s.feed.writer.Some? && !s.feed.completed) || s.ctl.failure then s.(driver := Stopped)
    else s.(feed := s.feed.(queue := s.feed.queue + [None]), driver := CommitFlushing)
  }

  /** `commit` after its flusher is done; a flusher that was killed raises out of the `await`. */
  function CommitFlushed(s: Sink): Sink {
    if s.flusher != Ended || s.ctl.phase != Open || s.ctl.failure then s.(driver := Stopped)
    else s.(ctl := s.ctl.(finalizer := Running, finalizes := s.ctl.finalizes + 1), driver := CommitFinalizing)
  }

  function FinalizeDone(c: Control, ok: bool): Control {
    if ok then c.(finalizer := Succeeded, phase := Committed) else c.(finalizer := Failed)
  }

  /** `_free` when the slot need not be zero any more, or is still zero. */
  function GiveBack(s: Sink, seg: Segment): (t: Sink)
    ensures t.ctl == s.ctl && t.flusher == Getting && t.driver == Notified(s.driver)
  {
    s.(pool := s.pool.(free := s.pool.free + [seg.slot]), flusher := Getting, driver := Notified(s.driver))
  }

  /** One turn of `_flush_loop` from `queue.get` returning to its next `await`. */
  function Get(s: Sink): (t: Sink)
    requires s.feed.queue != [] && Grounded(s)
    ensures t.ctl == s.ctl && (t.flusher == Ended || t.flusher == Getting || (t.flusher.Flushing? && !s.ctl.aborting))
    ensures t.driver == s.driver || t.driver == Notified(s.driver)
  {
    var feed := s.feed.(queue := s.feed.queue[1..]);
    match s.feed.queue[0]
    case None => s.(feed := feed, flusher := Ended)
    case Some(seg) =>
      var out := feed.(dequeued := feed.dequeued + 1);
      if !s.ctl.failure && !s.ctl.aborting then
        var call := FlushCall(seg.index, seg.start, s.pool.memory[seg.slot][..seg.length]);
        s.(feed := out.(flushes := out.flushes + [call]), flusher := Flushing(seg))
      else GiveBack(s.(feed := out), seg)
  }

  function FlushReturned(s: Sink): (t: Sink)
    requires s.flusher.Flushing?
    ensures t.ctl == s.ctl && (t.flusher == Getting || (t.flusher.Releasing? && !s.ctl.aborting))
    ensures t.driver == s.driver || t.driver == Notified(s.driver)
  {
    var seg := s.flusher.seg;
    if s.ctl.failure || s.ctl.aborting || seg.slot !in s.pool.touched then GiveBack(s, seg)
    else s.(flusher := Releasing(seg))
  }

  /** `flush_segment` raised; `fatal` means not an `Exception`, so the flusher dies of it. */
  function FlushRaised(s: Sink, fatal: bool): (t: Sink)
    requires s.flusher.Flushing?
    ensures t.ctl == s.ctl.(failure := true) && t.flusher == (if fatal then Killed else Getting)
    ensures t.driver == Notified(s.driver)
  {
    var t := GiveBack(s, s.flusher.seg);
    t.(ctl := t.ctl.(failure := true), flusher := if fatal then Killed else Getting)
  }

  function Cleared(cfg: Config, s: Sink): (t: Sink)
    requires s.flusher.Releasing? && Grounded(s)
    ensures t.ctl == s.ctl && t.flusher == Getting && t.driver == Notified(s.driver)
  {
    var slot := s.flusher.held.slot;
    GiveBack(s.(pool := s.pool.(memory := s.pool.memory[slot := Zeros(cfg.segmentSize)])), s.flusher.held)
  }

  function ClearRaised(s: Sink): Sink
    requires s.flusher.Releasing?
  {
    s.(ctl := s.ctl.(failure := true), pool := s.pool.(lost := s.pool.lost + [s.flusher.held.slot]),
       flusher := Getting, driver := Notified(s.driver))
  }

  /** The event loop cancels the flusher task outside `flush_segment`: nothing is recorded and nobody is told. */
  function FlusherCancelled(s: Sink): Sink
    requires s.flusher.Getting? || s.flusher.Releasing?
  {
    s.(ctl := s.ctl.(torn := true), flusher := Killed,
       pool := if s.flusher.Releasing? then s.pool.(lost := s.pool.lost + [s.flusher.held.slot]) else s.pool)
  }

  function AbortCalled(c: Control): Control {
    if c.abortOutcome.Some? then c.(reported := c.reported + {c.abortOutcome.value})
    else if c.aborter.NoTask? then c.(aborter := Scheduled, abortCallers := c.abortCallers + 1)
    else c.(abortCallers := c.abortCallers + 1)
  }

  /** The first thing `_abort` does once no finalizer is at work. */
  function AbortTakes(s: Sink): Sink {
    var c := s.ctl;
    var phase := if c.phase == Committed then Committed else Aborted;
    if s.flusher.NotStarted? then
      s.(ctl := c.(aborting := true, phase := phase, aborter := ClosingPool(c.phase)), driver := Notified(s.driver))
    else
      s.(ctl := c.(aborting := true, phase := phase, aborter := WaitingFlusher(c.phase)), driver := Notified(s.driver),
         feed := s.feed.(queue := s.feed.queue + [None]))
  }

  function AbortStarts(s: Sink): Sink {
    if s.ctl.finalizer != NotYet then s.(ctl := s.ctl.(aborter := WaitingFinalizer)) else AbortTakes(s)
  }

  function AbortPoolClosed(c: Control): Control
    requires c.aborter.ClosingPool?
  {
    if c.aborter.was == Committed then c.(abortOutcome := Some(Outcome(true, c.everWritten)), aborter := Finished)
    else if !c.creating then c.(abortOutcome := Some(Outcome(false, false)), aborter := Finished)
    else c.(discards := c.discards + 1, aborter := Discarding(c.everWritten))
  }

  /** `discard_destination` returned, or (None) raised. */
  function DiscardDone(c: Control, kept: Option<bool>): Control
    requires c.aborter.Discarding?
  {
    match kept
    case Some(k) => c.(abortOutcome := Some(Outcome(k, c.aborter.written)), aborter := Finished)
    case None => c.(abortOutcome := Some(Outcome(true, c.aborter.written)), aborter := Raised)
  }

  // ------------------------------------------------------------------------------------------------------
  // Steps and runs
  // ------------------------------------------------------------------------------------------------------

  datatype Action =
    | DoBegin(index: int, start: int, length: int)
    | DoWake
    | DoWrite(offset: int, data: Bytes)
    | DoComplete
    | DoCommit
    | DoCommitFlushed
    | DoCommitFinalized
    | DoCommitClosed
    | DoCancelCall
    | DoFinalize(ok: bool)
    | DoGet
    | DoFlushReturn
    | DoFlushRaise(fatal: bool)
    | DoClear
    | DoClearRaise
    | DoCancelFlusher
    | DoAbortCall
    | DoAbortStart
    | DoAbortFinalized
    | DoAbortFlushed
    | DoAbortClosed
    | DoDiscard(kept: Option<bool>)
    | DoAbortReport
    | DoAbortCallerCancel

  predicate FlusherDone(f: Flusher) { f.Ended? || f.Killed? }

  predicate FinalizerDone(f: Finalizer) { f.Succeeded? || f.Failed? }

  predicate Enabled(a: Action, s: Sink) {
    match a
    case DoBegin(_, _, _) => s.driver.Idle?
    case DoWake => s.driver.Parked? && s.driver.woken
    case DoWrite(_, _) => s.driver.Idle?
    case DoComplete => s.driver.Idle?
    case DoCommit => s.driver.Idle?
    case DoCommitFlushed => s.driver.CommitFlushing? && FlusherDone(s.flusher)
    case DoCommitFinalized => s.driver.CommitFinalizing? && FinalizerDone(s.ctl.finalizer)
    case DoCommitClosed => s.driver.CommitClosing?
    case DoCancelCall =>
      s.driver.Parked? || s.driver.CommitFlushing? || s.driver.CommitFinalizing? || s.driver.CommitClosing?
    case DoFinalize(_) => s.ctl.finalizer.Running?
    case DoGet => s.flusher.Getting? && s.feed.queue != []
    case DoFlushReturn => s.flusher.Flushing?
    case DoFlushRaise(_) => s.flusher.Flushing?
    case DoClear => s.flusher.Releasing?
    case DoClearRaise => s.flusher.Releasing?
    case DoCancelFlusher => s.flusher.Getting? || s.flusher.Releasing?
    case DoAbortCall => true
    case DoAbortStart => s.ctl.aborter.Scheduled?
    case DoAbortFinalized => s.ctl.aborter.WaitingFinalizer? && FinalizerDone(s.ctl.finalizer)
    case DoAbortFlushed => s.ctl.aborter.WaitingFlusher? && FlusherDone(s.flusher)
    case DoAbortClosed => s.ctl.aborter.ClosingPool?
    case DoDiscard(_) => s.ctl.aborter.Discarding?
    case DoAbortReport => s.ctl.aborter.Finished? && s.ctl.abortCallers > 0 && s.ctl.abortOutcome.Some?
    case DoAbortCallerCancel => s.ctl.abortCallers > 0
  }

  function Apply(cfg: Config, a: Action, s: Sink): Sink
    requires Enabled(a, s) && Grounded(s)
  {
    match a
    case DoBegin(index, start, length) => Begin(cfg, s, index, start, length)
    case DoWake => BeginWoken(s)
    case DoWrite(offset, data) => Write(s, offset, data)
    case DoComplete => Complete(s)
    case DoCommit => Commit(s)
    case DoCommitFlushed => CommitFlushed(s)
    case DoCommitFinalized => if s.ctl.finalizer.Succeeded? then s.(driver := CommitClosing) else s.(driver := Stopped)
    case DoCommitClosed => s.(driver := Returned)
    case DoCancelCall => s.(driver := if s.driver.Parked? then Idle else Stopped)
    case DoFinalize(ok) => s.(ctl := FinalizeDone(s.ctl, ok))
    case DoGet => Get(s)
    case DoFlushReturn => FlushReturned(s)
    case DoFlushRaise(fatal) => FlushRaised(s, fatal)
    case DoClear => Cleared(cfg, s)
    case DoClearRaise => ClearRaised(s)
    case DoCancelFlusher => FlusherCancelled(s)
    case DoAbortCall => s.(ctl := AbortCalled(s.ctl))
    case DoAbortStart => AbortStarts(s)
    case DoAbortFinalized => AbortTakes(s)
    case DoAbortFlushed => s.(ctl := s.ctl.(aborter := ClosingPool(s.ctl.aborter.was)))
    case DoAbortClosed => s.(ctl := AbortPoolClosed(s.ctl))
    case DoDiscard(kept) => s.(ctl := DiscardDone(s.ctl, kept))
    case DoAbortReport =>
      s.(ctl := s.ctl.(reported := s.ctl.reported + {s.ctl.abortOutcome.value}, abortCallers := s.ctl.abortCallers - 1))
    case DoAbortCallerCancel => s.(ctl := s.ctl.(abortCallers := s.ctl.abortCallers - 1))
  }

  predicate Step(cfg: Config, s: Sink, a: Action, t: Sink) {
    Grounded(s) && Enabled(a, s) && t == Apply(cfg, a, s)
  }

  /** `states` is a run in which `actions` were taken. */
  ghost predicate Run(cfg: Config, states: seq<Sink>, actions: seq<Action>)
    requires cfg.Valid()
  {
    && |states| == |actions| + 1
    && Initial(cfg, states[0])
    && forall i :: 0 <= i < |actions| ==> Step(cfg, states[i], actions[i], states[i + 1])
  }
}
