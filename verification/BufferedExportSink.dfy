/** The sink as the object it is: the fields `BufferedExportSink`, its `_Core` and its pool keep, and the methods that
    update them. Each method is one stretch of the source between two awaits, and does to the object what the
    machine's step does to its state; called where that step is possible, it keeps the invariant, so any sequence of
    calls does. */
module BufferedExportSinks {
  import opened Basics
  import opened SinkModel
  import opened SinkInvariant
  import opened SinkSteps

  /** What the machine remembers of a run beside the object's own state. */
  datatype Log = Log(
    finalizes: nat, discards: nat, reported: set<Outcome>, torn: bool,
    sealed: seq<Bytes>, dequeued: nat, flushes: seq<FlushCall>)

  class BufferedExportSink {
    const cfg: Config

    // _Core
    var state: Phase
    var failure: bool
    var everWritten: bool
    var queue: seq<Option<Segment>>

    // the sink
    var creating: bool
    var aborting: bool
    var nextIndex: nat
    var writer: Option<Segment>
    var completed: bool
    var abortOutcome: Option<Outcome>

    // its pool: the free list, the bytes and the touched marks
    var pool: Pool

    // where its tasks are
    var driver: Driver
    var flusher: Flusher
    var finalizer: Finalizer
    var aborter: Aborter
    var abortCallers: nat

    ghost var log: Log

    ghost function View(): Sink
      reads this
    {
      Sink(
        Control(state, failure, everWritten, creating, aborting, finalizer, aborter, abortOutcome, abortCallers,
                log.finalizes, log.discards, log.reported, log.torn),
        pool,
        Feed(queue, nextIndex, writer, completed, log.sealed, log.dequeued, log.flushes),
        driver,
        flusher)
    }

    /** The sink is in a state that the machine's runs reach, and `a` may be its next step. */
    ghost predicate May(a: Action)
      reads this
    {
      Sound() && Enabled(a, View())
    }

    ghost predicate Sound()
      reads this
    {
      Grounded(View()) && cfg.Valid() && Inv(cfg, View())
    }

    /** A sink whose `open` returned. */
    constructor Opened(cfg: Config)
      requires cfg.Valid()
      ensures this.cfg == cfg && View() == Fresh(cfg, Open, true, Getting) && Sound()
    {
      this.cfg := cfg;
      state, failure, everWritten, queue := Open, false, false, [];
      creating, aborting, nextIndex, writer, completed, abortOutcome := true, false, 0, None, false, None;
      pool := Pool(Count(cfg.Slots()), seq(cfg.Slots(), _ => Zeros(cfg.segmentSize)), {}, []);
      driver, flusher, finalizer, aborter, abortCallers := Idle, Getting, NotYet, NoTask, 0;
      log := Log(0, 0, {}, false, [], 0, []);
      new;
      InitialInv(cfg, View());
      InvGrounded(cfg, View());
    }

    method NotifyAll()
      modifies this`driver
      ensures driver == Notified(old(driver))
    {
      if driver.Parked? {
        driver := driver.(woken := true);
      }
    }

    method BeginSegment(index: int, start: int, length: int)
      requires May(DoBegin(index, start, length))
      modifies `driver, `pool, `nextIndex, `writer, `completed
      ensures View() == Begin(cfg, old(View()), index, start, length)
      ensures Sound()
    {
      hide Inv;
      StepHolds(cfg, View(), DoBegin(index, start, length));
      if state != Open { return; }
      if writer.Some? && !completed { return; }
      if index != nextIndex { return; }
      var expected := ExpectedLength(cfg, index);
      if start != index * cfg.segmentSize || length != expected || length <= 0 { return; }
      if failure || aborting || pool.free != [] {
        TakeSlot(index, start, length);
      } else {
        driver := Parked(index, start, length, false);
      }
    }

    /** `begin_segment` after `wait_for`. */
    method TakeSlot(index: nat, start: nat, length: nat)
      requires failure || aborting || pool.free != []
      modifies `driver, `pool, `nextIndex, `writer, `completed
      ensures View() == Grant(old(View()), index, start, length)
    {
      driver := Idle;
      if state != Open || failure || pool.free == [] { return; }
      var slot := pool.free[0];
      pool := pool.(free := pool.free[1..], touched := pool.touched - {slot});
      NewWriter(Segment(index, start, length, slot));
    }

    method NewWriter(segment: Segment)
      modifies `nextIndex, `writer, `completed
      ensures nextIndex == old(nextIndex) + 1 && writer == Some(segment) && !completed
    {
      nextIndex := nextIndex + 1;
      writer, completed := Some(segment), false;
    }

    /** A notify reached the parked `begin_segment`. */
    method Woken()
      requires May(DoWake)
      modifies `driver, `pool, `nextIndex, `writer, `completed
      ensures View() == BeginWoken(old(View()))
      ensures Sound()
    {
      hide Inv;
      StepHolds(cfg, View(), DoWake);
      if failure || aborting || pool.free != [] {
        TakeSlot(driver.index, driver.start, driver.length);
      } else {
        driver := driver.(woken := false);
      }
    }

    method WriteAt(offset: int, data: Bytes)
      requires May(DoWrite(offset, data))
      modifies `everWritten, `pool
      ensures View() == Write(old(View()), offset, data)
      ensures Sound()
    {
      hide Inv;
      StepHolds(cfg, View(), DoWrite(offset, data));
      if state != Open || failure || writer.None? || completed { return; }
      if offset < 0 || offset + |data| > writer.value.length { return; }
      var slot := writer.value.slot;
      everWritten := true;
      pool := pool.(touched := pool.touched + {slot},
                    memory := pool.memory[slot := Patched(pool.memory[slot], offset, data)]);
    }

    method CompleteSegment()
      requires May(DoComplete)
      modifies `completed, `queue, `log
      ensures View() == Complete(old(View()))
      ensures Sound()
    {
      hide Inv;
      StepHolds(cfg, View(), DoComplete);
      if state != Open || failure || writer.None? || completed { return; }
      completed := true;
      queue := queue + [Some(writer.value)];
      log := log.(sealed := log.sealed + [pool.memory[writer.value.slot][..writer.value.length]]);
    }

    method CommitCalled()
      requires May(DoCommit)
      modifies `queue, `driver
      ensures View() == Commit(old(View()))
      ensures Sound()
    {
      hide Inv;
      StepHolds(cfg, View(), DoCommit);
      if state != Open || (writer.Some? && !completed) || failure {
        driver := Stopped;
        return;
      }
      queue := queue + [None];
      driver := CommitFlushing;
    }

    method CommitAfterFlusher()
      requires May(DoCommitFlushed)
      modifies `driver, `finalizer, `log
      ensures View() == CommitFlushed(old(View()))
      ensures Sound()
    {
      hide Inv;
      StepHolds(cfg, View(), DoCommitFlushed);
      if flusher != Ended || state != Open || failure {
        driver := Stopped;
        return;
      }
      finalizer, driver := Running, CommitFinalizing;
      log := log.(finalizes := log.finalizes + 1);
    }

    /** `commit` once its finalizer is over, up to closing the pool. */
    method CommitAfterFinalizer()
      requires May(DoCommitFinalized)
      modifies `driver
      ensures View() == Apply(cfg, DoCommitFinalized, old(View()))
      ensures Sound()
    {
      hide Inv;
      StepHolds(cfg, View(), DoCommitFinalized);
      driver := if finalizer == Succeeded then CommitClosing else Stopped;
    }

    /** `commit` returns. */
    method CommitReturns()
      requires May(DoCommitClosed)
      modifies `driver
      ensures View() == old(View()).(driver := Returned)
      ensures Sound()
    {
      hide Inv;
      StepHolds(cfg, View(), DoCommitClosed);
      driver := Returned;
    }

    /** The waiting call, `begin_segment` or `commit`, is cancelled. */
    method CallCancelled()
      requires May(DoCancelCall)
      modifies `driver
      ensures View() == Apply(cfg, DoCancelCall, old(View()))
      ensures Sound()
    {
      hide Inv;
      StepHolds(cfg, View(), DoCancelCall);
      driver := if driver.Parked? then Idle else Stopped;
    }

    /** `_finalize` once `finalize_destination` is over. */
    method Finalized(ok: bool)
      requires May(DoFinalize(ok))
      modifies `finalizer, `state
      ensures View() == old(View()).(ctl := FinalizeDone(old(View()).ctl, ok))
      ensures Sound()
    {
      hide Inv;
      StepHolds(cfg, View(), DoFinalize(ok));
      if ok {
        finalizer, state := Succeeded, Committed;
      } else {
        finalizer := Failed;
      }
    }

    /** `_free` where the slot goes back as it is. */
    method Free(seg: Segment)
      modifies `pool, `flusher, `driver
      ensures View() == GiveBack(old(View()), seg)
    {
      pool, flusher := pool.(free := pool.free + [seg.slot]), Getting;
      NotifyAll();
    }

    /** One turn of `_flush_loop`, from `queue.get` on. */
    method FlushNext()
      requires May(DoGet)
      modifies `queue, `flusher, `log, `pool, `driver
      ensures View() == Get(old(View()))
      ensures Sound()
    {
      hide Inv;
      StepHolds(cfg, View(), DoGet);
      var segment := queue[0];
      queue := queue[1..];
      if segment.None? {
        flusher := Ended;
        return;
      }
      log := log.(dequeued := log.dequeued + 1);
      if !failure && !aborting {
        flusher := Flushing(segment.value);
        log := log.(flushes := log.flushes + [FlushCall(segment.value.index, segment.value.start,
                                                        pool.memory[segment.value.slot][..segment.value.length])]);
      } else {
        Free(segment.value);
      }
    }

    method FlushReturns()
      requires May(DoFlushReturn)
      modifies `pool, `flusher, `driver
      ensures View() == FlushReturned(old(View()))
      ensures Sound()
    {
      hide Inv;
      StepHolds(cfg, View(), DoFlushReturn);
      var seg := flusher.seg;
      if failure || aborting || seg.slot !in pool.touched {
        Free(seg);
      } else {
        flusher := Releasing(seg);
      }
    }

    method FlushRaises(fatal: bool)
      requires May(DoFlushRaise(fatal))
      modifies `failure, `pool, `flusher, `driver
      ensures View() == FlushRaised(old(View()), fatal)
      ensures Sound()
    {
      hide Inv;
      StepHolds(cfg, View(), DoFlushRaise(fatal));
      failure := true;
      Free(flusher.seg);
      if fatal {
        flusher := Killed;
      }
    }

    method SlotCleared()
      requires May(DoClear)
      modifies `pool, `flusher, `driver
      ensures View() == Cleared(cfg, old(View()))
      ensures Sound()
    {
      hide Inv;
      StepHolds(cfg, View(), DoClear);
      pool := pool.(memory := pool.memory[flusher.held.slot := Zeros(cfg.segmentSize)]);
      Free(flusher.held);
    }

    method ClearRaises()
      requires May(DoClearRaise)
      modifies `failure, `pool, `flusher, `driver
      ensures View() == ClearRaised(old(View()))
      ensures Sound()
    {
      hide Inv;
      StepHolds(cfg, View(), DoClearRaise);
      failure := true;
      pool := pool.(lost := pool.lost + [flusher.held.slot]);
      flusher := Getting;
      NotifyAll();
    }

    /** The flusher is cancelled outside `flush_segment`; a slot it was clearing is lost. */
    method FlusherIsCancelled()
      requires May(DoCancelFlusher)
      modifies `pool, `flusher, `log
      ensures View() == FlusherCancelled(old(View()))
      ensures Sound()
    {
      hide Inv;
      StepHolds(cfg, View(), DoCancelFlusher);
      if flusher.Releasing? {
        pool := pool.(lost := pool.lost + [flusher.held.slot]);
      }
      flusher := Killed;
      log := log.(torn := true);
    }

    method Abort()
      requires May(DoAbortCall)
      modifies `log, `aborter, `abortCallers
      ensures View() == old(View()).(ctl := AbortCalled(old(View()).ctl))
      ensures Sound()
    {
      hide Inv;
      StepHolds(cfg, View(), DoAbortCall);
      if abortOutcome.Some? {
        log := log.(reported := log.reported + {abortOutcome.value});
        return;
      }
      if aborter.NoTask? {
        aborter := Scheduled;
      }
      abortCallers := abortCallers + 1;
    }

    /** `_abort` up to its first await. */
    method AbortBegins()
      requires May(DoAbortStart)
      modifies `aborter, `aborting, `state, `driver, `queue
      ensures View() == AbortStarts(old(View()))
      ensures Sound()
    {
      hide Inv;
      StepHolds(cfg, View(), DoAbortStart);
      if finalizer != NotYet {
        aborter := WaitingFinalizer;
      } else {
        AbortTakesOver();
      }
    }

    /** `_abort` once no finalizer is at work, up to waiting for the flusher. */
    method AbortTakesOver()
      modifies `aborter, `aborting, `state, `driver, `queue
      ensures View() == AbortTakes(old(View()))
    {
      var was := state;
      aborting := true;
      if was != Committed {
        state := Aborted;
      }
      NotifyAll();
      if flusher.NotStarted? {
        aborter := ClosingPool(was);
      } else {
        queue := queue + [None];
        aborter := WaitingFlusher(was);
      }
    }

    /** `_abort` after the finalizer it waited for. */
    method AbortAfterFinalizer()
      requires May(DoAbortFinalized)
      modifies `aborter, `aborting, `state, `driver, `queue
      ensures View() == AbortTakes(old(View()))
      ensures Sound()
    {
      hide Inv;
      StepHolds(cfg, View(), DoAbortFinalized);
      AbortTakesOver();
    }

    /** `_abort` after the flusher, up to closing the pool. */
    method AbortAfterFlusher()
      requires May(DoAbortFlushed)
      modifies `aborter
      ensures View() == Apply(cfg, DoAbortFlushed, old(View()))
      ensures Sound()
    {
      hide Inv;
      StepHolds(cfg, View(), DoAbortFlushed);
      aborter := ClosingPool(aborter.was);
    }

    /** A caller of `abort` gets the outcome. */
    method AbortReturns()
      requires May(DoAbortReport)
      modifies `abortCallers, `log
      ensures View() == Apply(cfg, DoAbortReport, old(View()))
      ensures Sound()
    {
      hide Inv;
      StepHolds(cfg, View(), DoAbortReport);
      log := log.(reported := log.reported + {abortOutcome.value});
      abortCallers := abortCallers - 1;
    }

    /** A caller of `abort` is cancelled; the abort goes on. */
    method AbortCallCancelled()
      requires May(DoAbortCallerCancel)
      modifies `abortCallers
      ensures View() == Apply(cfg, DoAbortCallerCancel, old(View()))
      ensures Sound()
    {
      hide Inv;
      StepHolds(cfg, View(), DoAbortCallerCancel);
      abortCallers := abortCallers - 1;
    }

    method AbortAfterPool()
      requires May(DoAbortClosed)
      modifies `abortOutcome, `aborter, `log
      ensures View() == old(View()).(ctl := AbortPoolClosed(old(View()).ctl))
      ensures Sound()
    {
      hide Inv;
      StepHolds(cfg, View(), DoAbortClosed);
      if aborter.was == Committed {
        abortOutcome, aborter := Some(Outcome(true, everWritten)), Finished;
      } else if !creating {
        abortOutcome, aborter := Some(Outcome(false, false)), Finished;
      } else {
        log, aborter := log.(discards := log.discards + 1), Discarding(everWritten);
      }
    }

    method Discarded(kept: Option<bool>)
      requires May(DoDiscard(kept))
      modifies `abortOutcome, `aborter
      ensures View() == old(View()).(ctl := DiscardDone(old(View()).ctl, kept))
      ensures Sound()
    {
      hide Inv;
      StepHolds(cfg, View(), DoDiscard(kept));
      match kept {
        case Some(k) => abortOutcome, aborter := Some(Outcome(k, aborter.written)), Finished;
        case None => abortOutcome, aborter := Some(Outcome(true, aborter.written)), Raised;
      }
    }
  }
}
