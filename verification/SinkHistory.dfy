/** What a run's actions alone say of the bytes and the answers: which byte was written last where, whether anything was
    written, what failed, and what the discard hook answered. */
module SinkHistory {
  import opened Basics
  import opened SinkModel
  import opened SinkInvariant
  import opened SinkSteps

  // ------------------------------------------------------------------------------------------------------
  // The bytes
  // ------------------------------------------------------------------------------------------------------

  /** In state `s`, `a` writes byte `p` of segment `j`: the sink is open, no flush has failed, the segment's writer is not
      completed, and the write lies inside the segment. */
  predicate Covers(s: Sink, a: Action, j: nat, p: nat) {
    && a.DoWrite? && s.ctl.phase == Open && !s.ctl.failure
    && s.feed.writer.Some? && !s.feed.completed && s.feed.writer.value.index == j
    && 0 <= a.offset <= p < a.offset + |a.data| <= s.feed.writer.value.length
  }

  /** The byte that the last of the first `n` actions to write byte `p` of segment `j` wrote there. */
  function LastByte(states: seq<Sink>, actions: seq<Action>, n: nat, j: nat, p: nat): Option<byte>
    requires n <= |actions| < |states|
  {
    if n == 0 then None
    else if Covers(states[n - 1], actions[n - 1], j, p) then Some(actions[n - 1].data[p - actions[n - 1].offset])
    else LastByte(states, actions, n - 1, j, p)
  }

  /** What a reader finds: zero where nothing was written. */
  function Left(b: Option<byte>): byte { match b case Some(x) => x case None => 0 }

  /** In state `s`, `a` completes segment `j`. */
  predicate Completes(s: Sink, a: Action, j: nat) {
    && a.DoComplete? && s.ctl.phase == Open && !s.ctl.failure
    && s.feed.writer.Some? && !s.feed.completed && s.feed.writer.value.index == j
  }

  /** Byte `p` of segment `j`, sealed or being filled. */
  function ByteOf(pool: Pool, feed: Feed, j: nat, p: nat): byte {
    if j < |feed.sealed| then if p < |feed.sealed[j]| then feed.sealed[j][p] else 0
    else if Filling(feed) && InPool(pool, feed.writer.value) && p < feed.writer.value.length
            && j == feed.writer.value.index then pool.memory[feed.writer.value.slot][p]
    else 0
  }

  lemma WriteBytes(cfg: Config, s: Sink, offset: int, data: Bytes, j: nat, p: nat)
    requires cfg.Valid() && Grounded(s)
    requires Order(cfg, Clean(s.ctl), Segments(s.feed.queue), s.feed, s.flusher)
    ensures var t := Write(s, offset, data);
            ByteOf(t.pool, t.feed, j, p)
            == if Covers(s, DoWrite(offset, data), j, p) then data[p - offset] else ByteOf(s.pool, s.feed, j, p)
  {
  }

  lemma CompleteBytes(cfg: Config, s: Sink, j: nat, p: nat)
    requires cfg.Valid() && Grounded(s)
    requires Order(cfg, Clean(s.ctl), Segments(s.feed.queue), s.feed, s.flusher)
    ensures var t := Complete(s); ByteOf(t.pool, t.feed, j, p) == ByteOf(s.pool, s.feed, j, p)
  {
  }

  lemma GrantBytes(cfg: Config, s: Sink, index: nat, start: nat, length: nat, j: nat, p: nat)
    requires cfg.Valid() && TrafficOf(cfg, s) && MayGoOn(s) && !Filling(s.feed)
    requires s.ctl.phase == Open ==> !s.ctl.aborting
    requires IsSegment(cfg, Segment(index, start, length, 0), s.feed.nextIndex)
    ensures var t := Grant(s, index, start, length);
            ByteOf(t.pool, t.feed, j, p) == ByteOf(s.pool, s.feed, j, p)
  {
    hide Contents;
    if Takes(s) { FirstFreeApart(cfg, s.pool, Segments(s.feed.queue), s.feed, s.flusher); }
  }

  lemma ClearedBytes(cfg: Config, s: Sink, j: nat, p: nat)
    requires cfg.Valid() && TrafficOf(cfg, s) && Grounded(s) && s.flusher.Releasing?
    ensures var t := Cleared(cfg, s); ByteOf(t.pool, t.feed, j, p) == ByteOf(s.pool, s.feed, j, p)
  {
    hide Order, Contents, Blank;
    FlusherApart(cfg, s.pool, Segments(s.feed.queue), s.feed, s.flusher, s.flusher.held.slot);
  }

  lemma QuietBytes(s: Sink, t: Sink, j: nat, p: nat)
    ensures (t.pool.memory == s.pool.memory && t.feed.sealed == s.feed.sealed && t.feed.writer == s.feed.writer
             && t.feed.completed == s.feed.completed) ==>
              ByteOf(t.pool, t.feed, j, p) == ByteOf(s.pool, s.feed, j, p)
  {
  }

  /** Only an accepted write changes a byte of a segment, to what it carries. */
  lemma StepBytes(cfg: Config, s: Sink, a: Action, t: Sink, j: nat, p: nat)
    requires cfg.Valid() && Step(cfg, s, a, t) && Inv(cfg, s)
    ensures ByteOf(t.pool, t.feed, j, p)
            == if Covers(s, a, j, p) then a.data[p - a.offset] else ByteOf(s.pool, s.feed, j, p)
  {
    hide Lifecycle, Slots, Order, Contents, Blank, CommitStops, AbortStops, Deaths, Losses, Grounded,
      ByteOf, Write, Complete, Cleared, Grant;
    OpenIsNotAborting(s);
    match a {
      case DoBegin(index, start, length) =>
        if BeginAccepted(cfg, s, index, start, length) && MayGoOn(s) { GrantBytes(cfg, s, index, start, length, j, p); }
      case DoWake =>
        if MayGoOn(s) { GrantBytes(cfg, s, s.driver.index, s.driver.start, s.driver.length, j, p); }
      case DoWrite(offset, data) => WriteBytes(cfg, s, offset, data, j, p);
      case DoComplete => CompleteBytes(cfg, s, j, p);
      case DoClear => ClearedBytes(cfg, s, j, p);
      case _ =>
    }
    QuietBytes(s, t, j, p);
  }

  lemma OpenIsNotAborting(s: Sink)
    requires Lifecycle(s.ctl, s.driver, s.flusher)
    ensures s.ctl.phase == Open ==> !s.ctl.aborting
  {
  }

  lemma {:induction false} BytesAreWritten(cfg: Config, states: seq<Sink>, actions: seq<Action>, n: nat, j: nat, p: nat)
    requires cfg.Valid() && Run(cfg, states, actions) && n < |states|
    ensures ByteOf(states[n].pool, states[n].feed, j, p) == Left(LastByte(states, actions, n, j, p))
  {
    hide Inv, Step, ByteOf, Initial, Covers;
    if n == 0 {
      NoBytes(cfg, states[0], j, p);
    } else {
      BytesAreWritten(cfg, states, actions, n - 1, j, p);
      RunKeeps(cfg, states, actions, n - 1);
      StepBytes(cfg, states[n - 1], actions[n - 1], states[n], j, p);
    }
  }

  lemma NoBytes(cfg: Config, s: Sink, j: nat, p: nat)
    requires cfg.Valid() && Initial(cfg, s)
    ensures ByteOf(s.pool, s.feed, j, p) == 0
  {
  }

  /** Whatever else happens, byte `p` of a sealed segment is that of the last write to reach it while its writer was open,
      and zero if there was none; and `flush_segment` is given these bytes. */
  lemma SealedIsWritten(cfg: Config, states: seq<Sink>, actions: seq<Action>, n: nat, j: nat, p: nat)
    requires cfg.Valid() && Run(cfg, states, actions) && n < |states|
    requires j < |states[n].feed.sealed| && p < |states[n].feed.sealed[j]|
    ensures states[n].feed.sealed[j][p] == Left(LastByte(states, actions, n, j, p))
    ensures j < |states[n].feed.flushes| ==>
              |states[n].feed.flushes[j].bytes| == |states[n].feed.sealed[j]|
              && states[n].feed.flushes[j].bytes[p] == Left(LastByte(states, actions, n, j, p))
  {
    hide LastByte, Step, Run, Lifecycle, Contents, Blank, Slots;
    BytesAreWritten(cfg, states, actions, n, j, p);
    RunKeeps(cfg, states, actions, n);
  }

  /** Once a segment is completed, nothing writes to it. */
  lemma SealedStays(cfg: Config, s: Sink, a: Action, j: nat, p: nat)
    requires cfg.Valid() && Inv(cfg, s) && j < |s.feed.sealed|
    ensures !Covers(s, a, j, p)
  {
    hide Lifecycle, Contents, Blank, Slots, CommitStops, AbortStops, Parking, Deaths, Losses;
  }

  // ------------------------------------------------------------------------------------------------------
  // The flags
  // ------------------------------------------------------------------------------------------------------

  /** In state `s`, `a` is a write that the segment's writer lets through. */
  predicate Writes(s: Sink, a: Action) {
    && a.DoWrite? && s.ctl.phase == Open && !s.ctl.failure && s.feed.writer.Some? && !s.feed.completed
    && 0 <= a.offset && a.offset + |a.data| <= s.feed.writer.value.length
  }

  /** A flush or a clearing raised. */
  predicate Fails(a: Action) { a.DoFlushRaise? || a.DoClearRaise? }

  lemma StepFlags(cfg: Config, s: Sink, a: Action, t: Sink)
    requires Step(cfg, s, a, t)
    ensures t.ctl.everWritten <==> s.ctl.everWritten || Writes(s, a)
    ensures t.ctl.failure <==> s.ctl.failure || Fails(a)
  {
    hide Grounded, Begin, BeginWoken, Complete, Get, FlushReturned, Cleared, Patched, Zeros;
    match a
    case DoWrite(offset, data) =>
    case DoFlushRaise(_) =>
    case DoClearRaise =>
    case _ => hide Write, FlushRaised, ClearRaised;
  }

  /** A failure is recorded exactly if a flush or a clearing raised; something was written exactly if a write was let
      through. */
  lemma {:induction false} FlagsTell(cfg: Config, states: seq<Sink>, actions: seq<Action>, n: nat)
    requires cfg.Valid() && Run(cfg, states, actions) && n < |states|
    ensures states[n].ctl.failure <==> exists i :: 0 <= i < n && Fails(actions[i])
    ensures states[n].ctl.everWritten <==> exists i :: 0 <= i < n && Writes(states[i], actions[i])
  {
    hide Step, Writes, Fails;
    if n > 0 {
      FlagsTell(cfg, states, actions, n - 1);
      StepFlags(cfg, states[n - 1], actions[n - 1], states[n]);
    }
  }

  /** What `abort` reports of a discard that returned or raised: the hook's own answer, or that the destination may be
      there. */
  function Reported(kept: Option<bool>, written: bool): Outcome {
    Outcome(match kept case Some(k) => k case None => true, written)
  }

  lemma StepDiscards(cfg: Config, s: Sink, a: Action, t: Sink)
    requires Step(cfg, s, a, t) && Lifecycle(s.ctl, s.driver, s.flusher)
    ensures a.DoDiscard? ==> t.ctl.abortOutcome == Some(Reported(a.kept, s.ctl.everWritten)) && t.ctl.discards == 1
    ensures !a.DoDiscard? && t.ctl.discards == 1 && t.ctl.abortOutcome.Some? ==>
              t.ctl.abortOutcome == s.ctl.abortOutcome && s.ctl.discards == 1
    ensures s.ctl.discards == 1 ==> t.ctl.everWritten == s.ctl.everWritten
  {
    hide Grounded;
  }

  /** Once the destination was discarded, the outcome is what the hook answered. */
  lemma {:induction false} OutcomeIsTheHooks(cfg: Config, states: seq<Sink>, actions: seq<Action>, n: nat)
    requires cfg.Valid() && Run(cfg, states, actions) && n < |states|
    requires states[n].ctl.discards == 1 && states[n].ctl.abortOutcome.Some?
    ensures exists i :: 0 <= i < n && actions[i].DoDiscard?
                        && states[n].ctl.abortOutcome.value == Reported(actions[i].kept, states[n].ctl.everWritten)
  {
    hide Step, Lifecycle, Data;
    if n == 0 {
      NotDiscarded(cfg, states[0]);
    } else {
      RunKeeps(cfg, states, actions, n - 1);
      StepDiscards(cfg, states[n - 1], actions[n - 1], states[n]);
      if actions[n - 1].DoDiscard? {
        DiscardedBefore(cfg, states[n - 1], actions[n - 1], states[n]);
      } else {
        OutcomeIsTheHooks(cfg, states, actions, n - 1);
      }
    }
  }

  lemma DiscardedBefore(cfg: Config, s: Sink, a: Action, t: Sink)
    requires Step(cfg, s, a, t) && a.DoDiscard?
    ensures t.ctl.everWritten == s.ctl.everWritten
  {
    hide Grounded;
  }

  lemma NotDiscarded(cfg: Config, s: Sink)
    requires cfg.Valid() && Initial(cfg, s)
    ensures s.ctl.discards == 0
  {
  }

  // ------------------------------------------------------------------------------------------------------
  // The finalizer and the abort
  // ------------------------------------------------------------------------------------------------------

  lemma StepFinalizes(cfg: Config, s: Sink, a: Action, t: Sink)
    requires Step(cfg, s, a, t) && Lifecycle(s.ctl, s.driver, s.flusher)
    ensures t.ctl.finalizer.Succeeded? <==> s.ctl.finalizer.Succeeded? || a == DoFinalize(true)
    ensures t.ctl.finalizer.Failed? <==> s.ctl.finalizer.Failed? || a == DoFinalize(false)
  {
    hide Grounded, Begin, BeginWoken, Write, Complete, Get, FlushReturned, FlushRaised, Cleared, Phases, DiscardedOnce,
      OneOutcome;
    match a
    case DoFinalize(_) =>
    case DoCommitFlushed =>
    case DoAbortStart =>
    case DoAbortFinalized =>
    case DoAbortCall =>
    case DoAbortClosed =>
    case DoDiscard(_) =>
    case _ =>
  }

  lemma StepAborts(cfg: Config, s: Sink, a: Action, t: Sink)
    requires Step(cfg, s, a, t) && OneOutcome(s.ctl)
    ensures t.ctl.aborter.NoTask? <==> s.ctl.aborter.NoTask? && !a.DoAbortCall?
  {
    hide Grounded, Begin, BeginWoken, Write, Complete, Get, FlushReturned, FlushRaised, Cleared;
    match a
    case DoAbortCall =>
    case _ => hide AbortCalled;
  }

  /** The export counts as finalized exactly if `finalize_destination` returned, and as failing to if it raised; and there
      is an abort task from the first call of `abort` on. */
  lemma {:induction false} HooksAndCallsTell(cfg: Config, states: seq<Sink>, actions: seq<Action>, n: nat)
    requires cfg.Valid() && Run(cfg, states, actions) && n < |states|
    ensures states[n].ctl.finalizer.Succeeded? <==> exists i :: 0 <= i < n && actions[i] == DoFinalize(true)
    ensures states[n].ctl.finalizer.Failed? <==> exists i :: 0 <= i < n && actions[i] == DoFinalize(false)
    ensures !states[n].ctl.aborter.NoTask? <==> exists i :: 0 <= i < n && actions[i].DoAbortCall?
  {
    hide Step, Data, Phases, FinalizedOnce, DiscardedOnce, OneOutcome;
    if n > 0 {
      HooksAndCallsTell(cfg, states, actions, n - 1);
      RunKeeps(cfg, states, actions, n - 1);
      StepFinalizes(cfg, states[n - 1], actions[n - 1], states[n]);
      StepAborts(cfg, states[n - 1], actions[n - 1], states[n]);
    }
  }

  /** In state `s`, `a` answers a caller of `abort`, at once or once the task has its outcome. */
  predicate Answers(s: Sink, a: Action) { a.DoAbortReport? || (a.DoAbortCall? && s.ctl.abortOutcome.Some?) }

  lemma StepAnswers(cfg: Config, s: Sink, a: Action, t: Sink)
    requires Step(cfg, s, a, t)
    ensures t.ctl.reported == s.ctl.reported
                              + if Answers(s, a) && s.ctl.abortOutcome.Some? then {s.ctl.abortOutcome.value} else {}
    ensures Answers(s, a) ==> s.ctl.abortOutcome.Some?
  {
    hide Grounded, Begin, BeginWoken, Write, Complete, Get, FlushReturned, FlushRaised, Cleared;
    match a
    case DoAbortReport =>
    case DoAbortCall =>
    case _ => hide AbortCalled;
  }

  /** Every caller of `abort` that is answered is told the outcome, and the reported outcomes are those answers. */
  lemma {:induction false} AnswersAreTheOutcome(cfg: Config, states: seq<Sink>, actions: seq<Action>, n: nat, o: Outcome)
    requires cfg.Valid() && Run(cfg, states, actions) && n < |states|
    ensures o in states[n].ctl.reported
            <==> exists i :: 0 <= i < n && Answers(states[i], actions[i]) && states[i].ctl.abortOutcome == Some(o)
    ensures forall i :: 0 <= i < n && Answers(states[i], actions[i]) ==> states[i].ctl.abortOutcome.Some?
  {
    hide Step, Answers;
    if n > 0 {
      AnswersAreTheOutcome(cfg, states, actions, n - 1, o);
      StepAnswers(cfg, states[n - 1], actions[n - 1], states[n]);
    }
  }

  /** `commit` is refused at once, and queues nothing, exactly if the sink is not open, a segment is not complete or a
      flush has failed; and else it waits for the flusher. */
  lemma CommitIsRefused(cfg: Config, states: seq<Sink>, actions: seq<Action>, n: nat)
    requires cfg.Valid() && Run(cfg, states, actions) && n < |actions| && actions[n].DoCommit?
    ensures var (s, t) := (states[n], states[n + 1]);
            if s.ctl.phase == Open && (s.feed.writer.Some? ==> s.feed.completed)
               && !exists i :: 0 <= i < n && Fails(actions[i])
            then t.driver.CommitFlushing? && t.feed.queue == s.feed.queue + [None]
            else t == s.(driver := Stopped)
  {
    FlagsTell(cfg, states, actions, n);
    assert Step(cfg, states[n], actions[n], states[n + 1]);
    hide Run, Grounded;
  }
}
