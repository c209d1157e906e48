/** What the sink promises, over every run. */
module SinkTheorems {
  import opened Basics
  import opened SinkModel
  import opened SinkInvariant
  import opened SinkSteps
  import opened SinkHistory

  /** A state some run reaches. */
  ghost predicate Reachable(cfg: Config, s: Sink)
    requires cfg.Valid()
  {
    exists states, actions :: Run(cfg, states, actions) && s == states[|states| - 1]
  }

  lemma ReachableInv(cfg: Config, s: Sink)
    requires cfg.Valid() && Reachable(cfg, s)
    ensures Inv(cfg, s) && Grounded(s)
  {
    hide Inv;
    var states, actions :| Run(cfg, states, actions) && s == states[|states| - 1];
    RunKeeps(cfg, states, actions, |states| - 1);
    InvGrounded(cfg, s);
  }

  // ------------------------------------------------------------------------------------------------------
  // Hooks exclude one another
  // ------------------------------------------------------------------------------------------------------

  /** `discard_destination` is called at most once, never while `flush_segment` or `finalize_destination` runs and
      never for a finalized destination; `finalize_destination` is called at most once; all completed `abort` calls
      report the same outcome. */
  lemma HooksExclude(cfg: Config, s: Sink)
    requires cfg.Valid() && Reachable(cfg, s)
    ensures s.ctl.discards <= 1 && s.ctl.finalizes <= 1
    ensures s.ctl.aborter.Discarding? ==>
      !s.flusher.Flushing? && !s.flusher.Releasing? && !s.ctl.finalizer.Running? && !s.ctl.finalizer.Succeeded?
    ensures s.ctl.finalizer.Running? ==> !s.flusher.Flushing? && !s.ctl.aborter.Discarding? && s.ctl.discards == 0
    ensures s.ctl.finalizer.Succeeded? ==> s.ctl.discards == 0
    ensures forall o, o' :: o in s.ctl.reported && o' in s.ctl.reported ==> o == o'
  {
    hide Slots, Order, Contents, Blank, Reachable;
    ReachableInv(cfg, s);
  }

  /** What an abort that reports has seen to: a committed export is kept, a destination that was never created
      leaves nothing, any other one was discarded; and it says whether anything was ever written. */
  lemma AbortReports(cfg: Config, s: Sink, o: Outcome)
    requires cfg.Valid() && Reachable(cfg, s)
    requires o in s.ctl.reported
    ensures s.ctl.aborting
    ensures s.ctl.phase == Committed ==> o.kept && s.ctl.discards == 0
    ensures !s.ctl.creating ==> o == Outcome(false, false)
    ensures s.ctl.phase != Committed && s.ctl.creating ==> s.ctl.discards == 1
    ensures o.everWritten == s.ctl.everWritten
  {
    hide Slots, Order, Contents, Blank, Reachable;
    ReachableInv(cfg, s);
  }

  /** Once an abort has taken the state, no flush starts, nothing is finalized and nothing is written. */
  lemma AbortIsFinal(cfg: Config, s: Sink, a: Action, t: Sink)
    requires cfg.Valid() && Reachable(cfg, s) && Step(cfg, s, a, t)
    requires s.ctl.aborting
    ensures t.ctl.aborting && t.ctl.phase == s.ctl.phase
    ensures t.feed.flushes == s.feed.flushes && t.feed.sealed == s.feed.sealed
    ensures t.ctl.finalizes == s.ctl.finalizes && t.ctl.everWritten == s.ctl.everWritten
    ensures s.ctl.abortOutcome.Some? ==> t.ctl.abortOutcome == s.ctl.abortOutcome
  {
    hide Data, Reachable, Grounded, Patched, Zeros;
    ReachableInv(cfg, s);
    hide DiscardedOnce;
  }

  // ------------------------------------------------------------------------------------------------------
  // Boundedness, and nobody waits for ever
  // ------------------------------------------------------------------------------------------------------

  /** No more slots than the segments need, and no fewer unless the bound says so. */
  lemma SlotsFit(cfg: Config)
    requires cfg.Valid()
    ensures 1 <= cfg.Slots() <= cfg.maxBuffered && (cfg.Slots() - 1) * cfg.segmentSize <= cfg.size
    ensures cfg.Slots() == cfg.maxBuffered || cfg.Slots() * cfg.segmentSize >= cfg.size
  {
    var (n, d) := (cfg.size + cfg.segmentSize - 1, cfg.segmentSize);
    assert n == d * (n / d) + n % d;
    assert (n / d) * d == d * (n / d);
    var (slots, all) := (cfg.Slots(), n / d);
    if all >= 1 {
      assert slots <= all;
      assert (slots - 1) * d <= (all - 1) * d by { assert (all - slots) * d >= 0; }
    }
  }

  /** The segment being filled, those queued and the one being flushed are never more than the slots created. */
  lemma BuffersAreBounded(cfg: Config, s: Sink)
    requires cfg.Valid() && Reachable(cfg, s)
    ensures |Segments(s.feed.queue)| + (if s.flusher.Flushing? || s.flusher.Releasing? then 1 else 0)
              + (if Filling(s.feed) then 1 else 0) <= cfg.Slots()
    ensures 1 <= cfg.Slots() <= cfg.maxBuffered && (cfg.Slots() - 1) * cfg.segmentSize <= cfg.size
    ensures cfg.Slots() == cfg.maxBuffered || cfg.Slots() * cfg.segmentSize >= cfg.size
  {
    hide Order, Contents, Blank, Lifecycle, CommitStops, AbortStops, Parking, Deaths, Losses, Reachable;
    SlotsFit(cfg);
    ReachableInv(cfg, s);
    HeldIsBounded(cfg, s.pool, Segments(s.feed.queue), s.feed, s.flusher);
  }

  /** A step the sink's own flusher takes without being cancelled from outside. */
  predicate FlusherMoves(a: Action) {
    a.DoGet? || a.DoFlushReturn? || a.DoFlushRaise? || a.DoClear? || a.DoClearRaise?
  }

  predicate FlusherCanMove(s: Sink) {
    (s.flusher.Getting? && s.feed.queue != []) || s.flusher.Flushing? || s.flusher.Releasing?
  }

  /** A parked `begin_segment` that no notify has reached, in an export that has neither failed nor been aborted. */
  predicate WaitsForSlot(s: Sink) {
    s.driver.Parked? && !s.driver.woken && !s.ctl.failure && !s.ctl.aborting
  }

  /** No wake-up is lost: a parked `begin_segment` whose condition holds, for a failure, an abort or a free slot, has been
      woken. */
  lemma NoLostWakeUp(cfg: Config, s: Sink)
    requires cfg.Valid() && Reachable(cfg, s)
    requires s.driver.Parked? && (s.ctl.failure || s.ctl.aborting || s.pool.free != [])
    ensures s.driver.woken
  {
    hide Slots, Order, Contents, Blank, Lifecycle, CommitStops, AbortStops, Deaths, Losses, Reachable;
    ReachableInv(cfg, s);
  }

  /** A waiting `begin_segment` has a segment before it, queued or being flushed, unless the flusher was cancelled
      from outside. */
  lemma WaitingMeansWork(cfg: Config, s: Sink)
    requires cfg.Valid() && Reachable(cfg, s)
    requires WaitsForSlot(s)
    ensures !s.ctl.torn ==> FlusherCanMove(s) && (s.flusher.Getting? ==> s.feed.queue[0].Some?)
    ensures FlusherCanMove(s) <==> !s.flusher.Killed?
    ensures s.flusher.Killed? ==> s.ctl.torn
  {
    hide Order, Contents, Blank, FinalizedOnce, DiscardedOnce, OneOutcome, Reachable;
    ReachableInv(cfg, s);
    var segs := Segments(s.feed.queue);
    HeldIsBounded(cfg, s.pool, segs, s.feed, s.flusher);
    hide Slots;
  }

  function Rank(f: Flusher): nat {
    match f
    case Getting => 2
    case Flushing(_) => 1
    case _ => 0
  }

  /** One move of the flusher wakes the waiting `begin_segment` or brings the flusher closer to that. */
  lemma FlusherHelps(cfg: Config, s: Sink, a: Action, t: Sink)
    requires cfg.Valid() && Reachable(cfg, s) && Step(cfg, s, a, t)
    requires WaitsForSlot(s) && FlusherMoves(a)
    ensures (t.driver.Parked? && t.driver.woken && MayGoOn(t)) || (WaitsForSlot(t) && Rank(t.flusher) < Rank(s.flusher))
  {
    hide Contents, Blank, Order, Reachable, Zeros, Slots;
    WaitingMeansWork(cfg, s);
  }

  /** While it waits, nothing takes the flusher back. */
  lemma RankFalls(cfg: Config, s: Sink, a: Action, t: Sink)
    requires cfg.Valid() && Reachable(cfg, s) && Step(cfg, s, a, t)
    requires WaitsForSlot(s) && WaitsForSlot(t)
    ensures Rank(t.flusher) + (if FlusherMoves(a) then 1 else 0) <= Rank(s.flusher)
  {
    hide Grounded, Write, Complete, Commit, Cleared, Reachable;
    if FlusherMoves(a) { FlusherHelps(cfg, s, a, t); }
  }

  /** How many of the actions from the `n`-th to before the `m`-th are the flusher's. */
  function Moves(actions: seq<Action>, n: nat, m: nat): nat
    requires n <= m <= |actions|
  {
    if m == n then 0 else Moves(actions, n, m - 1) + if FlusherMoves(actions[m - 1]) then 1 else 0
  }

  lemma {:induction false} RanksFall(cfg: Config, states: seq<Sink>, actions: seq<Action>, n: nat, m: nat)
    requires cfg.Valid() && Run(cfg, states, actions) && n <= m < |states|
    requires forall i :: n <= i <= m ==> WaitsForSlot(states[i])
    ensures Moves(actions, n, m) + Rank(states[m].flusher) <= Rank(states[n].flusher)
  {
    hide Step, WaitsForSlot, Reachable;
    if m > n {
      RanksFall(cfg, states, actions, n, m - 1);
      PrefixReaches(cfg, states, actions, m - 1);
      RankFalls(cfg, states[m - 1], actions[m - 1], states[m]);
    }
  }

  lemma PrefixReaches(cfg: Config, states: seq<Sink>, actions: seq<Action>, n: nat)
    requires cfg.Valid() && Run(cfg, states, actions) && n < |states|
    ensures Reachable(cfg, states[n])
  {
    hide Step, Initial;
    assert Run(cfg, states[..n + 1], actions[..n]);
    assert states[..n + 1][|states[..n + 1]| - 1] == states[n];
  }

  lemma {:induction false} FirstEnd(states: seq<Sink>, n: nat, m: nat) returns (i: nat)
    requires n < m < |states| && WaitsForSlot(states[n])
    requires exists j :: n <= j <= m && !WaitsForSlot(states[j])
    ensures n < i <= m && !WaitsForSlot(states[i]) && forall j :: n <= j < i ==> WaitsForSlot(states[j])
  {
    hide WaitsForSlot;
    i := n;
    while WaitsForSlot(states[i])
      invariant n <= i <= m && forall j :: n <= j < i ==> WaitsForSlot(states[j])
      decreases m - i
    {
      i := i + 1;
    }
  }

  /** The wait ends within three moves of the flusher, whatever else happens between them; if a move of the flusher ends
      it, the waiting `begin_segment` is woken and can go on. */
  lemma WokenWithinThreeMoves(cfg: Config, states: seq<Sink>, actions: seq<Action>, n: nat, m: nat)
    requires cfg.Valid() && Run(cfg, states, actions) && n <= m < |states|
    requires WaitsForSlot(states[n]) && Moves(actions, n, m) >= 3
    ensures exists i :: n < i <= m && !WaitsForSlot(states[i]) && (forall j :: n <= j < i ==> WaitsForSlot(states[j]))
                        && (FlusherMoves(actions[i - 1]) ==>
                              states[i].driver.Parked? && states[i].driver.woken && MayGoOn(states[i]))
  {
    hide Step, Reachable, WaitsForSlot, MayGoOn;
    if forall j :: n <= j <= m ==> WaitsForSlot(states[j]) {
      RanksFall(cfg, states, actions, n, m);
      assert false;
    }
    var i := FirstEnd(states, n, m);
    if FlusherMoves(actions[i - 1]) {
      PrefixReaches(cfg, states, actions, i - 1);
      FlusherHelps(cfg, states[i - 1], actions[i - 1], states[i]);
    }
  }

  /** What the flusher still has to do. */
  function Work(s: Sink): nat {
    3 * |s.feed.queue| + if s.flusher.Flushing? then 2 else if s.flusher.Releasing? then 1 else 0
  }

  /** A `commit` or an abort waiting for the flusher to end does not wait in vain: while it has not ended it can
      move, and every move leaves it less to do. */
  lemma FlusherEnds(cfg: Config, s: Sink)
    requires cfg.Valid() && Reachable(cfg, s)
    requires s.driver.CommitFlushing? || s.ctl.aborter.WaitingFlusher?
    ensures FlusherDone(s.flusher) || FlusherCanMove(s)
    ensures forall a, t :: FlusherMoves(a) && Step(cfg, s, a, t) ==> Work(t) < Work(s)
  {
    hide Contents, Blank, Order, Reachable, Zeros, Slots;
    ReachableInv(cfg, s);
    hide FinalizedOnce, OneOutcome, Deaths, Losses, Parking, Grounded;
  }

  /** How far the abort task has to go. */
  function Stages(a: Aborter): nat {
    match a
    case NoTask => 6
    case Scheduled => 5
    case WaitingFinalizer => 4
    case WaitingFlusher(_) => 3
    case ClosingPool(_) => 2
    case Discarding(_) => 1
    case _ => 0
  }

  /** A step the abort task takes. */
  predicate AbortMoves(a: Action) {
    a.DoAbortStart? || a.DoAbortFinalized? || a.DoAbortFlushed? || a.DoAbortClosed? || a.DoDiscard?
  }

  /** Once called, an abort goes on to its outcome: while it has none its task can move, or waits for a finalizer or a
      flusher that can; every move of the task brings it nearer, and no other step takes it back. */
  lemma AbortsEnd(cfg: Config, s: Sink)
    requires cfg.Valid() && Reachable(cfg, s) && !s.ctl.aborter.NoTask?
    ensures s.ctl.abortOutcome.Some? || (exists a :: AbortMoves(a) && Enabled(a, s))
            || (s.ctl.aborter.WaitingFinalizer? && s.ctl.finalizer.Running?)
            || (s.ctl.aborter.WaitingFlusher? && FlusherCanMove(s))
    ensures forall a, t :: Step(cfg, s, a, t) ==>
              if AbortMoves(a) then Stages(t.ctl.aborter) < Stages(s.ctl.aborter)
              else Stages(t.ctl.aborter) == Stages(s.ctl.aborter)
  {
    hide Reachable, Step, Inv, Grounded, FlusherCanMove, Stages, AbortMoves, Enabled;
    if s.ctl.aborter.WaitingFlusher? { FlusherEnds(cfg, s); }
    ReachableInv(cfg, s);
    AbortHasStage(cfg, s);
    if s.ctl.abortOutcome.None? { AbortCanMove(s); }
    forall a, t | Step(cfg, s, a, t)
      ensures if AbortMoves(a) then Stages(t.ctl.aborter) < Stages(s.ctl.aborter)
              else Stages(t.ctl.aborter) == Stages(s.ctl.aborter)
    {
      AbortStages(cfg, s, a, t);
    }
  }

  lemma AbortCanMove(s: Sink)
    requires !s.ctl.aborter.NoTask? && !s.ctl.aborter.Finished? && !s.ctl.aborter.Raised?
    requires s.ctl.aborter.WaitingFinalizer? ==> s.ctl.finalizer != NotYet
    requires s.ctl.aborter.WaitingFlusher? ==> FlusherDone(s.flusher) || FlusherCanMove(s)
    ensures (exists a :: AbortMoves(a) && Enabled(a, s))
            || (s.ctl.aborter.WaitingFinalizer? && s.ctl.finalizer.Running?)
            || (s.ctl.aborter.WaitingFlusher? && FlusherCanMove(s))
  {
    hide FlusherCanMove;
    if s.ctl.aborter.Scheduled? { assert AbortMoves(DoAbortStart) && Enabled(DoAbortStart, s); }
    if s.ctl.aborter.WaitingFinalizer? && FinalizerDone(s.ctl.finalizer) {
      assert AbortMoves(DoAbortFinalized) && Enabled(DoAbortFinalized, s);
    }
    if s.ctl.aborter.WaitingFlusher? && FlusherDone(s.flusher) {
      assert AbortMoves(DoAbortFlushed) && Enabled(DoAbortFlushed, s);
    }
    if s.ctl.aborter.ClosingPool? { assert AbortMoves(DoAbortClosed) && Enabled(DoAbortClosed, s); }
    if s.ctl.aborter.Discarding? { assert AbortMoves(DoDiscard(None)) && Enabled(DoDiscard(None), s); }
  }

  lemma AbortHasStage(cfg: Config, s: Sink)
    requires cfg.Valid() && Inv(cfg, s)
    ensures s.ctl.aborter.Finished? || s.ctl.aborter.Raised? ==> s.ctl.abortOutcome.Some?
    ensures s.ctl.aborter.WaitingFinalizer? ==> s.ctl.finalizer != NotYet
  {
    hide Data, Phases, DiscardedOnce;
  }

  lemma AbortTakesOn(cfg: Config, s: Sink, a: Action, t: Sink)
    requires Step(cfg, s, a, t) && (a.DoAbortStart? || a.DoAbortFinalized?)
    ensures Stages(t.ctl.aborter) < Stages(s.ctl.aborter)
  {
    hide Grounded, Begin, BeginWoken, Write, Complete, Get, FlushReturned, FlushRaised, Cleared, ClearRaised,
      FlusherCancelled, Commit, CommitFlushed, FinalizeDone, AbortCalled, Notified, AbortPoolClosed, DiscardDone;
  }

  lemma AbortMovesOn(cfg: Config, s: Sink, a: Action, t: Sink)
    requires Step(cfg, s, a, t) && (a.DoAbortFlushed? || a.DoAbortClosed? || a.DoDiscard?)
    ensures Stages(t.ctl.aborter) < Stages(s.ctl.aborter)
  {
    hide Grounded, Begin, BeginWoken, Write, Complete, Get, FlushReturned, FlushRaised, Cleared, ClearRaised,
      FlusherCancelled, Commit, CommitFlushed, FinalizeDone, AbortCalled, Notified, AbortTakes, AbortStarts;
  }

  lemma OthersLeaveAbort(cfg: Config, s: Sink, a: Action, t: Sink)
    requires Step(cfg, s, a, t) && !AbortMoves(a) && !s.ctl.aborter.NoTask?
    ensures t.ctl.aborter == s.ctl.aborter
  {
    hide Grounded, Begin, BeginWoken, Write, Complete, Get, FlushReturned, FlushRaised, Cleared, AbortTakes, AbortStarts,
      AbortPoolClosed, DiscardDone;
  }

  lemma AbortStages(cfg: Config, s: Sink, a: Action, t: Sink)
    requires Step(cfg, s, a, t) && !s.ctl.aborter.NoTask?
    ensures if AbortMoves(a) then Stages(t.ctl.aborter) < Stages(s.ctl.aborter)
            else Stages(t.ctl.aborter) == Stages(s.ctl.aborter)
  {
    hide Step, Stages;
    if a.DoAbortStart? || a.DoAbortFinalized? {
      AbortTakesOn(cfg, s, a, t);
    } else if AbortMoves(a) {
      AbortMovesOn(cfg, s, a, t);
    } else {
      OthersLeaveAbort(cfg, s, a, t);
    }
  }

  lemma {:induction false} RunsExtend(cfg: Config, states: seq<Sink>, actions: seq<Action>, a: Action)
    requires cfg.Valid() && Run(cfg, states, actions)
    requires Enabled(a, states[|states| - 1])
    ensures Grounded(states[|states| - 1])
    ensures Run(cfg, states + [Apply(cfg, a, states[|states| - 1])], actions + [a])
  {
    hide Inv, Grounded, Enabled, Apply;
    var s := states[|states| - 1];
    RunKeeps(cfg, states, actions, |states| - 1);
    InvGrounded(cfg, s);
    var states', actions' := states + [Apply(cfg, a, s)], actions + [a];
    forall i | 0 <= i < |actions'| ensures Step(cfg, states'[i], actions'[i], states'[i + 1]) {
      if i < |actions| { assert Step(cfg, states[i], actions[i], states[i + 1]); }
    }
  }

  lemma ReachNext(cfg: Config, s: Sink, a: Action) returns (t: Sink)
    requires cfg.Valid() && Reachable(cfg, s) && Enabled(a, s)
    ensures Grounded(s) && t == Apply(cfg, a, s) && Reachable(cfg, t)
  {
    hide Apply, Enabled, Grounded;
    var states, actions :| Run(cfg, states, actions) && s == states[|states| - 1];
    RunsExtend(cfg, states, actions, a);
    t := Apply(cfg, a, s);
    assert (states + [t])[|states + [t]| - 1] == t;
  }

  lemma ReachStart(cfg: Config, s: Sink)
    requires cfg.Valid() && Initial(cfg, s)
    ensures Reachable(cfg, s)
  {
    assert Run(cfg, [s], []);
    assert s == [s][|[s]| - 1];
  }

  /** The one way to wait for ever: with the flusher cancelled from outside, a parked `begin_segment` is left with
      nothing but its own cancellation or an abort. */
  lemma CancelledFlusherStrands() returns (cfg: Config, s: Sink)
    ensures cfg.Valid() && Reachable(cfg, s) && WaitsForSlot(s)
    ensures forall a :: Enabled(a, s) ==> a.DoCancelCall? || a.DoAbortCall?
  {
    cfg := Config(4096, 1, 8192);
    s := Fresh(cfg, Open, true, Getting);
    ReachStart(cfg, s);
    s := ReachNext(cfg, s, DoCancelFlusher);
    s := ReachNext(cfg, s, DoBegin(0, 0, 4096));
    s := ReachNext(cfg, s, DoComplete);
    s := ReachNext(cfg, s, DoBegin(1, 4096, 4096));
  }

  // ------------------------------------------------------------------------------------------------------
  // The bytes
  // ------------------------------------------------------------------------------------------------------

  /** `flush_segment` is called for segments 0, 1, 2, ... in order, each once, each with the bytes its writer left. */
  lemma FlushedInOrder(cfg: Config, s: Sink)
    requires cfg.Valid() && Reachable(cfg, s)
    ensures |s.feed.flushes| <= |s.feed.sealed|
    ensures forall i :: 0 <= i < |s.feed.flushes| ==>
              s.feed.flushes[i] == FlushCall(i, i * cfg.segmentSize, s.feed.sealed[i])
  {
    hide Contents, Blank, Slots, Reachable, Lifecycle;
    ReachableInv(cfg, s);
  }

  /** Every segment that was begun was completed and flushed, and every flush returned. */
  predicate AllFlushed(s: Sink) {
    && s.flusher.Ended? && !s.ctl.failure && !Filling(s.feed) && CommitCalled(s.driver)
    && |s.feed.flushes| == |s.feed.sealed| == s.feed.nextIndex
  }

  lemma AllFlushedStep(cfg: Config, s: Sink, a: Action, t: Sink)
    requires cfg.Valid() && Step(cfg, s, a, t) && Inv(cfg, s)
    requires s.ctl.finalizer != NotYet ==> AllFlushed(s)
    ensures t.ctl.finalizer != NotYet ==> AllFlushed(t)
  {
    hide Contents, Blank, Slots, DiscardedOnce, OneOutcome, Grounded, Parking, Patched, Zeros;
    if a.DoCommitFlushed? && t.ctl.finalizer != NotYet {
      assert s.feed.queue == [] && Segments(s.feed.queue) == [];
    }
  }

  /** The destination is finalized only after that. */
  lemma {:induction false} FinalizedAfterAll(cfg: Config, states: seq<Sink>, actions: seq<Action>, n: nat)
    requires cfg.Valid() && Run(cfg, states, actions) && n < |states|
    requires states[n].ctl.finalizer != NotYet
    ensures AllFlushed(states[n])
  {
    hide Inv, AllFlushed, Step, Initial;
    if n == 0 {
      NotFinalizedAtStart(cfg, states[0]);
    } else {
      RunKeeps(cfg, states, actions, n - 1);
      if states[n - 1].ctl.finalizer != NotYet { FinalizedAfterAll(cfg, states, actions, n - 1); }
      AllFlushedStep(cfg, states[n - 1], actions[n - 1], states[n]);
    }
  }

  lemma NotFinalizedAtStart(cfg: Config, s: Sink)
    requires cfg.Valid() && Initial(cfg, s)
    ensures s.ctl.finalizer == NotYet
  {
  }

  // ------------------------------------------------------------------------------------------------------
  // An export of some content
  // ------------------------------------------------------------------------------------------------------

  /** The bytes of `content` that segment `i` covers. */
  function Slice(cfg: Config, content: Bytes, i: nat): Bytes
    requires |content| == cfg.size
    requires 0 <= ExpectedLength(cfg, i)
  {
    content[i * cfg.segmentSize..i * cfg.segmentSize + ExpectedLength(cfg, i)]
  }

  /** `a`, the `i`-th action, writes nothing but `content`'s bytes; and if it completes a segment, what no write has reached
      is zero in the content. */
  ghost predicate KeepsWordAt(cfg: Config, content: Bytes, states: seq<Sink>, actions: seq<Action>, i: nat)
    requires |content| == cfg.size && i < |actions| < |states|
  {
    && (forall j: nat, p: nat :: Covers(states[i], actions[i], j, p) && j * cfg.segmentSize + p < |content| ==>
          actions[i].data[p - actions[i].offset] == content[j * cfg.segmentSize + p])
    && (forall j: nat, p: nat :: Completes(states[i], actions[i], j) && j * cfg.segmentSize + p < |content|
                                 && p < cfg.segmentSize && LastByte(states, actions, i, j, p).None? ==>
          content[j * cfg.segmentSize + p] == 0)
  }

  /** What an export of `content` does to the sink when the content keeps its word. */
  ghost predicate KeepsWord(cfg: Config, content: Bytes, states: seq<Sink>, actions: seq<Action>)
    requires |content| == cfg.size && |actions| < |states|
  {
    forall i :: 0 <= i < |actions| ==> KeepsWordAt(cfg, content, states, actions, i)
  }

  /** And it commits after the last segment, as `DrivenExport.DriverIsFaithful` shows of the driver. */
  ghost predicate FaithfulRun(cfg: Config, content: Bytes, states: seq<Sink>, actions: seq<Action>)
    requires cfg.Valid() && |content| == cfg.size
  {
    && Run(cfg, states, actions) && KeepsWord(cfg, content, states, actions)
    && forall i :: 0 <= i < |actions| && actions[i].DoCommit? ==> states[i].feed.nextIndex == cfg.Segments()
  }

  lemma {:induction false} LastByteIsContent(cfg: Config, content: Bytes, states: seq<Sink>, actions: seq<Action>, n: nat,
                                             j: nat, p: nat)
    requires |content| == cfg.size && n <= |actions| < |states| && KeepsWord(cfg, content, states, actions)
    requires LastByte(states, actions, n, j, p).Some? && j * cfg.segmentSize + p < |content|
    ensures LastByte(states, actions, n, j, p) == Some(content[j * cfg.segmentSize + p])
  {
    hide Covers;
    assert KeepsWordAt(cfg, content, states, actions, n - 1);
    if !Covers(states[n - 1], actions[n - 1], j, p) {
      LastByteIsContent(cfg, content, states, actions, n - 1, j, p);
    }
  }

  lemma StepSeals(cfg: Config, s: Sink, a: Action, t: Sink)
    requires cfg.Valid() && Step(cfg, s, a, t) && Inv(cfg, s)
    ensures |s.feed.sealed| <= |t.feed.sealed| <= |s.feed.sealed| + 1
    ensures |t.feed.sealed| > |s.feed.sealed| ==> Completes(s, a, |s.feed.sealed|)
  {
    hide Lifecycle, Slots, Contents, Blank, CommitStops, AbortStops, Parking, Deaths, Losses, Grounded;
  }

  /** A sealed segment was completed, and nothing has written to it since. */
  lemma {:induction false} CompletedAt(cfg: Config, states: seq<Sink>, actions: seq<Action>, n: nat, j: nat)
    returns (i: nat)
    requires cfg.Valid() && Run(cfg, states, actions) && n < |states| && j < |states[n].feed.sealed|
    ensures i < n && Completes(states[i], actions[i], j)
    ensures forall p: nat :: LastByte(states, actions, n, j, p) == LastByte(states, actions, i, j, p)
  {
    hide Inv, Step, Completes, Covers;
    if n == 0 {
      NothingSealed(cfg, states[0]);
    } else {
      RunKeeps(cfg, states, actions, n - 1);
      StepSeals(cfg, states[n - 1], actions[n - 1], states[n]);
      if j < |states[n - 1].feed.sealed| {
        i := CompletedAt(cfg, states, actions, n - 1, j);
        forall p: nat ensures LastByte(states, actions, n, j, p) == LastByte(states, actions, i, j, p) {
          SealedStays(cfg, states[n - 1], actions[n - 1], j, p);
        }
      } else {
        i := n - 1;
        forall p: nat ensures LastByte(states, actions, n, j, p) == LastByte(states, actions, i, j, p) {
          CompletingWritesNothing(states[n - 1], actions[n - 1], j, p);
        }
      }
    }
  }

  lemma NothingSealed(cfg: Config, s: Sink)
    requires cfg.Valid() && Initial(cfg, s)
    ensures s.feed.sealed == []
  {
  }

  lemma CompletingWritesNothing(s: Sink, a: Action, j: nat, p: nat)
    ensures Completes(s, a, j) ==> !Covers(s, a, j, p)
  {
  }

  lemma SealedFits(cfg: Config, s: Sink, j: nat)
    requires cfg.Valid() && Inv(cfg, s) && j < |s.feed.sealed|
    ensures |s.feed.sealed[j]| == ExpectedLength(cfg, j)
  {
    hide Lifecycle, Slots, Contents, Blank, CommitStops, AbortStops, Parking, Deaths, Losses;
  }

  lemma SealedByteIsContent(cfg: Config, content: Bytes, states: seq<Sink>, actions: seq<Action>, n: nat, j: nat, i: nat,
                            p: nat)
    requires cfg.Valid() && |content| == cfg.size && n < |states| == |actions| + 1 && j < |states[n].feed.sealed|
    requires Run(cfg, states, actions) && KeepsWord(cfg, content, states, actions)
    requires p < |states[n].feed.sealed[j]| && p < cfg.segmentSize && j * cfg.segmentSize + p < |content|
    requires i < n && Completes(states[i], actions[i], j)
    requires LastByte(states, actions, n, j, p) == LastByte(states, actions, i, j, p)
    ensures states[n].feed.sealed[j][p] == content[j * cfg.segmentSize + p]
  {
    hide Run, LastByte, Completes, Covers, KeepsWord;
    SealedIsWritten(cfg, states, actions, n, j, p);
    if LastByte(states, actions, n, j, p).Some? {
      LastByteIsContent(cfg, content, states, actions, n, j, p);
    } else {
      KeptAt(cfg, content, states, actions, i);
    }
  }

  /** Every sealed segment is the content's slice. */
  lemma SealedIsSlice(cfg: Config, content: Bytes, states: seq<Sink>, actions: seq<Action>, n: nat, j: nat)
    requires cfg.Valid() && |content| == cfg.size && n < |states| && j < |states[n].feed.sealed|
    requires Run(cfg, states, actions) && KeepsWord(cfg, content, states, actions)
    ensures 0 < ExpectedLength(cfg, j) && states[n].feed.sealed[j] == Slice(cfg, content, j)
  {
    assert |states| == |actions| + 1;
    hide Run, KeepsWord, LastByte, Completes, Covers, Inv, Slice, ExpectedLength;
    RunKeeps(cfg, states, actions, n);
    SealedFits(cfg, states[n], j);
    var i := CompletedAt(cfg, states, actions, n, j);
    RunKeeps(cfg, states, actions, i);
    CompletedIsSegment(cfg, states[i], actions[i], j);
    var bytes := states[n].feed.sealed[j];
    WithinContent(cfg, j);
    forall p: nat | p < |bytes| ensures bytes[p] == content[j * cfg.segmentSize + p] {
      SealedByteIsContent(cfg, content, states, actions, n, j, i, p);
    }
    IsSlice(cfg, content, j, bytes);
  }

  lemma WithinContent(cfg: Config, j: nat)
    requires cfg.Valid() && 0 < ExpectedLength(cfg, j)
    ensures ExpectedLength(cfg, j) <= cfg.segmentSize && j * cfg.segmentSize + ExpectedLength(cfg, j) <= cfg.size
  {
  }

  lemma IsSlice(cfg: Config, content: Bytes, j: nat, bytes: Bytes)
    requires cfg.Valid() && |content| == cfg.size && |bytes| == ExpectedLength(cfg, j) > 0
    requires forall p: nat :: p < |bytes| && j * cfg.segmentSize + p < |content| ==>
               bytes[p] == content[j * cfg.segmentSize + p]
    ensures bytes == Slice(cfg, content, j)
  {
    var slice := Slice(cfg, content, j);
    assert forall p: nat :: p < |bytes| ==> slice[p] == content[j * cfg.segmentSize + p];
  }

  lemma CompletedIsSegment(cfg: Config, s: Sink, a: Action, j: nat)
    requires cfg.Valid() && Inv(cfg, s) && Completes(s, a, j)
    ensures 0 < ExpectedLength(cfg, j)
  {
    hide Lifecycle, Slots, Contents, Blank, CommitStops, AbortStops, Parking, Deaths, Losses;
  }

  lemma KeptAt(cfg: Config, content: Bytes, states: seq<Sink>, actions: seq<Action>, i: nat)
    requires |content| == cfg.size && i < |actions| < |states| && KeepsWord(cfg, content, states, actions)
    ensures KeepsWordAt(cfg, content, states, actions, i)
  {
  }

  lemma CommitAfterLast(cfg: Config, s: Sink, a: Action, t: Sink)
    requires cfg.Valid() && Step(cfg, s, a, t) && (a.DoCommit? ==> s.feed.nextIndex == cfg.Segments())
    requires CommitCalled(s.driver) ==> s.feed.nextIndex == cfg.Segments()
    ensures CommitCalled(t.driver) ==> t.feed.nextIndex == cfg.Segments()
  {
    hide Grounded, Patched, Zeros;
  }

  lemma {:induction false} CommitsAfterLast(cfg: Config, content: Bytes, states: seq<Sink>, actions: seq<Action>, n: nat)
    requires cfg.Valid() && |content| == cfg.size && FaithfulRun(cfg, content, states, actions)
    requires n < |states|
    ensures CommitCalled(states[n].driver) ==> states[n].feed.nextIndex == cfg.Segments()
  {
    hide Step, KeepsWord, CommitCalled, Initial;
    if n == 0 {
      NoCommitYet(cfg, states[0]);
    } else {
      CommitsAfterLast(cfg, content, states, actions, n - 1);
      CommitAfterLast(cfg, states[n - 1], actions[n - 1], states[n]);
    }
  }

  lemma NoCommitYet(cfg: Config, s: Sink)
    requires cfg.Valid() && Initial(cfg, s)
    ensures !CommitCalled(s.driver)
  {
  }

  function Flatten(calls: seq<FlushCall>): Bytes {
    if calls == [] then [] else Flatten(calls[..|calls| - 1]) + calls[|calls| - 1].bytes
  }

  /** Where the first `k` segments end. */
  function EndOf(cfg: Config, k: nat): nat {
    if k * cfg.segmentSize < cfg.size then k * cfg.segmentSize else cfg.size
  }

  lemma SliceJoins(cfg: Config, content: Bytes, k: nat)
    requires cfg.Valid() && |content| == cfg.size
    requires 0 < ExpectedLength(cfg, k)
    ensures content[..EndOf(cfg, k)] + Slice(cfg, content, k) == content[..EndOf(cfg, k + 1)]
  {
    var lo, hi := k * cfg.segmentSize, (k + 1) * cfg.segmentSize;
    assert hi == lo + cfg.segmentSize;
    assert EndOf(cfg, k) == lo;
    assert content[..lo] + content[lo..EndOf(cfg, k + 1)] == content[..EndOf(cfg, k + 1)];
  }

  /** The slices of the content, one after another, are the content. */
  lemma {:induction false} SlicesJoin(cfg: Config, content: Bytes, calls: seq<FlushCall>, k: nat)
    requires cfg.Valid() && |content| == cfg.size && k <= |calls|
    requires forall i :: 0 <= i < |calls| ==> 0 < ExpectedLength(cfg, i) && calls[i].bytes == Slice(cfg, content, i)
    ensures EndOf(cfg, k) <= |content| && Flatten(calls[..k]) == content[..EndOf(cfg, k)]
  {
    hide ExpectedLength, Slice;
    if k > 0 {
      SlicesJoin(cfg, content, calls, k - 1);
      hide EndOf;
      assert calls[..k][..k - 1] == calls[..k - 1];
      assert calls[..k][k - 1] == calls[k - 1];
      SliceJoins(cfg, content, k - 1);
    }
  }

  lemma SegmentsCover(cfg: Config)
    requires cfg.Valid()
    ensures cfg.Segments() * cfg.segmentSize >= cfg.size
  {
    var n, d := cfg.size + cfg.segmentSize - 1, cfg.segmentSize;
    assert n == d * (n / d) + n % d;
    assert (n / d) * d == d * (n / d);
  }

  /** A committed export of a faithful caller is the content: the destination is finalized only once `flush_segment` was called for
      segments 0, 1, 2, ... up to the last, each once, and the bytes it was given, joined, are `content`. */
  lemma CommittedIsContent(cfg: Config, content: Bytes, states: seq<Sink>, actions: seq<Action>, n: nat)
    requires cfg.Valid() && |content| == cfg.size && FaithfulRun(cfg, content, states, actions)
    requires n < |states| && states[n].ctl.finalizer != NotYet
    ensures |states[n].feed.flushes| == cfg.Segments()
    ensures forall i :: 0 <= i < cfg.Segments() ==>
              0 < ExpectedLength(cfg, i)
              && states[n].feed.flushes[i] == FlushCall(i, i * cfg.segmentSize, Slice(cfg, content, i))
    ensures Flatten(states[n].feed.flushes) == content
  {
    hide Inv, Step, KeepsWord, ExpectedLength, Slice, LastByte;
    var s := states[n];
    CommitsAfterLast(cfg, content, states, actions, n);
    FinalizedAfterAll(cfg, states, actions, n);
    RunKeeps(cfg, states, actions, n);
    FlushedAreSealed(cfg, s);
    forall i | 0 <= i < |s.feed.flushes|
      ensures 0 < ExpectedLength(cfg, i)
              && s.feed.flushes[i] == FlushCall(i, i * cfg.segmentSize, Slice(cfg, content, i))
    {
      SealedIsSlice(cfg, content, states, actions, n, i);
    }
    SlicesJoin(cfg, content, s.feed.flushes, |s.feed.flushes|);
    assert s.feed.flushes[..|s.feed.flushes|] == s.feed.flushes;
    SegmentsCover(cfg);
  }

  lemma FlushedAreSealed(cfg: Config, s: Sink)
    requires cfg.Valid() && Inv(cfg, s)
    ensures |s.feed.flushes| <= |s.feed.sealed|
    ensures forall i :: 0 <= i < |s.feed.flushes| ==>
              s.feed.flushes[i] == FlushCall(i, i * cfg.segmentSize, s.feed.sealed[i])
  {
    hide Contents, Blank, Slots, Lifecycle, CommitStops, AbortStops, Parking, Deaths, Losses;
    hide ExpectedLength, Segments, IsSegment;
  }

  /** A `commit` that returned finalized the destination, so the same holds of it; and `abort` can only confirm it. */
  lemma ReturnedMeansFinalized(cfg: Config, s: Sink)
    requires cfg.Valid() && Reachable(cfg, s)
    requires s.driver == Returned
    ensures s.ctl.finalizer == Succeeded && s.ctl.phase == Committed && s.ctl.discards == 0
  {
    hide Slots, Order, Contents, Blank, Reachable;
    ReachableInv(cfg, s);
  }
}
