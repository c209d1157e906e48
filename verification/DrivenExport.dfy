/** `run_export` into a segmented sink (sdk/api/export.py, sdk/dedup/export_sink.py): the driver's loop over the ranges of
    the export, composed with the sink's machine and whatever else moves it. */
module DrivenExport {
  import opened Basics
  import opened SinkModel
  import opened SinkInvariant
  import opened SinkSteps
  import opened SinkHistory
  import opened SinkTheorems
  import ExportDriver

  /** Where the loop is: before range `next`, waiting in its `begin_segment`, writing it, in `commit`, or out of the
      export, on its way to `abort`. */
  datatype Place = Before(next: nat) | Waiting(next: nat) | Writing(next: nat) | Committing | Left

  /** The ranges of `_export_segments`, as `ExportDriver.SegmentRanges` finds them. */
  predicate IsRanges(cfg: Config, ranges: seq<(nat, nat)>)
    requires cfg.Valid()
  {
    |ranges| == cfg.Segments() && forall i :: 0 <= i < |ranges| ==> ExportDriver.IsRange(cfg, ranges[i], i)
  }

  /** What the loop calls from where it is; the other parties move as they like. */
  predicate Follows(ranges: seq<(nat, nat)>, p: Place, a: Action) {
    match a
    case DoBegin(index, start, length) =>
      p.Before? && p.next < |ranges| && index == p.next && start == ranges[p.next].0
      && length == ranges[p.next].1 as int - ranges[p.next].0
    case DoWrite(_, _) => p.Writing?
    case DoComplete => p.Writing?
    case DoCommit => p == Before(|ranges|)
    case _ => true
  }

  /** A `begin_segment` that took a step: it waits, returned a writer, or raised. */
  function Begun(next: nat, s: Sink, t: Sink): Place {
    if t.driver.Parked? then Waiting(next) else if t.feed.nextIndex > s.feed.nextIndex then Writing(next) else Left
  }

  /** Where the loop is after a step; what raises ends it. */
  function Advance(p: Place, s: Sink, a: Action, t: Sink): Place {
    match a
    case DoBegin(_, _, _) => if p.Before? then Begun(p.next, s, t) else Left
    case DoWake => if p.Waiting? then Begun(p.next, s, t) else Left
    case DoComplete => if p.Writing? && WriteAccepted(s, 0, 0) then Before(p.next + 1) else Left
    case DoCommit => Committing
    case DoCancelCall => Left
    case _ => p
  }

  /** A run of the sink in which `content` is exported into it, from the moment `open` returned. */
  ghost predicate DrivenRun(cfg: Config, content: Bytes, ranges: seq<(nat, nat)>, states: seq<Sink>,
                            actions: seq<Action>, places: seq<Place>)
    requires cfg.Valid() && |content| == cfg.size
  {
    && Run(cfg, states, actions) && KeepsWord(cfg, content, states, actions) && IsRanges(cfg, ranges)
    && |places| == |states| && places[0] == (if states[0].ctl.phase == Open then Before(0) else Left)
    && forall i :: 0 <= i < |actions| ==>
         && Follows(ranges, places[i], actions[i])
         && places[i + 1] == Advance(places[i], states[i], actions[i], states[i + 1])
  }

  /** Before range `i` the sink has begun `i` segments and completed them all; inside it, one more. */
  predicate Linked(p: Place, s: Sink) {
    match p
    case Before(i) => s.driver.Idle? && s.feed.nextIndex == i && !Filling(s.feed)
    case Waiting(i) => s.driver.Parked? && s.driver.index == i && s.feed.nextIndex == i
    case Writing(i) => s.driver.Idle? && s.feed.nextIndex == i + 1 && Filling(s.feed)
    case _ => true
  }

  lemma DriverStepLinks(cfg: Config, ranges: seq<(nat, nat)>, p: Place, s: Sink, a: Action, t: Sink)
    requires cfg.Valid() && Step(cfg, s, a, t) && Follows(ranges, p, a) && Linked(p, s)
    ensures Linked(Advance(p, s, a, t), t)
  {
    hide Grounded;
  }

  lemma {:induction false} RunLinks(cfg: Config, content: Bytes, ranges: seq<(nat, nat)>, states: seq<Sink>,
                                    actions: seq<Action>, places: seq<Place>, n: nat)
    requires cfg.Valid() && |content| == cfg.size && DrivenRun(cfg, content, ranges, states, actions, places)
    requires n < |states|
    ensures Linked(places[n], states[n])
  {
    hide Step, KeepsWord, Follows, Advance;
    if n > 0 {
      RunLinks(cfg, content, ranges, states, actions, places, n - 1);
      DriverStepLinks(cfg, ranges, places[n - 1], states[n - 1], actions[n - 1], states[n]);
    }
  }

  /** The driver's every `begin_segment` passes the sink's checks as long as the sink is open: it can only be refused for
      a failed flush or an abort. */
  lemma BeginsAreAccepted(cfg: Config, content: Bytes, ranges: seq<(nat, nat)>, states: seq<Sink>, actions: seq<Action>,
                          places: seq<Place>, n: nat)
    requires cfg.Valid() && |content| == cfg.size && DrivenRun(cfg, content, ranges, states, actions, places)
    requires n < |actions| && actions[n].DoBegin? && states[n].ctl.phase == Open
    ensures BeginAccepted(cfg, states[n], actions[n].index, actions[n].start, actions[n].length)
  {
    hide Step, KeepsWord, Advance;
    RunLinks(cfg, content, ranges, states, actions, places, n);
    assert ExportDriver.IsRange(cfg, ranges[places[n].next], places[n].next);
  }

  /** What may keep an export from its end: a flush, a clearing or the finalizing that fails, a cancellation, or an abort
      that takes the state. */
  predicate Trouble(a: Action) {
    || a.DoFlushRaise? || a.DoClearRaise? || a.DoCancelFlusher? || a.DoCancelCall? || a.DoAbortStart?
    || a.DoAbortFinalized? || (a.DoFinalize? && !a.ok)
  }

  /** Nothing has gone wrong: the export is under way, or finalized. */
  predicate Smooth(p: Place, s: Sink) {
    && (s.ctl.phase == Open || s.ctl.phase == Committed) && !s.ctl.failure && !s.ctl.aborting
    && !s.flusher.Killed? && !s.ctl.finalizer.Failed? && !s.driver.Stopped? && !p.Left?
    && (CommitCalled(s.driver) <==> p.Committing?)
  }

  lemma BeginStaysSmooth(cfg: Config, ranges: seq<(nat, nat)>, p: Place, s: Sink, a: Action, t: Sink)
    requires cfg.Valid() && Step(cfg, s, a, t) && Follows(ranges, p, a) && Linked(p, s) && a.DoBegin?
    requires Smooth(p, s) && Lifecycle(s.ctl, s.driver, s.flusher) && BeginAccepted(cfg, s, a.index, a.start, a.length)
    ensures Smooth(Advance(p, s, a, t), t)
  {
    hide Grounded;
  }

  lemma StepStaysSmooth(cfg: Config, ranges: seq<(nat, nat)>, p: Place, s: Sink, a: Action, t: Sink)
    requires cfg.Valid() && Step(cfg, s, a, t) && Follows(ranges, p, a) && Linked(p, s) && !a.DoBegin? && !Trouble(a)
    requires Smooth(p, s) && Lifecycle(s.ctl, s.driver, s.flusher)
    requires !s.ctl.aborting && s.flusher.Ended? ==> CommitCalled(s.driver)
    ensures Smooth(Advance(p, s, a, t), t)
  {
    hide Grounded, Begin, FlushRaised, ClearRaised, FlusherCancelled, AbortTakes, AbortStarts, DiscardedOnce, OneOutcome;
    match a
    case DoWake =>
    case DoComplete =>
    case DoCommit =>
    case DoCommitFlushed =>
    case DoGet => hide BeginWoken, Write, Complete;
    case DoAbortClosed => hide BeginWoken, Write, Complete;
    case DoDiscard(_) => hide BeginWoken, Write, Complete;
    case _ => hide BeginWoken, Complete, Get;
  }

  /** The driver leaves an export, and `commit` raises, only for such a trouble: the sink refuses it nothing of itself. */
  lemma {:induction false} LeavesForAReason(cfg: Config, content: Bytes, ranges: seq<(nat, nat)>, states: seq<Sink>,
                                            actions: seq<Action>, places: seq<Place>, n: nat)
    requires cfg.Valid() && |content| == cfg.size && DrivenRun(cfg, content, ranges, states, actions, places)
    requires n < |states| && states[0].ctl.phase == Open && forall i :: 0 <= i < n ==> !Trouble(actions[i])
    ensures Smooth(places[n], states[n])
  {
    hide Step, KeepsWord, Follows, Advance, Inv, Smooth, Trouble;
    if n == 0 {
      StartsSmooth(cfg, places[0], states[0]);
    } else {
      LeavesForAReason(cfg, content, ranges, states, actions, places, n - 1);
      RunLinks(cfg, content, ranges, states, actions, places, n - 1);
      RunKeeps(cfg, states, actions, n - 1);
      LifecycleOf(cfg, states[n - 1]);
      if actions[n - 1].DoBegin? {
        OpenBeforeCommit(ranges, places[n - 1], states[n - 1], actions[n - 1]);
        BeginsAreAccepted(cfg, content, ranges, states, actions, places, n - 1);
        BeginStaysSmooth(cfg, ranges, places[n - 1], states[n - 1], actions[n - 1], states[n]);
      } else {
        StepStaysSmooth(cfg, ranges, places[n - 1], states[n - 1], actions[n - 1], states[n]);
      }
    }
  }

  lemma OpenBeforeCommit(ranges: seq<(nat, nat)>, p: Place, s: Sink, a: Action)
    requires Smooth(p, s) && Lifecycle(s.ctl, s.driver, s.flusher) && Linked(p, s) && a.DoBegin? && Follows(ranges, p, a)
    ensures s.ctl.phase == Open
  {
  }

  lemma LifecycleOf(cfg: Config, s: Sink)
    requires cfg.Valid() && Inv(cfg, s)
    ensures Lifecycle(s.ctl, s.driver, s.flusher)
    ensures !s.ctl.aborting && s.flusher.Ended? ==> CommitCalled(s.driver)
  {
    hide Lifecycle, Slots, Order, Contents, Blank, AbortStops, Parking, Deaths, Losses;
  }

  lemma StartsSmooth(cfg: Config, p: Place, s: Sink)
    requires cfg.Valid() && Initial(cfg, s) && s.ctl.phase == Open && p == Before(0)
    ensures Smooth(p, s)
  {
  }

  /** The driver commits only after the last segment. */
  lemma DriverIsFaithful(cfg: Config, content: Bytes, ranges: seq<(nat, nat)>, states: seq<Sink>, actions: seq<Action>,
                         places: seq<Place>)
    requires cfg.Valid() && |content| == cfg.size && DrivenRun(cfg, content, ranges, states, actions, places)
    ensures FaithfulRun(cfg, content, states, actions)
  {
    hide Step, KeepsWord, Advance;
    forall i | 0 <= i < |actions| && actions[i].DoCommit? ensures states[i].feed.nextIndex == cfg.Segments() {
      RunLinks(cfg, content, ranges, states, actions, places, i);
    }
  }

  /** The whole export: however the exporting caller, the flusher, the finalizer and aborts interleave, and whatever fails
      or is cancelled, a destination that is finalized was given the content, segment by segment. */
  lemma ExportedIsContent(cfg: Config, content: Bytes, ranges: seq<(nat, nat)>, states: seq<Sink>, actions: seq<Action>,
                          places: seq<Place>, n: nat)
    requires cfg.Valid() && |content| == cfg.size && DrivenRun(cfg, content, ranges, states, actions, places)
    requires n < |states| && states[n].ctl.finalizer != NotYet
    ensures |states[n].feed.flushes| == |ranges|
    ensures forall i :: 0 <= i < |ranges| ==>
              ranges[i].0 <= ranges[i].1 <= |content|
              && states[n].feed.flushes[i] == FlushCall(i, ranges[i].0, content[ranges[i].0..ranges[i].1])
    ensures Flatten(states[n].feed.flushes) == content
  {
    hide FaithfulRun, Flatten, Step;
    DriverIsFaithful(cfg, content, ranges, states, actions, places);
    CommittedIsContent(cfg, content, states, actions, n);
    forall i | 0 <= i < |ranges|
      ensures ranges[i].0 <= ranges[i].1 <= |content| && content[ranges[i].0..ranges[i].1] == Slice(cfg, content, i)
    {
      assert ExportDriver.IsRange(cfg, ranges[i], i);
    }
  }
}
