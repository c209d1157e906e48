/** One `Session.discover` (sdk/api/session.py): the scan for layouts and the opens of those found run beside each
    other; what was found is yielded in order; and whichever way the generator ends, `_drain_and_close` cleans up. Then
    any number of them over one session. */
module Discoveries {
  import opened Basics
  import opened Sorting
  import opened SessionStores

  /** How the open of a layout ended: with a repository, with nothing to yield, or with an error. */
  datatype Opened = Repository | Skipped | Failed

  /** The task `next_layout`: at work, done with a layout, with the end of the scan or with an error, cancelled; or none
      any more. */
  datatype Scan = Scanning | Found(layout: nat) | Exhausted | Broke | Cancelled | NoTask

  /** The generator: in its loop, on its way out, or over, its cleanup clean or not. */
  datatype Body = Looping | Leaving | Over(clean: bool)

  /** One discovery: the layouts found so far, the scan's task, the opens pending in the order found, how the finished
      ones ended, the layouts whose repositories were yielded, and whether closing the scan raised. */
  datatype Discovery = Discovery(found: seq<nat>, scan: Scan, pending: seq<nat>, ready: map<nat, Opened>,
                                 yielded: seq<nat>, body: Body, closeRaised: bool)

  const Started: Discovery := Discovery([], Scanning, [], map[], [], Looping, false)

  /** What the tasks still at work do when the cleanup cancels them: whether the scan raises, which opens do, and whether
      closing the scan does, of a cancellation that reaches it or of itself. */
  datatype Late = Late(scan: bool, opens: set<nat>, close: bool)

  /** A task ends; the loop takes what a task found; the generator is left, be it closed, cancelled, at its end or by an
      error of its own; the cleanup ends. */
  datatype DiscoveryAction =
    | ScanDone(result: Scan)
    | OpenDone(layout: nat, outcome: Opened)
    | TakeLayout
    | TakeEnd
    | TakeError
    | TakeHead
    | Leave
    | CleanUp(late: Late)

  predicate CanDiscover(d: Discovery, a: DiscoveryAction) {
    match a
    case ScanDone(r) =>
      !d.body.Over? && d.scan.Scanning? && (r.Exhausted? || r.Broke? || (r.Found? && r.layout !in d.found))
    case OpenDone(l, _) => !d.body.Over? && l in d.pending && l !in d.ready
    case TakeLayout => d.body.Looping? && d.scan.Found? && d.scan.layout !in d.found
    case TakeEnd => d.body.Looping? && d.scan.Exhausted?
    case TakeError => d.body.Looping? && d.scan.Broke?
    case TakeHead => d.body.Looping? && d.pending != [] && d.pending[0] in d.ready
    case Leave => d.body.Looping?
    case CleanUp(_) => d.body.Leaving?
  }

  /** The scan's task once the cleanup has awaited it. */
  function ScanAwaited(scan: Scan, raises: bool): Scan {
    if scan.Scanning? then if raises then Broke else Cancelled else scan
  }

  /** How the opens have ended once the cleanup has cancelled and awaited them. A cancelled one yields nothing. */
  function OpensAwaited(pending: seq<nat>, ready: map<nat, Opened>, raises: set<nat>): map<nat, Opened> {
    ready + map l | l in pending && l !in ready :: if l in raises then Failed else Skipped
  }

  /** Some open of `pending`, awaited in order, raises. */
  function AnyRaises(pending: seq<nat>, ready: map<nat, Opened>): bool {
    if pending == [] then false
    else if pending[0] in ready && ready[pending[0]].Failed? then true
    else AnyRaises(pending[1..], ready)
  }

  /** `_drain_and_close`: awaits the scan's task and suppresses its cancellation and its end, then the opens', and
      closes the scan. The first of these that raises ends it. */
  function Drained(d: Discovery, late: Late): Discovery {
    var awaited := d.(scan := ScanAwaited(d.scan, late.scan));
    if awaited.scan.Broke? then awaited.(body := Over(false))
    else
      var drained := awaited.(ready := OpensAwaited(d.pending, d.ready, late.opens));
      if AnyRaises(d.pending, drained.ready) then drained.(body := Over(false))
      else drained.(closeRaised := late.close, body := Over(!late.close))
  }

  function Discover(d: Discovery, a: DiscoveryAction): Discovery
    requires CanDiscover(d, a)
  {
    match a
    case ScanDone(r) => d.(scan := r)
    case OpenDone(l, o) => d.(ready := d.ready[l := o])
    case TakeLayout => d.(found := d.found + [d.scan.layout], pending := d.pending + [d.scan.layout], scan := Scanning)
    case TakeEnd => d.(scan := NoTask)
    case TakeError => d.(body := Leaving)
    case TakeHead =>
      var head := d.pending[0];
      d.(pending := d.pending[1..], yielded := if d.ready[head].Repository? then d.yielded + [head] else d.yielded,
         body := if d.ready[head].Failed? then Leaving else Looping)
    case Leave => d.(body := Leaving)
    case CleanUp(late) => Drained(d, late)
  }

  ghost predicate DiscoveryRun(states: seq<Discovery>, actions: seq<DiscoveryAction>) {
    && |states| == |actions| + 1 && states[0] == Started
    && forall i :: 0 <= i < |actions| ==>
         CanDiscover(states[i], actions[i]) && states[i + 1] == Discover(states[i], actions[i])
  }

  // ------------------------------------------------------------------------------------------------------
  // The order of a discovery
  // ------------------------------------------------------------------------------------------------------

  /** The layouts that are repositories, in order. */
  function Repositories(layouts: seq<nat>, ready: map<nat, Opened>): seq<nat> {
    if layouts == [] then []
    else
      var last := layouts[|layouts| - 1];
      Repositories(layouts[..|layouts| - 1], ready) + if last in ready && ready[last].Repository? then [last] else []
  }

  /** What was yielded are the repositories among the layouts taken so far, in the order they were found. */
  ghost predicate InOrder(d: Discovery) {
    && |d.pending| <= |d.found| && d.found[|d.found| - |d.pending|..] == d.pending && Distinct(d.found)
    && (forall l :: l in d.found[..|d.found| - |d.pending|] ==> l in d.ready)
    && d.yielded == Repositories(d.found[..|d.found| - |d.pending|], d.ready)
  }

  lemma {:induction false} SameRepositories(layouts: seq<nat>, ready: map<nat, Opened>, ready': map<nat, Opened>)
    requires forall l :: l in layouts ==> l in ready && l in ready' && ready[l] == ready'[l]
    ensures Repositories(layouts, ready) == Repositories(layouts, ready')
  {
    if layouts != [] { SameRepositories(layouts[..|layouts| - 1], ready, ready'); }
  }

  lemma TakeLayoutKeepsOrder(d: Discovery)
    requires InOrder(d) && CanDiscover(d, TakeLayout)
    ensures InOrder(Discover(d, TakeLayout))
  {
    hide Distinct, Repositories;
    var (d', n) := (Discover(d, TakeLayout), |d.found| - |d.pending|);
    assert d'.found[..n] == d.found[..n];
    assert d'.found[n..] == d.found[n..] + [d.scan.layout];
    DistinctMore(d.found, d.scan.layout);
  }

  lemma TakeHeadKeepsOrder(d: Discovery)
    requires InOrder(d) && CanDiscover(d, TakeHead)
    ensures InOrder(Discover(d, TakeHead))
  {
    hide Distinct;
    var n := |d.found| - |d.pending|;
    assert d.found[n] == d.pending[0] && d.found[n + 1..] == d.pending[1..];
    assert d.found[..n + 1][..n] == d.found[..n];
  }

  /** What opens and cleanups do, as long as they leave alone what has been taken. */
  lemma SameOrder(d: Discovery, d': Discovery)
    requires InOrder(d) && d'.found == d.found && d'.pending == d.pending && d'.yielded == d.yielded
    requires forall l :: l in d.ready ==> l in d'.ready && d'.ready[l] == d.ready[l]
    ensures InOrder(d')
  {
    hide Distinct, Repositories;
    SameRepositories(d.found[..|d.found| - |d.pending|], d.ready, d'.ready);
  }

  lemma ReadyStays(d: Discovery, a: DiscoveryAction)
    requires CanDiscover(d, a)
    ensures forall l :: l in d.ready ==> l in Discover(d, a).ready && Discover(d, a).ready[l] == d.ready[l]
    ensures !a.TakeLayout? && !a.TakeHead? ==>
              var d' := Discover(d, a); d'.found == d.found && d'.pending == d.pending && d'.yielded == d.yielded
  {
  }

  /** Whatever order the opens finish in. */
  lemma DiscoverKeepsOrder(d: Discovery, a: DiscoveryAction)
    requires InOrder(d) && CanDiscover(d, a)
    ensures InOrder(Discover(d, a))
  {
    hide InOrder, Discover, CanDiscover;
    if a.TakeLayout? {
      TakeLayoutKeepsOrder(d);
    } else if a.TakeHead? {
      TakeHeadKeepsOrder(d);
    } else {
      ReadyStays(d, a);
      SameOrder(d, Discover(d, a));
    }
  }

  lemma {:induction false} YieldedInOrderFound(states: seq<Discovery>, actions: seq<DiscoveryAction>, n: nat)
    requires DiscoveryRun(states, actions) && n < |states|
    ensures InOrder(states[n])
    ensures states[n].pending == [] ==> states[n].yielded == Repositories(states[n].found, states[n].ready)
  {
    hide InOrder, Discover, CanDiscover, Repositories;
    if n == 0 {
      NothingFound(states[0]);
    } else {
      YieldedInOrderFound(states, actions, n - 1);
      DiscoverKeepsOrder(states[n - 1], actions[n - 1]);
    }
    AllTaken(states[n]);
  }

  lemma NothingFound(d: Discovery)
    requires d == Started
    ensures InOrder(d)
  {
  }

  lemma AllTaken(d: Discovery)
    requires InOrder(d)
    ensures d.pending == [] ==> d.yielded == Repositories(d.found, d.ready)
  {
    hide Repositories;
    assert d.found[..|d.found|] == d.found;
  }

  /** Nothing is taken after an open that failed. */
  ghost predicate FailureEnds(d: Discovery) {
    d.body.Looping? ==>
      |d.pending| <= |d.found| && forall l :: l in d.found[..|d.found| - |d.pending|] ==> l !in d.ready || d.ready[l] != Failed
  }

  lemma DiscoverEnds(d: Discovery, a: DiscoveryAction)
    requires InOrder(d) && FailureEnds(d) && CanDiscover(d, a)
    ensures FailureEnds(Discover(d, a)) && (a.TakeError? ==> !Discover(d, a).body.Looping?)
    ensures !d.body.Looping? ==> !Discover(d, a).body.Looping? && Discover(d, a).yielded == d.yielded
  {
    hide Distinct, Repositories;
    var (d', n) := (Discover(d, a), |d.found| - |d.pending|);
    match a
    case TakeHead => assert d.found[..n + 1] == d.found[..n] + [d.pending[0]] by { assert d.found[n] == d.pending[0]; }
    case TakeLayout => assert d'.found[..n] == d.found[..n];
    case _ =>
  }

  /** A failed open and a broken scan end the discovery: once the loop took either, or was left, nothing more is yielded,
      and nothing was taken after the failure. */
  lemma {:induction false} FailureEndsDiscovery(states: seq<Discovery>, actions: seq<DiscoveryAction>, n: nat, m: nat)
    requires DiscoveryRun(states, actions) && n <= m < |states|
    ensures FailureEnds(states[m])
    ensures !states[n].body.Looping? ==> !states[m].body.Looping? && states[m].yielded == states[n].yielded
    ensures n < |actions| && n < m && actions[n].TakeError? ==> !states[m].body.Looping?
    decreases m
  {
    hide InOrder, Discover, CanDiscover, FailureEnds;
    if m == 0 {
      NothingFailed(states[0]);
    } else {
      YieldedInOrderFound(states, actions, m - 1);
      FailureEndsDiscovery(states, actions, if n < m then n else m - 1, m - 1);
      DiscoverEnds(states[m - 1], actions[m - 1]);
    }
  }

  lemma NothingFailed(d: Discovery)
    requires d == Started
    ensures FailureEnds(d)
  {
  }

  /** The layouts the scan gave by the first `n` actions, in order. */
  function Reported(actions: seq<DiscoveryAction>, n: nat): seq<nat>
    requires n <= |actions|
  {
    if n == 0 then []
    else
      Reported(actions, n - 1)
      + if actions[n - 1].ScanDone? && actions[n - 1].result.Found? then [actions[n - 1].result.layout] else []
  }

  /** What the scan gave was found or is about to be, and it is over only if it said so. */
  ghost predicate ScanTold(d: Discovery, reported: seq<nat>, ended: bool) {
    && reported == d.found + (if d.scan.Found? then [d.scan.layout] else [])
    && (d.scan.Exhausted? || d.scan.NoTask? ==> ended)
  }

  lemma StepTellsScan(d: Discovery, a: DiscoveryAction, reported: seq<nat>, ended: bool)
    requires CanDiscover(d, a) && ScanTold(d, reported, ended)
    ensures ScanTold(Discover(d, a), reported + (if a.ScanDone? && a.result.Found? then [a.result.layout] else []),
                     ended || a == ScanDone(Exhausted))
  {
    hide AnyRaises, OpensAwaited;
  }

  lemma {:induction false} RunTellsScan(states: seq<Discovery>, actions: seq<DiscoveryAction>, n: nat)
    requires DiscoveryRun(states, actions) && n < |states|
    ensures ScanTold(states[n], Reported(actions, n), exists i :: 0 <= i < n && actions[i] == ScanDone(Exhausted))
  {
    hide Discover, CanDiscover;
    if n > 0 {
      RunTellsScan(states, actions, n - 1);
      StepTellsScan(states[n - 1], actions[n - 1], Reported(actions, n - 1),
                    exists i :: 0 <= i < n - 1 && actions[i] == ScanDone(Exhausted));
    }
  }

  lemma StepTellsOpens(d: Discovery, a: DiscoveryAction, l: nat)
    requires CanDiscover(d, a)
    ensures l in d.ready ==> l in Discover(d, a).ready && Discover(d, a).ready[l] == d.ready[l]
    ensures l !in d.ready && l in Discover(d, a).ready ==>
              a == OpenDone(l, Discover(d, a).ready[l]) || (a.CleanUp? && Discover(d, a).ready[l] != Repository)
    ensures a.OpenDone? && a.layout == l ==> l in Discover(d, a).ready && Discover(d, a).ready[l] == a.outcome
  {
    hide AnyRaises;
  }

  /** A layout counts as a repository exactly if its open said so. */
  lemma {:induction false} RepositoriesAreOpened(states: seq<Discovery>, actions: seq<DiscoveryAction>, n: nat, l: nat)
    requires DiscoveryRun(states, actions) && n < |states|
    ensures (l in states[n].ready && states[n].ready[l] == Repository)
            <==> exists i :: 0 <= i < n && actions[i] == OpenDone(l, Repository)
  {
    hide Discover;
    if n > 0 {
      RepositoriesAreOpened(states, actions, n - 1, l);
      StepTellsOpens(states[n - 1], actions[n - 1], l);
      OpensOnce(states[n - 1], actions[n - 1], l);
    }
  }

  lemma OpensOnce(d: Discovery, a: DiscoveryAction, l: nat)
    requires CanDiscover(d, a)
    ensures a.OpenDone? && a.layout == l ==> l !in d.ready
  {
  }

  /** A discovery that ran to its end has taken every layout its scan gave, to the last, and yielded those whose opens said
      they are repositories, in that order. */
  lemma EndedYieldsAll(states: seq<Discovery>, actions: seq<DiscoveryAction>, n: nat)
    requires DiscoveryRun(states, actions) && n < |states|
    requires states[n].scan.NoTask? && states[n].pending == []
    ensures exists i :: 0 <= i < n && actions[i] == ScanDone(Exhausted)
    ensures states[n].yielded == Repositories(Reported(actions, n), states[n].ready)
    ensures forall l: nat :: (l in states[n].ready && states[n].ready[l] == Repository)
                             <==> exists i :: 0 <= i < n && actions[i] == OpenDone(l, Repository)
  {
    hide Discover, CanDiscover, Repositories;
    RunTellsScan(states, actions, n);
    YieldedInOrderFound(states, actions, n);
    assert Reported(actions, n) == states[n].found;
    forall l: nat ensures (l in states[n].ready && states[n].ready[l] == Repository)
                          <==> exists i :: 0 <= i < n && actions[i] == OpenDone(l, Repository) {
      RepositoriesAreOpened(states, actions, n, l);
    }
  }

  // ------------------------------------------------------------------------------------------------------
  // When its cleanup raises
  // ------------------------------------------------------------------------------------------------------

  /** Some open that was still pending failed. */
  predicate PendingFailed(d: Discovery) { exists l :: l in d.pending && l in d.ready && d.ready[l].Failed? }

  /** The scan ended in an error, an open still pending failed, or closing the scan raised. */
  predicate LeftBroken(d: Discovery) { d.scan.Broke? || PendingFailed(d) || d.closeRaised }

  ghost predicate CleanupTells(d: Discovery) {
    if d.body.Over? then d.body.clean <==> !LeftBroken(d) else !d.closeRaised
  }

  lemma {:induction false} AnyRaisesExactly(pending: seq<nat>, ready: map<nat, Opened>)
    ensures AnyRaises(pending, ready) <==> exists l :: l in pending && l in ready && ready[l].Failed?
  {
    if pending != [] {
      AnyRaisesExactly(pending[1..], ready);
      assert pending == [pending[0]] + pending[1..];
    }
  }

  /** `_drain_and_close`, its awaits in order; it raises exactly if it leaves something broken. */
  method DrainAndClose(d: Discovery, late: Late) returns (clean: bool)
    requires d.body.Leaving? && !d.closeRaised
    ensures Drained(d, late).body == Over(clean) && (clean <==> !LeftBroken(Drained(d, late)))
  {
    AnyRaisesExactly(d.pending, OpensAwaited(d.pending, d.ready, late.opens));
    if ScanAwaited(d.scan, late.scan).Broke? {
      return false;
    }
    var ready := OpensAwaited(d.pending, d.ready, late.opens);
    for i := 0 to |d.pending|
      invariant AnyRaises(d.pending, ready) == AnyRaises(d.pending[i..], ready)
    {
      assert d.pending[i..][0] == d.pending[i] && d.pending[i..][1..] == d.pending[i + 1..];
      if d.pending[i] in ready && ready[d.pending[i]].Failed? {
        return false;
      }
    }
    return !late.close;
  }

  lemma DiscoverTells(d: Discovery, a: DiscoveryAction)
    requires CleanupTells(d) && CanDiscover(d, a)
    ensures CleanupTells(Discover(d, a))
  {
    if a.CleanUp? { AnyRaisesExactly(d.pending, OpensAwaited(d.pending, d.ready, a.late.opens)); }
  }

  /** Over every run of a discovery: its cleanup raises exactly if the scan ended in an error, whether or not the loop
      took notice, an open still pending failed, or closing the scan raised. */
  lemma {:induction false} CleanupRaisesExactly(states: seq<Discovery>, actions: seq<DiscoveryAction>, n: nat)
    requires DiscoveryRun(states, actions) && n < |states|
    ensures CleanupTells(states[n])
    ensures (exists i :: 0 <= i < n && actions[i] == ScanDone(Broke)) ==> states[n].scan.Broke?
    ensures states[n].scan.Broke? ==>
              exists i :: 0 <= i < n && (actions[i] == ScanDone(Broke) || (actions[i].CleanUp? && actions[i].late.scan))
  {
    hide CleanupTells, Drained;
    if n == 0 {
      StartTells(states[0]);
    } else {
      CleanupRaisesExactly(states, actions, n - 1);
      DiscoverTells(states[n - 1], actions[n - 1]);
      ScanBreaks(states[n - 1], actions[n - 1]);
    }
  }

  lemma StartTells(d: Discovery)
    requires d == Started
    ensures CleanupTells(d)
  {
  }

  /** The error of the scan is never forgotten, not even when the loop has raised it. */
  lemma ScanBreaks(d: Discovery, a: DiscoveryAction)
    requires CanDiscover(d, a)
    ensures Discover(d, a).scan.Broke?
            <==> d.scan.Broke? || a == ScanDone(Broke) || (a.CleanUp? && d.scan.Scanning? && a.late.scan)
  {
  }

  // ------------------------------------------------------------------------------------------------------
  // Discoveries over a session
  // ------------------------------------------------------------------------------------------------------

  /** A session with the discoveries running over it, and those that are over with what backed them. */
  datatype World = World(session: Session, running: map<nat, Discovery>, over: seq<(nat, Discovery)>)

  /** A discovery begins; one takes a step, which may track `repo` or start a closing; or something else happens to the
      session. */
  datatype Move =
    | Start(d: nat, backing: nat)
    | Inside(d: nat, step: DiscoveryAction, repo: nat, closer: nat)
    | Outside(action: Action)

  predicate Yields(d: Discovery, a: DiscoveryAction)
    requires CanDiscover(d, a)
  {
    a.TakeHead? && d.ready[d.pending[0]].Repository?
  }

  predicate CanMove(w: World, m: Move) {
    match m
    case Start(d, b) => Enabled(w.session, Begin(d, b))
    case Inside(d, a, r, c) =>
      d in w.running && CanDiscover(w.running[d], a)
      && (Yields(w.running[d], a) ==> Enabled(w.session, Yield(d, r)))
      && (a.CleanUp? ==> Enabled(w.session, EndDiscovery(d, Discover(w.running[d], a).body == Over(true), c)))
    case Outside(a) => (a.CloseRepo? || a.CloseDone? || a.CloseCancelled?) && Enabled(w.session, a)
  }

  function Moved(w: World, m: Move): World
    requires CanMove(w, m)
  {
    match m
    case Start(d, b) => w.(session := Step(w.session, Begin(d, b)), running := w.running[d := Started])
    case Inside(d, a, r, c) =>
      var next := Discover(w.running[d], a);
      if a.CleanUp? then
        World(Step(w.session, EndDiscovery(d, next.body == Over(true), c)), w.running - {d},
              w.over + [(w.session.running[d].backing, next)])
      else if Yields(w.running[d], a) then
        w.(session := Step(w.session, Yield(d, r)), running := w.running[d := next])
      else w.(running := w.running[d := next])
    case Outside(a) => w.(session := Step(w.session, a))
  }

  ghost predicate WorldRun(worlds: seq<World>, moves: seq<Move>) {
    && |worlds| == |moves| + 1 && worlds[0] == World(Fresh, map[], [])
    && forall i :: 0 <= i < |moves| ==> CanMove(worlds[i], moves[i]) && worlds[i + 1] == Moved(worlds[i], moves[i])
  }

  predicate EndedBadly(over: seq<(nat, Discovery)>, b: nat) {
    exists i :: 0 <= i < |over| && over[i].0 == b && over[i].1.body != Over(true)
  }

  /** The session's count of cleanups that raised is that of the discoveries. */
  ghost predicate Agreed(w: World) {
    && Reachable(w.session)
    && (forall d :: d in w.running ==> CleanupTells(w.running[d]))
    && (forall i :: 0 <= i < |w.over| ==> w.over[i].1.body.Over? && CleanupTells(w.over[i].1))
    && forall b: nat :: w.session.failed[b] > 0 <==> EndedBadly(w.over, b)
  }

  /** What a step does to the session's past. */
  lemma StepFails(s: Session, a: Action)
    requires Enabled(s, a)
    ensures a.EndDiscovery? && !a.clean ==> Step(s, a).failed == s.failed + multiset{s.running[a.d].backing}
    ensures !(a.EndDiscovery? && !a.clean) ==> Step(s, a).failed == s.failed
    ensures a.EndDiscovery? ==> a.d in s.running
  {
  }

  lemma BadlyMore(over: seq<(nat, Discovery)>, b: nat, d: Discovery, c: nat)
    ensures EndedBadly(over + [(b, d)], c) <==> EndedBadly(over, c) || (b == c && d.body != Over(true))
  {
    var over' := over + [(b, d)];
    assert over'[|over|] == (b, d);
    if i :| 0 <= i < |over| && over[i].0 == c && over[i].1.body != Over(true) {
      assert over'[i] == over[i];
    }
  }

  lemma SessionMoves(w: World, a: Action)
    requires Agreed(w) && Enabled(w.session, a) && !a.EndDiscovery?
    ensures Agreed(w.(session := Step(w.session, a)))
  {
    hide Reachable, Step, Enabled, CleanupTells, EndedBadly;
    StepFails(w.session, a);
    var next := ReachNext(w.session, a);
  }

  lemma BodyMoves(w: World, d: nat, next: Discovery)
    requires Agreed(w) && CleanupTells(next)
    ensures Agreed(w.(running := w.running[d := next]))
  {
    hide Reachable, CleanupTells, EndedBadly;
  }

  lemma CleanUpMoves(w: World, d: nat, a: DiscoveryAction, r: nat, c: nat)
    requires Agreed(w) && CanMove(w, Inside(d, a, r, c)) && a.CleanUp?
    ensures Agreed(Moved(w, Inside(d, a, r, c)))
  {
    hide Reachable, Step, CleanupTells, EndedBadly, Drained;
    var next := Discover(w.running[d], a);
    var end := EndDiscovery(d, next.body == Over(true), c);
    StepFails(w.session, end);
    var b := w.session.running[d].backing;
    hide Enabled;
    DiscoverTells(w.running[d], a);
    CleanUpEnds(w.running[d], a);
    var session := ReachNext(w.session, end);
    forall x: nat ensures session.failed[x] > 0 <==> EndedBadly(w.over + [(b, next)], x) {
      BadlyMore(w.over, b, next, x);
    }
  }

  lemma CleanUpEnds(d: Discovery, a: DiscoveryAction)
    requires CanDiscover(d, a) && a.CleanUp?
    ensures Discover(d, a).body.Over?
  {
  }

  lemma MoveAgrees(w: World, m: Move)
    requires Agreed(w) && CanMove(w, m)
    ensures Agreed(Moved(w, m))
  {
    hide Agreed, Step, Enabled, Discover, CleanupTells, Reachable;
    match m
    case Start(d, b) =>
      SessionMoves(w, Begin(d, b));
      StartTells(Started);
      BodyMoves(w.(session := Step(w.session, Begin(d, b))), d, Started);
    case Outside(a) =>
      SessionMoves(w, a);
    case Inside(d, a, r, c) =>
      if a.CleanUp? {
        CleanUpMoves(w, d, a, r, c);
      } else {
        RunningTells(w, d);
        DiscoverTells(w.running[d], a);
        var next := Discover(w.running[d], a);
        if Yields(w.running[d], a) {
          SessionMoves(w, Yield(d, r));
          BodyMoves(w.(session := Step(w.session, Yield(d, r))), d, next);
        } else {
          BodyMoves(w, d, next);
        }
      }
  }

  lemma RunningTells(w: World, d: nat)
    requires Agreed(w) && d in w.running
    ensures CleanupTells(w.running[d])
  {
  }

  lemma {:induction false} WorldsAgree(worlds: seq<World>, moves: seq<Move>, n: nat)
    requires WorldRun(worlds, moves) && n < |worlds|
    ensures Agreed(worlds[n])
  {
    hide Agreed, CanMove, Moved;
    if n == 0 {
      NothingHappened(worlds[0]);
    } else {
      WorldsAgree(worlds, moves, n - 1);
      MoveAgrees(worlds[n - 1], moves[n - 1]);
    }
  }

  lemma NothingHappened(w: World)
    requires w == World(Fresh, map[], [])
    ensures Agreed(w)
  {
    FreshReached();
  }

  /** With every repository over a backing released and its discoveries over, its stores are being or were closed exactly
      if each of those discoveries ended with its scan not broken, no pending open failed, and the scan closed without an
      error: what a caller of `discover` gets to see. */
  lemma ClosedUnlessCleanupRaised(worlds: seq<World>, moves: seq<Move>, n: nat, b: nat)
    requires WorldRun(worlds, moves) && n < |worlds| && b in worlds[n].session.released
    requires forall r :: r in worlds[n].session.repos ==> worlds[n].session.repos[r].backing != b
    requires forall d :: d in worlds[n].session.running ==> worlds[n].session.running[d].backing != b
    ensures var w := worlds[n];
            (exists x :: x in w.session.attempts && x.backing == b)
            <==> forall i :: 0 <= i < |w.over| && w.over[i].0 == b ==> !LeftBroken(w.over[i].1)
  {
    hide CanMove, Moved, LeftBroken;
    WorldsAgree(worlds, moves, n);
    var w := worlds[n];
    hide Reachable;
    ReleasedIsClosed(w.session, b);
    forall i | 0 <= i < |w.over| ensures w.over[i].1.body == Over(true) <==> !LeftBroken(w.over[i].1) {
      assert CleanupTells(w.over[i].1);
    }
  }

  const OneYielded: World := World(
    Session([Store(0, 7)], map[1 := Store(0, 7)], map[7 := 1], {}, map[0 := Store(0, 7)], map[], [Store(0, 7)], [], {},
            multiset{}, {}),
    map[0 := Discovery([5], Scanning, [], map[5 := Repository], [5], Looping, false)], [])

  lemma Nothing() returns (worlds: seq<World>, moves: seq<Move>)
    ensures WorldRun(worlds, moves) && worlds == [World(Fresh, map[], [])]
  {
    worlds, moves := [World(Fresh, map[], [])], [];
  }

  lemma YieldOne() returns (worlds: seq<World>, moves: seq<Move>)
    ensures WorldRun(worlds, moves) && worlds != [] && worlds[|worlds| - 1] == OneYielded
  {
    worlds, moves := Nothing();
    hide WorldRun;
    worlds, moves := MoveOn(worlds, moves, Start(0, 7));
    worlds, moves := MoveOn(worlds, moves, Inside(0, ScanDone(Found(5)), 0, 0));
    worlds, moves := MoveOn(worlds, moves, Inside(0, TakeLayout, 0, 0));
    worlds, moves := MoveOn(worlds, moves, Inside(0, OpenDone(5, Repository), 0, 0));
    worlds, moves := MoveOn(worlds, moves, Inside(0, TakeHead, 1, 0));
    var w := worlds[|worlds| - 1];
    assert w.running[0] == OneYielded.running[0];
    assert w.running == OneYielded.running;
    assert w.session == OneYielded.session;
  }

  /** In particular a discovery whose scan broke leaves the store of what it yielded open. */
  lemma BrokenScanStrands() returns (worlds: seq<World>, moves: seq<Move>)
    ensures WorldRun(worlds, moves) && worlds != []
    ensures var w := worlds[|worlds| - 1];
            && w.running == map[] && |w.over| == 1 && w.over[0].1.yielded == [5]
            && w.session.repos == map[] && w.session.running == map[] && w.session.closings == map[]
            && w.session.released == {7} && w.session.stores == [Store(0, 7)] && w.session.attempts == []
    ensures var d := worlds[|worlds| - 1].over[0].1; d.scan.Broke? && d.pending == [] && !d.closeRaised
  {
    hide WorldRun;
    worlds, moves := YieldOne();
    worlds, moves := MoveOn(worlds, moves, Inside(0, ScanDone(Broke), 0, 0));
    worlds, moves := MoveOn(worlds, moves, Inside(0, TakeError, 0, 0));
    worlds, moves := MoveOn(worlds, moves, Inside(0, CleanUp(Late(false, {}, false)), 0, 9));
    worlds, moves := MoveOn(worlds, moves, Outside(CloseRepo(1, 9)));
  }

  lemma MoveOn(worlds: seq<World>, moves: seq<Move>, m: Move) returns (worlds': seq<World>, moves': seq<Move>)
    requires WorldRun(worlds, moves) && worlds != [] && CanMove(worlds[|worlds| - 1], m)
    ensures worlds' == worlds + [Moved(worlds[|worlds| - 1], m)] && moves' == moves + [m] && WorldRun(worlds', moves')
  {
    hide CanMove, Moved;
    worlds', moves' := worlds + [Moved(worlds[|worlds| - 1], m)], moves + [m];
  }
}
