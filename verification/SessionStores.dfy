/** `Session` (sdk/api/session.py): which stores it keeps open for whom. Discoveries, `close_repo` calls and closings
    run side by side, each step from one `await` to the next. */
module SessionStores {
  import opened Sorting

  /** One tracked store: a discovery's own wrap, numbered, of what backs it. */
  datatype Store = Store(n: nat, backing: nat)

  /** `stores` are the stores still tracked (`_stores`); `repos` maps each tracked repository to its store;
      `discovering` and `closeWhenIdle` are as in the source. `running` are the discoveries under way with their
      stores; `closings` the calls of `_close_unshared_store` under way with the stores they have yet to close, the
      first being closed. The rest records the past: every store ever tracked, the closes begun, what had a repository
      released, the discoveries whose cleanup raised, and what had a closing cancelled. */
  datatype Session = Session(
    stores: seq<Store>,
    repos: map<nat, Store>,
    discovering: map<nat, nat>,
    closeWhenIdle: set<nat>,
    running: map<nat, Store>,
    closings: map<nat, seq<Store>>,
    tracked: seq<Store>,
    attempts: seq<Store>,
    released: set<nat>,
    failed: multiset<nat>,
    cancelled: set<nat>)

  const Fresh: Session := Session([], map[], map[], {}, map[], map[], [], [], {}, multiset{}, {})

  /** A close of something that `b` backs has begun. */
  predicate Begun(attempts: seq<Store>, b: nat) { exists w :: w in attempts && w.backing == b }

  predicate InUse(repos: map<nat, Store>, b: nat) { exists r :: r in repos && repos[r].backing == b }

  ghost function RunningOver(running: map<nat, Store>, b: nat): set<nat> {
    set d | d in running && running[d].backing == b
  }

  function Over(stores: seq<Store>, b: nat): seq<Store> {
    if stores == [] then [] else (if stores[0].backing == b then [stores[0]] else []) + Over(stores[1..], b)
  }

  datatype Action =
    | Begin(d: nat, backing: nat)
    | Yield(d: nat, repo: nat)
    | EndDiscovery(d: nat, clean: bool, closer: nat)
    | CloseRepo(repo: nat, closer: nat)
    | CloseDone(closer: nat)
    | CloseCancelled(closer: nat)

  /** No discovery starts over what is being or was closed; a step that may start a closing names it anew. */
  predicate Enabled(s: Session, a: Action) {
    match a
    case Begin(d, b) => d !in s.running && !Begun(s.attempts, b)
    case Yield(d, r) => d in s.running && r !in s.repos
    case EndDiscovery(d, _, c) => d in s.running && c !in s.closings
    case CloseRepo(_, c) => c !in s.closings
    case CloseDone(c) => c in s.closings && s.closings[c] != []
    case CloseCancelled(c) => c in s.closings && s.closings[c] != []
  }

  function Count(discovering: map<nat, nat>, b: nat): nat { if b in discovering then discovering[b] else 0 }

  /** `_close_unshared_store`, up to its first `await` or its end. */
  function StartClosing(s: Session, b: nat, closer: nat): Session {
    var rest := Over(s.stores, b);
    if InUse(s.repos, b) || rest == [] then s
    else s.(closings := s.closings[closer := rest], attempts := s.attempts + [rest[0]])
  }

  /** A discovery, its cleanup done: `clean` says that `_drain_and_close` did not raise. */
  function Ended(s: Session, d: nat, clean: bool, closer: nat): Session
    requires d in s.running
  {
    var b := s.running[d].backing;
    var s1 := s.(running := s.running - {d});
    if !clean then s1.(failed := s.failed + multiset{b})
    else if Count(s.discovering, b) > 1 then s1.(discovering := s.discovering[b := Count(s.discovering, b) - 1])
    else
      var s2 := s1.(discovering := s.discovering - {b});
      if b in s.closeWhenIdle then StartClosing(s2.(closeWhenIdle := s.closeWhenIdle - {b}), b, closer) else s2
  }

  /** `close_repo`, the repository closed. */
  function RepoClosed(s: Session, r: nat, closer: nat): Session {
    if r !in s.repos then s
    else
      var b := s.repos[r].backing;
      var s1 := s.(repos := s.repos - {r}, released := s.released + {b});
      if b in s.discovering then s1.(closeWhenIdle := s.closeWhenIdle + {b}) else StartClosing(s1, b, closer)
  }

  function Step(s: Session, a: Action): Session
    requires Enabled(s, a)
  {
    match a
    case Begin(d, b) =>
      var w := Store(|s.tracked|, b);
      s.(tracked := s.tracked + [w], stores := s.stores + [w], running := s.running[d := w],
         discovering := s.discovering[b := Count(s.discovering, b) + 1])
    case Yield(d, r) => s.(repos := s.repos[r := s.running[d]])
    case EndDiscovery(d, clean, c) => Ended(s, d, clean, c)
    case CloseRepo(r, c) => RepoClosed(s, r, c)
    case CloseDone(c) =>
      var rest := s.closings[c];
      var s1 := s.(stores := Removed(s.stores, rest[0]));
      if |rest| == 1 then s1.(closings := s.closings - {c})
      else s1.(closings := s.closings[c := rest[1..]], attempts := s.attempts + [rest[1]])
    case CloseCancelled(c) =>
      s.(closings := s.closings - {c}, cancelled := s.cancelled + {s.closings[c][0].backing})
  }

  // ------------------------------------------------------------------------------------------------------
  // The invariant
  // ------------------------------------------------------------------------------------------------------

  /** No store is listed or closed twice, and what is listed or closed was tracked. */
  ghost predicate Formed(tracked: seq<Store>, stores: seq<Store>, attempts: seq<Store>) {
    && Distinct(stores) && Distinct(attempts)
    && (forall w :: w in stores || w in attempts ==> w in tracked)
    && (forall w :: w in tracked ==> w.n < |tracked| && (w in stores || w in attempts))
  }

  /** The counts are the discoveries under way and those whose cleanup raised. */
  ghost predicate Counted(discovering: map<nat, nat>, running: map<nat, Store>, failed: multiset<nat>) {
    forall b: nat :: Count(discovering, b) == |RunningOver(running, b)| + failed[b]
                     && (b in discovering ==> discovering[b] > 0)
  }

  /** Nothing uses what is being or was closed, and no discovery over it failed. */
  ghost predicate ClosedUnused(attempts: seq<Store>, repos: map<nat, Store>, running: map<nat, Store>,
                               failed: multiset<nat>) {
    forall b: nat :: Begun(attempts, b) ==> !InUse(repos, b) && RunningOver(running, b) == {} && failed[b] == 0
  }

  /** What is used is still tracked. */
  ghost predicate UsesTracked(stores: seq<Store>, repos: map<nat, Store>, running: map<nat, Store>) {
    && (forall r :: r in repos ==> repos[r] in stores)
    && (forall d :: d in running ==> running[d] in stores)
  }

  /** `b` is closed, still in use, or marked for its last discovery. */
  predicate Handled(s: Session, b: nat) {
    Begun(s.attempts, b) || InUse(s.repos, b) || (b in s.discovering && b in s.closeWhenIdle)
  }

  /** A closing has begun its first store and none of the rest, all over one backing. */
  ghost predicate ClosingOk(stores: seq<Store>, attempts: seq<Store>, rest: seq<Store>) {
    && rest != [] && Distinct(rest) && rest[0] in attempts
    && (forall n :: 0 < n < |rest| ==> rest[n] !in attempts)
    && (forall w :: w in rest ==> w in stores && w.backing == rest[0].backing)
  }

  predicate Closes(closings: map<nat, seq<Store>>, c: nat, b: nat) {
    c in closings && closings[c] != [] && closings[c][0].backing == b
  }

  /** One closing at a time for one backing. */
  ghost predicate ClosingsOk(stores: seq<Store>, attempts: seq<Store>, closings: map<nat, seq<Store>>) {
    && (forall c :: c in closings ==> ClosingOk(stores, attempts, closings[c]))
    && Apart(closings)
  }

  ghost predicate Apart(closings: map<nat, seq<Store>>) {
    forall c, e, b :: c != e && Closes(closings, c, b) ==> !Closes(closings, e, b)
  }

  predicate InClosing(closings: map<nat, seq<Store>>, w: Store) { exists c :: c in closings && w in closings[c] }

  /** Once a close over a backing has begun, each store over it still tracked is in a closing, or left by a cancelled
      one. */
  ghost predicate NoneLeft(stores: seq<Store>, attempts: seq<Store>, closings: map<nat, seq<Store>>,
                           cancelled: set<nat>) {
    forall w :: w in stores && Begun(attempts, w.backing) && w.backing !in cancelled ==> InClosing(closings, w)
  }

  /** The invariant but for `b`, whose last use may have just ended. */
  ghost predicate InvBut(s: Session, b: nat) {
    && Formed(s.tracked, s.stores, s.attempts) && Counted(s.discovering, s.running, s.failed)
    && ClosedUnused(s.attempts, s.repos, s.running, s.failed) && UsesTracked(s.stores, s.repos, s.running)
    && ClosingsOk(s.stores, s.attempts, s.closings) && NoneLeft(s.stores, s.attempts, s.closings, s.cancelled)
    && forall c :: c in s.released && c != b ==> Handled(s, c)
  }

  ghost predicate Inv(s: Session) { forall b :: InvBut(s, b) }

  // ------------------------------------------------------------------------------------------------------
  // Steps
  // ------------------------------------------------------------------------------------------------------

  lemma {:induction false} OverAre(stores: seq<Store>, b: nat)
    ensures forall w :: w in Over(stores, b) <==> w in stores && w.backing == b
    ensures Distinct(stores) ==> Distinct(Over(stores, b))
  {
    if stores != [] {
      OverAre(stores[1..], b);
      assert stores == [stores[0]] + stores[1..];
      if Distinct(stores) { assert stores[0] !in stores[1..]; }
    }
  }

  lemma RunningWith(running: map<nat, Store>, d: nat, w: Store, b: nat)
    requires d !in running
    ensures RunningOver(running[d := w], b) == RunningOver(running, b) + if w.backing == b then {d} else {}
    ensures |RunningOver(running[d := w], b)| == |RunningOver(running, b)| + if w.backing == b then 1 else 0
  {
    assert RunningOver(running[d := w], b) == RunningOver(running, b) + if w.backing == b then {d} else {};
    assert d !in RunningOver(running, b);
  }

  lemma RunningWithout(running: map<nat, Store>, d: nat, b: nat)
    requires d in running
    ensures RunningOver(running, b) == RunningOver(running - {d}, b) + if running[d].backing == b then {d} else {}
    ensures |RunningOver(running, b)| == |RunningOver(running - {d}, b)| + if running[d].backing == b then 1 else 0
  {
    RunningWith(running - {d}, d, running[d], b);
    assert (running - {d})[d := running[d]] == running;
  }

  lemma BeginCounts(s: Session, d: nat, b: nat)
    requires Counted(s.discovering, s.running, s.failed) && Enabled(s, Begin(d, b))
    ensures var s' := Step(s, Begin(d, b));
            && Counted(s'.discovering, s'.running, s'.failed)
            && (forall c: nat :: c != b ==> RunningOver(s'.running, c) == RunningOver(s.running, c))
  {
    hide Begun;
    var s' := Step(s, Begin(d, b));
    forall c: nat ensures |RunningOver(s'.running, c)| == |RunningOver(s.running, c)| + (if c == b then 1 else 0)
                  ensures c != b ==> RunningOver(s'.running, c) == RunningOver(s.running, c)
    {
      RunningWith(s.running, d, Store(|s.tracked|, b), c);
    }
    hide RunningOver;
  }

  lemma BeginKeeps(s: Session, d: nat, b: nat)
    requires Inv(s) && Enabled(s, Begin(d, b))
    ensures Inv(Step(s, Begin(d, b)))
  {
    hide Counted;
    var w := Store(|s.tracked|, b);
    assert InvBut(s, b) && InvBut(s, b + 1);
    BeginCounts(s, d, b);
    assert w !in s.tracked && w !in s.stores;
    DistinctMore(s.stores, w);
    hide RunningOver, Begun, InUse, Distinct;
    assert forall c :: c in s.released ==> Handled(s, c);
  }

  lemma YieldKeeps(s: Session, d: nat, r: nat)
    requires Inv(s) && Enabled(s, Yield(d, r))
    ensures Inv(Step(s, Yield(d, r)))
  {
    var s' := Step(s, Yield(d, r));
    var b := s.running[d].backing;
    assert InvBut(s, b) && InvBut(s, b + 1);
    assert d in RunningOver(s.running, b);
    forall c ensures InUse(s'.repos, c) <==> InUse(s.repos, c) || c == b {
      assert s'.repos[r].backing == b;
      if x :| x in s.repos && s.repos[x].backing == c { assert x in s'.repos && s'.repos[x].backing == c; }
    }
    hide RunningOver, Begun, InUse, Distinct;
    assert forall c :: c in s.released ==> Handled(s, c);
  }

  // ------------------------------------------------------------------------------------------------------
  // Ending uses
  // ------------------------------------------------------------------------------------------------------

  lemma BegunMore(attempts: seq<Store>, w: Store)
    ensures forall b :: Begun(attempts + [w], b) <==> Begun(attempts, b) || w.backing == b
  {
    forall b ensures Begun(attempts + [w], b) <==> Begun(attempts, b) || w.backing == b {
      if Begun(attempts, b) {
        var x :| x in attempts && x.backing == b;
        assert x in attempts + [w];
      }
      if w.backing == b { assert w in attempts + [w]; }
    }
  }

  lemma StartClosesOne(stores: seq<Store>, attempts: seq<Store>, closings: map<nat, seq<Store>>, b: nat, closer: nat,
                       rest: seq<Store>)
    requires Distinct(stores) && !Begun(attempts, b) && closer !in closings && ClosingsOk(stores, attempts, closings)
    requires rest == Over(stores, b) && rest != []
    ensures rest[0].backing == b && rest[0] in stores && rest[0] !in attempts
    ensures ClosingsOk(stores, attempts + [rest[0]], closings[closer := rest])
  {
    var (attempts', closings') := (attempts + [rest[0]], closings[closer := rest]);
    OverFresh(stores, attempts, b);
    assert rest[0] in rest;
    NewClosing(stores, attempts, rest, b);
    hide Distinct, Over, Begun;
    forall c | c in closings ensures ClosingOk(stores, attempts', closings[c]) {
      OtherClosing(stores, attempts, closings[c], rest[0], b);
    }
    hide ClosingOk;
    ClosesApart(stores, attempts, closings, b, closer, rest);
  }

  lemma OverFresh(stores: seq<Store>, attempts: seq<Store>, b: nat)
    requires Distinct(stores) && !Begun(attempts, b)
    ensures Distinct(Over(stores, b))
    ensures forall w :: w in Over(stores, b) ==> w in stores && w.backing == b && w !in attempts
  {
    OverAre(stores, b);
  }

  lemma ClosesApart(stores: seq<Store>, attempts: seq<Store>, closings: map<nat, seq<Store>>, b: nat, closer: nat,
                    rest: seq<Store>)
    requires !Begun(attempts, b) && closer !in closings && ClosingsOk(stores, attempts, closings)
    requires rest != [] && rest[0].backing == b
    ensures Apart(closings[closer := rest])
  {
    hide ClosingOk, Begun;
    var closings' := closings[closer := rest];
    forall c, e, x | c != e && Closes(closings', c, x) ensures !Closes(closings', e, x) {
      if c != closer && e != closer {
        assert Closes(closings, c, x);
        assert Closes(closings', e, x) ==> Closes(closings, e, x);
      } else {
        var o := if c == closer then e else c;
        if Closes(closings, o, b) { BegunByClosing(stores, attempts, closings, o, b); }
      }
    }
  }

  lemma NewClosing(stores: seq<Store>, attempts: seq<Store>, rest: seq<Store>, b: nat)
    requires rest != [] && Distinct(rest) && forall w :: w in rest ==> w in stores && w.backing == b && w !in attempts
    ensures ClosingOk(stores, attempts + [rest[0]], rest)
  {
    assert forall n :: 0 <= n < |rest| ==> rest[n] in rest;
  }

  lemma BegunByClosing(stores: seq<Store>, attempts: seq<Store>, closings: map<nat, seq<Store>>, c: nat, b: nat)
    requires ClosingsOk(stores, attempts, closings) && Closes(closings, c, b)
    ensures Begun(attempts, b)
  {
    assert ClosingOk(stores, attempts, closings[c]);
  }

  lemma StartLeavesNone(stores: seq<Store>, attempts: seq<Store>, closings: map<nat, seq<Store>>, cancelled: set<nat>,
                        b: nat, closer: nat, rest: seq<Store>)
    requires NoneLeft(stores, attempts, closings, cancelled) && closer !in closings
    requires rest == Over(stores, b) && rest != [] && rest[0].backing == b
    ensures NoneLeft(stores, attempts + [rest[0]], closings[closer := rest], cancelled)
  {
    var closings' := closings[closer := rest];
    OverAre(stores, b);
    BegunMore(attempts, rest[0]);
    hide Begun, Over;
    forall w | w in stores && Begun(attempts + [rest[0]], w.backing) && w.backing !in cancelled ensures InClosing(closings', w)
    {
      if w.backing == b {
        assert closer in closings' && w in closings'[closer];
      } else {
        assert InClosing(closings, w);
        var c :| c in closings && w in closings[c];
        assert c in closings' && w in closings'[c];
      }
    }
  }

  lemma OtherClosing(stores: seq<Store>, attempts: seq<Store>, rest: seq<Store>, w: Store, b: nat)
    requires ClosingOk(stores, attempts, rest) && w.backing == b && !Begun(attempts, b)
    ensures ClosingOk(stores, attempts + [w], rest)
  {
    assert rest[0] in attempts;
    assert forall x :: x in rest ==> x.backing == rest[0].backing != b;
  }

  /** A backing freed of its last use is closed, or kept for what still reads through it. */
  lemma StartClosingKeeps(s: Session, b: nat, closer: nat)
    requires InvBut(s, b) && !Begun(s.attempts, b) && RunningOver(s.running, b) == {} && s.failed[b] == 0
    requires closer !in s.closings && Over(s.stores, b) != []
    ensures Inv(StartClosing(s, b, closer))
  {
    hide Distinct, RunningOver, Begun, InUse;
    var rest := Over(s.stores, b);
    if !InUse(s.repos, b) {
      StartClosesOne(s.stores, s.attempts, s.closings, b, closer, rest);
      StartLeavesNone(s.stores, s.attempts, s.closings, s.cancelled, b, closer, rest);
      DistinctMore(s.attempts, rest[0]);
      BegunMore(s.attempts, rest[0]);
    }
    hide Counted, UsesTracked, ClosingsOk, NoneLeft;
    assert forall c :: c in s.released && c != b ==> Handled(s, c);
  }

  /** One repository less. */
  lemma UseDropped(repos: map<nat, Store>, r: nat)
    requires r in repos
    ensures forall c :: c != repos[r].backing ==> (InUse(repos - {r}, c) <==> InUse(repos, c))
    ensures forall c :: InUse(repos - {r}, c) ==> InUse(repos, c)
    ensures InUse(repos, repos[r].backing)
  {
    forall c | c != repos[r].backing && InUse(repos, c) ensures InUse(repos - {r}, c) {
      var x :| x in repos && repos[x].backing == c;
      assert x in repos - {r};
    }
  }

  lemma CloseRepoKeeps(s: Session, r: nat, c: nat)
    requires Inv(s) && Enabled(s, CloseRepo(r, c))
    ensures Inv(Step(s, CloseRepo(r, c)))
  {
    hide Distinct, Begun, InUse, ClosingsOk, NoneLeft, Formed;
    if r in s.repos {
      var b := s.repos[r].backing;
      var s1 := s.(repos := s.repos - {r}, released := s.released + {b});
      assert InvBut(s, b) && InvBut(s, b + 1);
      assert forall x :: x in s.released ==> Handled(s, x);
      UseDropped(s.repos, r);
      OverAre(s.stores, b);
      if b !in s.discovering {
        assert RunningOver(s.running, b) == {};
        assert s.repos[r] in Over(s.stores, b);
        StartClosingKeeps(s1, b, c);
      }
    }
  }

  /** The counts once discovery `d` is gone. */
  lemma EndCounts(s: Session, d: nat, b: nat)
    requires Counted(s.discovering, s.running, s.failed) && d in s.running && s.running[d].backing == b
    ensures Counted(s.discovering, s.running - {d}, s.failed + multiset{b})
    ensures Count(s.discovering, b) > 1 ==>
              Counted(s.discovering[b := Count(s.discovering, b) - 1], s.running - {d}, s.failed)
    ensures Count(s.discovering, b) <= 1 ==>
              && Counted(s.discovering - {b}, s.running - {d}, s.failed)
              && RunningOver(s.running - {d}, b) == {} && s.failed[b] == 0
    ensures forall x: nat :: RunningOver(s.running - {d}, x) <= RunningOver(s.running, x)
    ensures RunningOver(s.running, b) != {}
  {
    forall x: nat ensures |RunningOver(s.running, x)| == |RunningOver(s.running - {d}, x)| + (if x == b then 1 else 0)
                  ensures RunningOver(s.running - {d}, x) <= RunningOver(s.running, x)
    {
      RunningWithout(s.running, d, x);
    }
    assert d in RunningOver(s.running, b);
    hide RunningOver;
    assert Count(s.discovering, b) <= 1 ==> |RunningOver(s.running - {d}, b)| == 0;
  }

  lemma EndKeeps(s: Session, d: nat, clean: bool, c: nat)
    requires Inv(s) && Enabled(s, EndDiscovery(d, clean, c))
    ensures Inv(Step(s, EndDiscovery(d, clean, c)))
  {
    hide Distinct, Begun, InUse, ClosingsOk, NoneLeft, Formed, Counted, RunningOver;
    var b := s.running[d].backing;
    assert InvBut(s, b) && InvBut(s, b + 1);
    assert forall x :: x in s.released ==> Handled(s, x);
    EndCounts(s, d, b);
    OverAre(s.stores, b);
    if clean && Count(s.discovering, b) <= 1 {
      var s2 := s.(running := s.running - {d}, discovering := s.discovering - {b});
      if b in s.closeWhenIdle {
        assert s.running[d] in Over(s.stores, b);
        StartClosingKeeps(s2.(closeWhenIdle := s.closeWhenIdle - {b}), b, c);
      }
    }
  }

  // ------------------------------------------------------------------------------------------------------
  // Closing
  // ------------------------------------------------------------------------------------------------------

  /** A store closed: `closings` goes on with the next store of this one, if any. */
  ghost predicate Continues(closings: map<nat, seq<Store>>, attempts: seq<Store>, closings': map<nat, seq<Store>>,
                            attempts': seq<Store>, c: nat) {
    c in closings && closings[c] != []
    && if |closings[c]| == 1 then closings' == closings - {c} && attempts' == attempts
       else closings' == closings[c := closings[c][1..]] && attempts' == attempts + [closings[c][1]]
  }

  lemma ContinuesOk(stores: seq<Store>, attempts: seq<Store>, closings: map<nat, seq<Store>>, attempts': seq<Store>,
                    closings': map<nat, seq<Store>>, c: nat)
    requires Distinct(stores) && ClosingsOk(stores, attempts, closings)
    requires Continues(closings, attempts, closings', attempts', c)
    ensures ClosingsOk(Removed(stores, closings[c][0]), attempts', closings')
    ensures forall b :: Begun(attempts', b) <==> Begun(attempts, b)
    ensures Begun(attempts, closings[c][0].backing)
  {
    var (rest, stores') := (closings[c], Removed(stores, closings[c][0]));
    RemovedAre(stores, rest[0]);
    assert ClosingOk(stores, attempts, rest);
    if |rest| > 1 {
      assert rest[1] in rest;
      BegunMore(attempts, rest[1]);
    }
    forall e | e in closings' ensures ClosingOk(stores', attempts', closings'[e]) {
      assert ClosingOk(stores, attempts, closings[e]);
      if e == c {
        TailCloses(stores, attempts, rest);
      } else {
        OtherStays(stores, attempts, closings, c, e);
      }
    }
    hide ClosingOk, Begun, Distinct;
    forall e, f, x | e != f && Closes(closings', e, x) ensures !Closes(closings', f, x) {
      assert Closes(closings', e, x) ==> Closes(closings, e, x) by { HeadBacking(stores, attempts, closings, c, e); }
      assert Closes(closings', f, x) ==> Closes(closings, f, x) by { HeadBacking(stores, attempts, closings, c, f); }
    }
  }

  lemma HeadBacking(stores: seq<Store>, attempts: seq<Store>, closings: map<nat, seq<Store>>, c: nat, e: nat)
    requires ClosingsOk(stores, attempts, closings) && c in closings
    ensures e == c && |closings[c]| > 1 ==> closings[c][1].backing == closings[c][0].backing
  {
    assert ClosingOk(stores, attempts, closings[c]);
    if |closings[c]| > 1 { assert closings[c][1] in closings[c]; }
  }

  lemma TailCloses(stores: seq<Store>, attempts: seq<Store>, rest: seq<Store>)
    requires Distinct(stores) && ClosingOk(stores, attempts, rest) && |rest| > 1
    ensures ClosingOk(Removed(stores, rest[0]), attempts + [rest[1]], rest[1..])
  {
    RemovedAre(stores, rest[0]);
    assert forall n :: 0 <= n < |rest| ==> rest[n] in rest;
    assert forall n :: 0 <= n < |rest[1..]| ==> rest[1..][n] == rest[n + 1];
    forall w | w in rest[1..] ensures w in rest && w != rest[0] {
      var n :| 0 <= n < |rest[1..]| && rest[1..][n] == w;
      assert w == rest[n + 1];
    }
  }

  lemma OtherStays(stores: seq<Store>, attempts: seq<Store>, closings: map<nat, seq<Store>>, c: nat, e: nat)
    requires Distinct(stores) && ClosingsOk(stores, attempts, closings) && c in closings && e in closings && c != e
    ensures var (rest, other) := (closings[c], closings[e]);
            && rest != [] && ClosingOk(Removed(stores, rest[0]), attempts, other)
            && (|rest| > 1 ==> ClosingOk(Removed(stores, rest[0]), attempts + [rest[1]], other))
  {
    hide ClosingOk;
    var (rest, other) := (closings[c], closings[e]);
    assert ClosingOk(stores, attempts, rest) && ClosingOk(stores, attempts, other);
    ClosingParts(stores, attempts, rest);
    ClosingParts(stores, attempts, other);
    assert Closes(closings, c, rest[0].backing) && !Closes(closings, e, rest[0].backing);
    StaysWithout(stores, attempts, other, rest[0]);
    if |rest| > 1 { StaysWith(Removed(stores, rest[0]), attempts, other, rest[1]); }
  }

  lemma ClosingParts(stores: seq<Store>, attempts: seq<Store>, rest: seq<Store>)
    requires ClosingOk(stores, attempts, rest)
    ensures rest != [] && forall n :: 0 <= n < |rest| ==> rest[n].backing == rest[0].backing
  {
    assert forall n :: 0 <= n < |rest| ==> rest[n] in rest;
  }

  lemma StaysWithout(stores: seq<Store>, attempts: seq<Store>, other: seq<Store>, w: Store)
    requires Distinct(stores) && ClosingOk(stores, attempts, other) && w.backing != other[0].backing
    ensures ClosingOk(Removed(stores, w), attempts, other)
  {
    RemovedAre(stores, w);
  }

  lemma StaysWith(stores: seq<Store>, attempts: seq<Store>, other: seq<Store>, w: Store)
    requires ClosingOk(stores, attempts, other) && w.backing != other[0].backing
    ensures ClosingOk(stores, attempts + [w], other)
  {
    assert forall n :: 0 <= n < |other| ==> other[n] in other;
  }

  lemma ContinuesLeavesNone(stores: seq<Store>, attempts: seq<Store>, closings: map<nat, seq<Store>>,
                            cancelled: set<nat>,
                            attempts': seq<Store>, closings': map<nat, seq<Store>>, c: nat)
    requires Distinct(stores) && NoneLeft(stores, attempts, closings, cancelled)
    requires Continues(closings, attempts, closings', attempts', c)
    requires forall b :: Begun(attempts', b) <==> Begun(attempts, b)
    ensures NoneLeft(Removed(stores, closings[c][0]), attempts', closings', cancelled)
  {
    hide Begun;
    var (rest, stores') := (closings[c], Removed(stores, closings[c][0]));
    RemovedAre(stores, rest[0]);
    forall w | w in stores' && Begun(attempts', w.backing) && w.backing !in cancelled ensures InClosing(closings', w) {
      assert InClosing(closings, w);
      var e :| e in closings && w in closings[e];
      if e == c {
        assert rest == [rest[0]] + rest[1..];
        assert w in rest[1..];
      }
      assert e in closings' && w in closings'[e];
    }
  }

  /** Nothing uses the store that was closed. */
  lemma DoneUses(stores: seq<Store>, attempts: seq<Store>, repos: map<nat, Store>, running: map<nat, Store>,
                 failed: multiset<nat>, w: Store)
    requires Distinct(stores) && UsesTracked(stores, repos, running) && ClosedUnused(attempts, repos, running, failed)
    requires Begun(attempts, w.backing)
    ensures UsesTracked(Removed(stores, w), repos, running)
  {
    RemovedAre(stores, w);
    forall r | r in repos ensures repos[r] != w {
      assert repos[r] == w ==> InUse(repos, w.backing);
    }
    forall d | d in running ensures running[d] != w {
      assert running[d] == w ==> d in RunningOver(running, w.backing);
    }
  }

  lemma DoneKeeps(s: Session, c: nat)
    requires Inv(s) && Enabled(s, CloseDone(c))
    ensures Inv(Step(s, CloseDone(c)))
  {
    hide ClosingsOk, NoneLeft, Counted, UsesTracked, Begun, InUse, RunningOver, Removed;
    var (rest, s') := (s.closings[c], Step(s, CloseDone(c)));
    assert InvBut(s, 0) && InvBut(s, 1);
    assert forall x :: x in s.released ==> Handled(s, x);
    DoneForms(s, c);
    ContinuesOk(s.stores, s.attempts, s.closings, s'.attempts, s'.closings, c);
    ContinuesLeavesNone(s.stores, s.attempts, s.closings, s.cancelled, s'.attempts, s'.closings, c);
    DoneUses(s.stores, s.attempts, s.repos, s.running, s.failed, rest[0]);
    hide Formed, Distinct;
  }

  lemma RemovalForms(tracked: seq<Store>, stores: seq<Store>, attempts: seq<Store>, w: Store)
    requires Formed(tracked, stores, attempts) && w in attempts
    ensures Formed(tracked, Removed(stores, w), attempts)
  {
    RemovedAre(stores, w);
    hide Removed, Distinct;
  }

  lemma AttemptForms(tracked: seq<Store>, stores: seq<Store>, attempts: seq<Store>, w: Store)
    requires Formed(tracked, stores, attempts) && w in tracked && w !in attempts
    ensures Formed(tracked, stores, attempts + [w])
  {
    DistinctMore(attempts, w);
    hide Distinct;
  }

  lemma DoneForms(s: Session, c: nat)
    requires Inv(s) && Enabled(s, CloseDone(c))
    ensures var s' := Step(s, CloseDone(c)); Formed(s'.tracked, s'.stores, s'.attempts)
  {
    hide Counted, ClosedUnused, NoneLeft, UsesTracked, Handled, Distinct, Formed;
    var rest := s.closings[c];
    assert InvBut(s, 0);
    assert ClosingOk(s.stores, s.attempts, rest);
    hide ClosingsOk, Inv, InvBut, Removed;
    RemovalForms(s.tracked, s.stores, s.attempts, rest[0]);
    if |rest| > 1 {
      assert rest[1] in rest;
      StoresAreTracked(s.tracked, s.stores, s.attempts, rest[1]);
      AttemptForms(s.tracked, Removed(s.stores, rest[0]), s.attempts, rest[1]);
    }
  }

  lemma StoresAreTracked(tracked: seq<Store>, stores: seq<Store>, attempts: seq<Store>, w: Store)
    requires Formed(tracked, stores, attempts) && w in stores
    ensures w in tracked
  {
  }

  lemma CancelKeeps(s: Session, c: nat)
    requires Inv(s) && Enabled(s, CloseCancelled(c))
    ensures Inv(Step(s, CloseCancelled(c)))
  {
    var s' := Step(s, CloseCancelled(c));
    var b := s.closings[c][0].backing;
    assert InvBut(s, b) && InvBut(s, b + 1);
    assert forall x :: x in s.released ==> Handled(s, x);
    CancelApart(s.closings, c);
    assert ClosingOk(s.stores, s.attempts, s.closings[c]);
    hide Begun, Formed, Distinct, Counted, ClosedUnused, UsesTracked;
    forall w | w in s'.stores && Begun(s'.attempts, w.backing) && w.backing !in s'.cancelled
      ensures InClosing(s'.closings, w)
    {
      var e :| e in s.closings && w in s.closings[e];
      assert e in s'.closings && w in s'.closings[e];
    }
  }

  lemma CancelApart(closings: map<nat, seq<Store>>, c: nat)
    requires Apart(closings)
    ensures Apart(closings - {c})
  {
    forall e, f, x | e != f && Closes(closings - {c}, e, x) ensures !Closes(closings - {c}, f, x) {
      assert Closes(closings, e, x);
      assert Closes(closings - {c}, f, x) ==> Closes(closings, f, x);
    }
  }

  /** Every step keeps the invariant. */
  lemma StepKeeps(s: Session, a: Action)
    requires Inv(s) && Enabled(s, a)
    ensures Inv(Step(s, a))
  {
    hide Inv, Step, Enabled;
    match a
    case Begin(d, b) => BeginKeeps(s, d, b);
    case Yield(d, r) => YieldKeeps(s, d, r);
    case EndDiscovery(d, clean, c) => EndKeeps(s, d, clean, c);
    case CloseRepo(r, c) => CloseRepoKeeps(s, r, c);
    case CloseDone(c) => DoneKeeps(s, c);
    case CloseCancelled(c) => CancelKeeps(s, c);
  }

  ghost predicate Run(states: seq<Session>, actions: seq<Action>) {
    && |states| == |actions| + 1 && states[0] == Fresh
    && forall i :: 0 <= i < |actions| ==> Enabled(states[i], actions[i]) && states[i + 1] == Step(states[i], actions[i])
  }

  ghost predicate Reachable(s: Session) {
    exists states, actions :: Run(states, actions) && states[|states| - 1] == s
  }

  lemma {:induction false} RunKeeps(states: seq<Session>, actions: seq<Action>, n: nat)
    requires Run(states, actions) && n < |states|
    ensures Inv(states[n])
  {
    hide Inv, Step, Enabled;
    if n == 0 {
      FreshKeeps();
    } else {
      RunKeeps(states, actions, n - 1);
      StepKeeps(states[n - 1], actions[n - 1]);
    }
  }

  lemma FreshKeeps()
    ensures Inv(Fresh)
  {
    assert forall b :: RunningOver(Fresh.running, b) == {};
  }

  lemma ReachableInv(s: Session)
    requires Reachable(s)
    ensures Inv(s)
  {
    hide Inv, Step, Enabled;
    var states, actions :| Run(states, actions) && states[|states| - 1] == s;
    RunKeeps(states, actions, |states| - 1);
  }

  // ------------------------------------------------------------------------------------------------------
  // What it promises
  // ------------------------------------------------------------------------------------------------------

  /** From the moment a store's close begins, no tracked repository and no running discovery uses what backs it; and no
      store is closed twice. */
  lemma NeverClosedInUse(s: Session, w: Store)
    requires Reachable(s) && w in s.attempts
    ensures forall r :: r in s.repos ==> s.repos[r].backing != w.backing
    ensures forall d :: d in s.running ==> s.running[d].backing != w.backing
    ensures multiset(s.attempts)[w] == 1
  {
    hide Counted, UsesTracked, ClosingsOk, NoneLeft, Handled, Reachable;
    ReachableInv(s);
    assert InvBut(s, 0);
    assert Begun(s.attempts, w.backing);
    assert forall r :: r in s.repos && s.repos[r].backing == w.backing ==> InUse(s.repos, w.backing);
    assert forall d :: d in s.running && s.running[d].backing == w.backing ==> d in RunningOver(s.running, w.backing);
    OnceOnly(s.attempts, w);
  }

  lemma {:induction false} OnceOnly(xs: seq<Store>, x: Store)
    requires Distinct(xs)
    ensures multiset(xs)[x] == if x in xs then 1 else 0
  {
    if xs != [] {
      var n := |xs| - 1;
      assert xs == xs[..n] + [xs[n]];
      OnceOnly(xs[..n], x);
      assert xs[n] !in xs[..n];
    }
  }

  /** With every repository over a backing released and its discoveries over, its stores are being or were closed
      exactly if no discovery's cleanup raised; when one does is `Discoveries.ClosedUnlessCleanupRaised`. */
  lemma ReleasedIsClosed(s: Session, b: nat)
    requires Reachable(s) && b in s.released
    requires forall r :: r in s.repos ==> s.repos[r].backing != b
    requires forall d :: d in s.running ==> s.running[d].backing != b
    ensures (exists w :: w in s.attempts && w.backing == b) <==> s.failed[b] == 0
  {
    hide Formed, UsesTracked, ClosingsOk, NoneLeft, Reachable;
    ReachableInv(s);
    assert InvBut(s, b) && InvBut(s, b + 1);
    assert Handled(s, b);
    assert RunningOver(s.running, b) == {};
    assert b in s.discovering ==> Count(s.discovering, b) > 0;
  }

  // ------------------------------------------------------------------------------------------------------
  // What the callers did
  // ------------------------------------------------------------------------------------------------------

  /** In state `s`, `a` releases a tracked repository over `b`. */
  predicate Releases(s: Session, a: Action, b: nat) {
    a.CloseRepo? && a.repo in s.repos && s.repos[a.repo].backing == b
  }

  /** In state `s`, `a` ends a discovery over `b` whose cleanup raised. */
  predicate EndsBadly(s: Session, a: Action, b: nat) {
    a.EndDiscovery? && !a.clean && a.d in s.running && s.running[a.d].backing == b
  }

  /** In state `s`, `a` cancels a closing over `b`. */
  predicate Cancels(s: Session, a: Action, b: nat) {
    a.CloseCancelled? && Closes(s.closings, a.closer, b)
  }

  /** Discovery `d` began over `b` among the first `n` actions and has not ended since. */
  predicate Discovers(actions: seq<Action>, n: nat, d: nat, b: nat)
    requires n <= |actions|
  {
    exists i :: 0 <= i < n && actions[i] == Begin(d, b)
                && forall j :: i < j < n ==> !(actions[j].EndDiscovery? && actions[j].d == d)
  }

  /** Among the first `n` actions a discovery over `b` yielded repository `r`, which was not released since. */
  predicate Holds(states: seq<Session>, actions: seq<Action>, n: nat, r: nat, b: nat)
    requires n <= |actions| < |states|
  {
    exists i :: 0 <= i < n && YieldsAt(states[i], actions[i], r, b)
                && forall j :: i < j < n ==> !(actions[j].CloseRepo? && actions[j].repo == r)
  }

  predicate YieldsAt(s: Session, a: Action, r: nat, b: nat) {
    a.Yield? && a.repo == r && a.d in s.running && s.running[a.d].backing == b
  }

  lemma StepTells(s: Session, a: Action, b: nat)
    requires Enabled(s, a)
    ensures b in Step(s, a).released <==> b in s.released || Releases(s, a, b)
    ensures Step(s, a).failed[b] > 0 <==> s.failed[b] > 0 || EndsBadly(s, a, b)
    ensures b in Step(s, a).cancelled <==> b in s.cancelled || Cancels(s, a, b)
  {
    hide Over, InUse;
  }

  /** Which repositories were released, which cleanups raised and which closings were cancelled is as the calls made
      it. */
  lemma {:induction false} PastIsTheCalls(states: seq<Session>, actions: seq<Action>, n: nat, b: nat)
    requires Run(states, actions) && n < |states|
    ensures b in states[n].released <==> exists i :: 0 <= i < n && Releases(states[i], actions[i], b)
    ensures states[n].failed[b] > 0 <==> exists i :: 0 <= i < n && EndsBadly(states[i], actions[i], b)
    ensures b in states[n].cancelled <==> exists i :: 0 <= i < n && Cancels(states[i], actions[i], b)
  {
    hide Step, Enabled, Releases, EndsBadly, Cancels;
    if n > 0 {
      PastIsTheCalls(states, actions, n - 1, b);
      StepTells(states[n - 1], actions[n - 1], b);
    }
  }

  lemma StepUses(s: Session, a: Action, d: nat, r: nat, b: nat)
    requires Enabled(s, a)
    ensures (d in Step(s, a).running && Step(s, a).running[d].backing == b)
            <==> a == Begin(d, b)
                 || (d in s.running && s.running[d].backing == b && !(a.EndDiscovery? && a.d == d))
    ensures (r in Step(s, a).repos && Step(s, a).repos[r].backing == b)
            <==> YieldsAt(s, a, r, b)
                 || (r in s.repos && s.repos[r].backing == b && !(a.CloseRepo? && a.repo == r))
  {
    hide Over, InUse;
  }

  /** What is in use is what the callers began and yielded, and have not ended or released. */
  lemma {:induction false} UsesAreTheCalls(states: seq<Session>, actions: seq<Action>, n: nat, d: nat, r: nat, b: nat)
    requires Run(states, actions) && n < |states|
    ensures (d in states[n].running && states[n].running[d].backing == b) <==> Discovers(actions, n, d, b)
    ensures (r in states[n].repos && states[n].repos[r].backing == b) <==> Holds(states, actions, n, r, b)
  {
    hide Step, Enabled, YieldsAt, Discovers, Holds;
    if n == 0 {
      NothingUsed(states, actions, d, r, b);
    } else {
      UsesAreTheCalls(states, actions, n - 1, d, r, b);
      StepUses(states[n - 1], actions[n - 1], d, r, b);
      DiscoversMore(actions, n - 1, d, b);
      HoldsMore(states, actions, n - 1, r, b);
    }
  }

  lemma NothingUsed(states: seq<Session>, actions: seq<Action>, d: nat, r: nat, b: nat)
    requires Run(states, actions)
    ensures d !in states[0].running && r !in states[0].repos
    ensures !Discovers(actions, 0, d, b) && !Holds(states, actions, 0, r, b)
  {
    hide Step, Enabled;
  }

  lemma DiscoversMore(actions: seq<Action>, n: nat, d: nat, b: nat)
    requires n < |actions|
    ensures Discovers(actions, n + 1, d, b)
            <==> actions[n] == Begin(d, b)
                 || (Discovers(actions, n, d, b) && !(actions[n].EndDiscovery? && actions[n].d == d))
  {
    if Discovers(actions, n + 1, d, b) && actions[n] != Begin(d, b) {
      var i :| 0 <= i < n + 1 && actions[i] == Begin(d, b)
               && forall j :: i < j < n + 1 ==> !(actions[j].EndDiscovery? && actions[j].d == d);
      assert i < n;
    }
  }

  lemma HoldsMore(states: seq<Session>, actions: seq<Action>, n: nat, r: nat, b: nat)
    requires n < |actions| < |states|
    ensures Holds(states, actions, n + 1, r, b)
            <==> YieldsAt(states[n], actions[n], r, b)
                 || (Holds(states, actions, n, r, b) && !(actions[n].CloseRepo? && actions[n].repo == r))
  {
    if Holds(states, actions, n + 1, r, b) && !YieldsAt(states[n], actions[n], r, b) {
      var i :| 0 <= i < n + 1 && YieldsAt(states[i], actions[i], r, b)
               && forall j :: i < j < n + 1 ==> !(actions[j].CloseRepo? && actions[j].repo == r);
      assert i < n;
    }
  }

  /** So, told by the calls alone: once a repository over a backing was released and nothing over it is in use any more,
      a close over it has begun exactly if no cleanup of a discovery over it raised. */
  lemma LastReleaseCloses(states: seq<Session>, actions: seq<Action>, n: nat, b: nat)
    requires Run(states, actions) && n < |states|
    requires exists i :: 0 <= i < n && Releases(states[i], actions[i], b)
    requires forall d: nat :: !Discovers(actions, n, d, b)
    requires forall r: nat :: !Holds(states, actions, n, r, b)
    ensures Begun(states[n].attempts, b) <==> !exists i :: 0 <= i < n && EndsBadly(states[i], actions[i], b)
  {
    hide Step, Enabled, Discovers, Holds, Releases, EndsBadly;
    PastIsTheCalls(states, actions, n, b);
    forall d | d in states[n].running ensures states[n].running[d].backing != b {
      UsesAreTheCalls(states, actions, n, d, 0, b);
    }
    forall r | r in states[n].repos ensures states[n].repos[r].backing != b {
      UsesAreTheCalls(states, actions, n, 0, r, b);
    }
    PrefixReaches(states, actions, n);
    ReleasedIsClosed(states[n], b);
  }

  lemma PrefixReaches(states: seq<Session>, actions: seq<Action>, n: nat)
    requires Run(states, actions) && n < |states|
    ensures Reachable(states[n])
  {
    hide Step, Enabled;
    assert Run(states[..n + 1], actions[..n]) && states[..n + 1][|states[..n + 1]| - 1] == states[n];
  }

  lemma InClosingCloses(stores: seq<Store>, attempts: seq<Store>, closings: map<nat, seq<Store>>, c: nat, w: Store)
    requires ClosingsOk(stores, attempts, closings) && c in closings && w in closings[c]
    ensures Closes(closings, c, w.backing)
  {
    assert ClosingOk(stores, attempts, closings[c]);
  }

  /** Once those closings are through, uncancelled, every store ever tracked over the backing was closed exactly once.
      */
  lemma EveryStoreClosedOnce(s: Session, w: Store)
    requires Reachable(s) && w in s.tracked && Begun(s.attempts, w.backing) && w.backing !in s.cancelled
    requires forall c :: !Closes(s.closings, c, w.backing)
    ensures w !in s.stores && multiset(s.attempts)[w] == 1
  {
    hide Counted, UsesTracked, ClosedUnused, Handled, Reachable;
    ReachableInv(s);
    assert InvBut(s, 0);
    if w in s.stores {
      assert InClosing(s.closings, w);
      var c :| c in s.closings && w in s.closings[c];
      InClosingCloses(s.stores, s.attempts, s.closings, c, w);
    }
    OnceOnly(s.attempts, w);
  }

  lemma ReachNext(s: Session, a: Action) returns (t: Session)
    requires Reachable(s) && Enabled(s, a)
    ensures t == Step(s, a) && Reachable(t)
  {
    hide Step, Enabled;
    var states, actions :| Run(states, actions) && states[|states| - 1] == s;
    t := Step(s, a);
    assert Run(states + [t], actions + [a]) && (states + [t])[|states + [t]| - 1] == t;
  }

  /** A discovery whose cleanup raises stays counted: the store of a repository it yielded is not closed when that
      repository, the last user of the store, is. */
  lemma FailedCleanupStrands() returns (s: Session)
    ensures Reachable(s) && s.repos == map[] && s.running == map[] && s.closings == map[] && s.released == {7}
    ensures s.stores == [Store(0, 7)] && s.attempts == []
  {
    hide Reachable;
    s := Fresh;
    assert Reachable(s) by { FreshReached(); }
    s := ReachNext(s, Begin(0, 7));
    s := ReachNext(s, Yield(0, 1));
    s := ReachNext(s, EndDiscovery(0, false, 9));
    s := ReachNext(s, CloseRepo(1, 9));
  }

  lemma FreshReached()
    ensures Reachable(Fresh)
  {
    var actions: seq<Action> := [];
    assert Run([Fresh], actions) && [Fresh][|[Fresh]| - 1] == Fresh;
  }

  // ------------------------------------------------------------------------------------------------------
  // The session itself
  // ------------------------------------------------------------------------------------------------------

  /** `Session`, its methods cut at their `await`s; the ghost fields follow what is under way and what was. */
  class SessionObject {
    var stores: seq<Store>
    var repos: map<nat, Store>
    var discovering: map<nat, nat>
    var closeWhenIdle: set<nat>
    ghost var past: Session

    ghost function View(): Session
      reads this
    {
      past.(stores := stores, repos := repos, discovering := discovering, closeWhenIdle := closeWhenIdle)
    }

    constructor ()
      ensures View() == Fresh && Inv(View())
    {
      stores, repos, discovering, closeWhenIdle, past := [], map[], map[], {}, Fresh;
      new;
      FreshKeeps();
    }

    /** `_discover_from_store` up to its first `await`. */
    method BeginDiscovery(d: nat, wrap: Store)
      requires Inv(View()) && Enabled(View(), Begin(d, wrap.backing)) && wrap.n == |past.tracked|
      modifies this
      ensures View() == Step(old(View()), Begin(d, wrap.backing)) && Inv(View())
    {
      StepKeeps(View(), Begin(d, wrap.backing));
      past := Step(View(), Begin(d, wrap.backing));
      stores := stores + [wrap];
      discovering := discovering[wrap.backing := Count(discovering, wrap.backing) + 1];
    }

    /** A repository found is tracked and yielded. */
    method TrackRepository(d: nat, r: nat, wrap: Store)
      requires Inv(View()) && Enabled(View(), Yield(d, r)) && wrap == past.running[d]
      modifies this
      ensures View() == Step(old(View()), Yield(d, r)) && Inv(View())
    {
      StepKeeps(View(), Yield(d, r));
      past := Step(View(), Yield(d, r));
      repos := repos[r := wrap];
    }

    /** `_close_unshared_store` up to its first `await`; the stores it is to close. */
    method StoresToClose(b: nat, ghost closer: nat) returns (rest: seq<Store>)
      modifies this`past
      ensures View() == StartClosing(old(View()), b, closer)
      ensures rest == if InUse(repos, b) then [] else Over(stores, b)
    {
      past := StartClosing(View(), b, closer);
      rest := [];
      if InUse(repos, b) {
        return;
      }
      for i := 0 to |stores|
        invariant rest + Over(stores[i..], b) == Over(stores, b)
      {
        assert stores[i..][0] == stores[i] && stores[i..][1..] == stores[i + 1..];
        if stores[i].backing == b {
          rest := rest + [stores[i]];
        }
      }
    }

    /** The end of a discovery, its cleanup done; `backing` is what its store is backed by. */
    method EndOfDiscovery(d: nat, backing: nat, clean: bool, ghost closer: nat) returns (toClose: seq<Store>)
      requires Inv(View()) && Enabled(View(), EndDiscovery(d, clean, closer)) && past.running[d].backing == backing
      modifies this
      ensures View() == Step(old(View()), EndDiscovery(d, clean, closer)) && Inv(View())
      ensures toClose == if closer in View().closings then View().closings[closer] else []
    {
      StepKeeps(View(), EndDiscovery(d, clean, closer));
      toClose := [];
      past := past.(running := past.running - {d});
      if !clean {
        past := past.(failed := past.failed + multiset{backing});
        return;
      }
      if Count(discovering, backing) > 1 {
        discovering := discovering[backing := Count(discovering, backing) - 1];
      } else {
        discovering := discovering - {backing};
        if backing in closeWhenIdle {
          closeWhenIdle := closeWhenIdle - {backing};
          toClose := StoresToClose(backing, closer);
        }
      }
    }

    /** `close_repo` once the repository itself is closed. */
    method ReleaseRepository(r: nat, ghost closer: nat) returns (toClose: seq<Store>)
      requires Inv(View()) && Enabled(View(), CloseRepo(r, closer))
      modifies this
      ensures View() == Step(old(View()), CloseRepo(r, closer)) && Inv(View())
      ensures toClose == if closer in View().closings then View().closings[closer] else []
    {
      StepKeeps(View(), CloseRepo(r, closer));
      toClose := [];
      if r in repos {
        var b := repos[r].backing;
        repos := repos - {r};
        past := past.(released := past.released + {b});
        if b in discovering {
          closeWhenIdle := closeWhenIdle + {b};
        } else {
          toClose := StoresToClose(b, closer);
        }
      }
    }
  }
}
