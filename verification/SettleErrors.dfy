/** The errors that `settle_all` (sdk/asynccache.py) returns, told from what its task waited for. */
module SettleErrors {
  import opened Basics
  import opened LruStore
  import opened CacheModel
  import opened CacheInvariant
  import opened CacheSteps
  import opened SettleAll

  /** Settler `t` waits for fetch `g`, which is not over. */
  predicate WaitsFor<K(==), V(==)>(w: World<K, V>, t: nat, g: nat) {
    && t in w.tasks && w.tasks[t].Settling? && w.tasks[t].wait.todo != [] && w.tasks[t].wait.todo[0] == g
    && g < |w.futures| && w.futures[g].outcome.Pending?
  }

  /** Among the first `n` states there is one in which `t` waits for `g`. */
  predicate Waited<K(==), V(==)>(states: seq<World<K, V>>, n: nat, t: nat, g: nat)
    requires n <= |states|
  {
    exists i :: 0 <= i < n && WaitsFor(states[i], t, g)
  }

  /** The errors of those of the fetches that failed, in their order. */
  function ErrorsOf<K, V>(futures: seq<Future<K, V>>, fs: seq<nat>): seq<Error> {
    if fs == [] then []
    else
      var f := fs[|fs| - 1];
      ErrorsOf(futures, fs[..|fs| - 1])
      + if f < |futures| && futures[f].outcome.Failed? then [futures[f].outcome.error] else []
  }

  /** The fetch that settler `t` is parked on, if it is. */
  function ParkedOn<K, V>(w: World<K, V>, t: nat): Option<nat> {
    if t in w.tasks && w.tasks[t].Settling? && w.tasks[t].wait.todo != [] then Some(w.tasks[t].wait.todo[0]) else None
  }

  /** The fetches settler `t` resumed from in the first `n` steps, in that order. */
  function Resumed<K(==), V(==)>(states: seq<World<K, V>>, actions: seq<Action<K, V>>, n: nat, t: nat): seq<nat>
    requires n <= |actions| < |states|
  {
    if n == 0 then []
    else
      Resumed(states, actions, n - 1, t)
      + if actions[n - 1] == SettlerResumes(t) && ParkedOn(states[n - 1], t).Some? then [ParkedOn(states[n - 1], t).value]
        else []
  }

  // ------------------------------------------------------------------------------------------------------
  // One step
  // ------------------------------------------------------------------------------------------------------

  lemma {:induction false} AdvanceErrors<K(!new), V(!new)>(futures: seq<Future<K, V>>, s: Settle<K, V>)
    ensures Advance(futures, s).errors == s.errors && s.awaited <= Advance(futures, s).awaited
    ensures Advance(futures, s).todo != [] ==>
              var f := Advance(futures, s).todo[0];
              f in s.todo && f in Advance(futures, s).awaited && (f < |futures| ==> futures[f].outcome.Pending?)
    ensures forall f: nat :: f in Advance(futures, s).todo ==> f in s.todo
    decreases |s.todo|
  {
    if s.todo != [] {
      var f := s.todo[0];
      var s' := s.(awaited := s.awaited + {f});
      assert s.todo == [f] + s.todo[1..];
      if f >= |futures| || futures[f].outcome == Pending {
      } else if futures[f].outcome.Landed? {
        AdvanceErrors(futures, Take(s', f, futures[f].key, futures[f].outcome.value).(todo := s.todo[1..]));
      } else {
        AdvanceErrors(futures, s'.(todo := s.todo[1..]));
      }
    }
  }

  /** A turn of `settle_all` adds no error, parks only on a fetch that is not over, and takes up nothing twice. */
  lemma LoopErrors<K(!new), V(!new)>(w: World<K, V>, t: nat, s: Settle<K, V>)
    requires Inv(w) && QueueOk(w.futures, s.todo)
    ensures match Loop(w, t, s).tasks[t]
            case Settling(s') =>
              && s'.errors == s.errors && s'.todo != [] && WaitsFor(Loop(w, t, s), t, s'.todo[0])
              && forall g: nat :: Behind(s, g) ==> Behind(s', g)
            case Settled(_, errors, _) => errors == s.errors
            case _ => false
  {
    hide Latest, TasksMatch, StaleMeansErased, LogTold, StoreIsCurrent, AsMap, InFlight, NotAwaited;
    AdvanceErrors(w.futures, s);
    var s1 := Advance(w.futures, s);
    if s1.todo == [] {
      var more := NotAwaited(w.cache, w.futures, s1.awaited, |w.futures|);
      NotAwaitedIs(w.cache, w.futures, s1.awaited, |w.futures|);
      if more != [] {
        assert more[0] in more;
        FlightsArePending(w, more[0]);
      }
    }
  }

  lemma FlightsArePending<K(!new), V(!new)>(w: World<K, V>, f: nat)
    requires Inv(w) && InFlight(w.cache, w.futures, f)
    ensures w.futures[f].outcome.Pending?
  {
    hide Latest, TasksMatch, StaleMeansErased, LogTold, StoreIsCurrent;
  }

  /** What settler `t` has to show for the fetches `fs` it resumed from. */
  ghost predicate Tells<K(!new), V(!new)>(w: World<K, V>, t: nat, fs: seq<nat>) {
    && (forall g :: g in fs ==> Done(w.futures, g))
    && (forall i, j :: 0 <= i < j < |fs| ==> fs[i] != fs[j])
    && (t !in w.tasks ==> fs == [])
    && (t in w.tasks && w.tasks[t].Settling? ==>
          w.tasks[t].wait.errors == ErrorsOf(w.futures, fs) && forall g :: g in fs ==> Behind(w.tasks[t].wait, g))
    && (t in w.tasks && w.tasks[t].Settled? ==> w.tasks[t].errors == ErrorsOf(w.futures, fs))
  }

  lemma {:induction false} ErrorsStay<K(!new), V(!new)>(futures: seq<Future<K, V>>, futures': seq<Future<K, V>>,
                                                        fs: seq<nat>)
    requires FuturesGrow(futures, futures') && forall g :: g in fs ==> Done(futures, g)
    ensures ErrorsOf(futures', fs) == ErrorsOf(futures, fs) && forall g :: g in fs ==> Done(futures', g)
  {
    if fs != [] {
      ErrorsStay(futures, futures', fs[..|fs| - 1]);
      assert fs[|fs| - 1] in fs;
    }
  }

  lemma ErrorsMore<K(!new), V(!new)>(futures: seq<Future<K, V>>, fs: seq<nat>, f: nat)
    ensures ErrorsOf(futures, fs + [f])
            == ErrorsOf(futures, fs)
               + if f < |futures| && futures[f].outcome.Failed? then [futures[f].outcome.error] else []
  {
    assert (fs + [f])[..|fs|] == fs;
  }

  /** Another's step leaves what the settler tells. */
  lemma OthersTell<K(!new), V(!new)>(w: World<K, V>, a: Action<K, V>, t: nat, fs: seq<nat>)
    requires Inv(w) && Enabled(w, a) && !Settles(a, t) && Tells(w, t, fs)
    ensures Tells(Step(w, a), t, fs)
  {
    hide Inv, Step, Enabled, FuturesGrow;
    StepGrows(w, a);
    ErrorsStay(w.futures, Step(w, a).futures, fs);
    TasksStay(w, a, t);
  }

  lemma TasksStay<K(!new), V(!new)>(w: World<K, V>, a: Action<K, V>, t: nat)
    requires Enabled(w, a)
    ensures t in w.tasks ==> t in Step(w, a).tasks
  {
    hide Write, WriteMany, Erase, EraseAll, Look, Serve;
    hide Advance, NotAwaited, AsMap, Touch, Land, Drop, Begin, Collect, StartSettle;
  }

  /** Its call. */
  lemma CallTells<K(!new), V(!new)>(w: World<K, V>, t: nat, fs: seq<nat>)
    requires Inv(w) && Enabled(w, CallSettle(t)) && Tells(w, t, fs)
    ensures Tells(Step(w, CallSettle(t)), t, fs) && fs == []
    ensures ParkedOn(Step(w, CallSettle(t)), t).Some? ==>
              WaitsFor(Step(w, CallSettle(t)), t, ParkedOn(Step(w, CallSettle(t)), t).value)
    ensures t in Step(w, CallSettle(t)).tasks
  {
    hide Inv, Loop, AsMap;
    LoopErrors(w, t, StartSettle(w));
    LoopMovesOnly(w, CallSettle(t), t);
    TaskThere(w, CallSettle(t), t);
  }

  /** Its resumption from `f`. */
  lemma ResumeTells<K(!new), V(!new)>(w: World<K, V>, t: nat, fs: seq<nat>)
    requires Inv(w) && SettlersParked(w) && Enabled(w, SettlerResumes(t)) && Tells(w, t, fs)
    ensures ParkedOn(w, t).Some? && t in Step(w, SettlerResumes(t)).tasks
    ensures Tells(Step(w, SettlerResumes(t)), t, fs + [ParkedOn(w, t).value])
    ensures ParkedOn(Step(w, SettlerResumes(t)), t).Some? ==>
              WaitsFor(Step(w, SettlerResumes(t)), t, ParkedOn(Step(w, SettlerResumes(t)), t).value)
  {
    hide Inv, Loop, EntryKept;
    var (s, w') := (w.tasks[t].wait, Step(w, SettlerResumes(t)));
    var f := s.todo[0];
    assert Parked(w.futures, s);
    HeadIsOnce(w.futures, s.todo);
    ErrorsMore(w.futures, fs, f);
    var s' := Collect(w.futures, s);
    assert QueueOk(w.futures, s'.todo) && Behind(s', f);
    assert forall g :: g in fs ==> g != f && Behind(s', g);
    assert s'.errors == ErrorsOf(w.futures, fs + [f]);
    LoopErrors(w, t, s');
    LoopMovesOnly(w, SettlerResumes(t), t);
    TaskThere(w, SettlerResumes(t), t);
    hide Collect, Gathered;
  }

  // ------------------------------------------------------------------------------------------------------
  // Runs
  // ------------------------------------------------------------------------------------------------------

  /** The fetches resumed from were waited for, and what was waited for was resumed from or is still waited for, unless
      the settler was cancelled. */
  ghost predicate WaitsTold<K(!new), V(!new)>(states: seq<World<K, V>>, actions: seq<Action<K, V>>, n: nat, t: nat)
    requires n <= |actions| < |states|
  {
    var fs := Resumed(states, actions, n, t);
    && (forall g :: g in fs ==> Waited(states, n + 1, t, g))
    && (ParkedOn(states[n], t).Some? ==> Waited(states, n + 1, t, ParkedOn(states[n], t).value))
    && (t !in states[n].tasks || states[n].tasks[t].Settling? || states[n].tasks[t].Settled? ==>
          forall g: nat :: Waited(states, n + 1, t, g) ==> g in fs || ParkedOn(states[n], t) == Some(g))
  }

  lemma WaitedMore<K(!new), V(!new)>(states: seq<World<K, V>>, n: nat, t: nat, g: nat)
    requires n < |states|
    ensures Waited(states, n + 1, t, g) <==> Waited(states, n, t, g) || WaitsFor(states[n], t, g)
  {
    hide WaitsFor;
    if Waited(states, n, t, g) {
      var i :| 0 <= i < n && WaitsFor(states[i], t, g);
      assert 0 <= i < n + 1;
    }
    if WaitsFor(states[n], t, g) { assert 0 <= n < n + 1; }
  }

  lemma {:induction false} RunTells<K(!new), V(!new)>(states: seq<World<K, V>>, actions: seq<Action<K, V>>, n: nat, t: nat)
    requires Run(states, actions) && n < |states|
    ensures Tells(states[n], t, Resumed(states, actions, n, t)) && WaitsTold(states, actions, n, t)
  {
    hide Inv, SettlersParked, Step, Enabled, Tells, WaitsTold;
    if n == 0 {
      NothingTold(states, actions, t);
    } else {
      RunTells(states, actions, n - 1, t);
      RunParked(states, actions, n - 1);
      ResumedMore(states, actions, n, t);
      var (w, a, fs) := (states[n - 1], actions[n - 1], Resumed(states, actions, n - 1, t));
      assert fs + [] == fs;
      if a == SettlerResumes(t) {
        ResumeTells(w, t, fs);
      } else if a == CallSettle(t) {
        CallTells(w, t, fs);
      } else {
        OthersTell(w, a, t, fs);
      }
      WaitsToldStep(states, actions, n, t);
    }
  }

  lemma NothingTold<K(!new), V(!new)>(states: seq<World<K, V>>, actions: seq<Action<K, V>>, t: nat)
    requires Run(states, actions)
    ensures Tells(states[0], t, Resumed(states, actions, 0, t)) && WaitsTold(states, actions, 0, t)
  {
    hide Step, Enabled;
  }

  lemma WaitsToldStep<K(!new), V(!new)>(states: seq<World<K, V>>, actions: seq<Action<K, V>>, n: nat, t: nat)
    requires 0 < n <= |actions| < |states| && WaitsTold(states, actions, n - 1, t)
    requires Inv(states[n - 1]) && SettlersParked(states[n - 1]) && Enabled(states[n - 1], actions[n - 1])
    requires states[n] == Step(states[n - 1], actions[n - 1])
    requires Tells(states[n - 1], t, Resumed(states, actions, n - 1, t))
    ensures WaitsTold(states, actions, n, t)
  {
    hide Inv, SettlersParked, Step, Tells, Resumed, Waited;
    var (w, a, w') := (states[n - 1], actions[n - 1], states[n]);
    forall g: nat ensures Waited(states, n + 1, t, g) <==> Waited(states, n, t, g) || WaitsFor(w', t, g) {
      WaitedMore(states, n, t, g);
    }
    ResumedMore(states, actions, n, t);
    if a == SettlerResumes(t) {
      ResumeTells(w, t, Resumed(states, actions, n - 1, t));
    } else if a == CallSettle(t) {
      CallTells(w, t, Resumed(states, actions, n - 1, t));
    } else {
      StepGrows(w, a);
      TasksStay(w, a, t);
      OtherTasks(w, a, t);
    }
  }

  lemma ResumedMore<K(!new), V(!new)>(states: seq<World<K, V>>, actions: seq<Action<K, V>>, n: nat, t: nat)
    requires 0 < n <= |actions| < |states|
    ensures Resumed(states, actions, n, t)
            == Resumed(states, actions, n - 1, t)
               + if actions[n - 1] == SettlerResumes(t) && ParkedOn(states[n - 1], t).Some?
                 then [ParkedOn(states[n - 1], t).value] else []
  {
  }

  /** A settler that another's step finds is that settler still, or cancelled. */
  lemma OtherTasks<K(!new), V(!new)>(w: World<K, V>, a: Action<K, V>, t: nat)
    requires Enabled(w, a) && !Settles(a, t)
    ensures t in w.tasks && w.tasks[t].Settling? && Step(w, a).tasks[t] != w.tasks[t] ==> Step(w, a).tasks[t].Stopped?
    ensures t in w.tasks && w.tasks[t].Settled? ==> Step(w, a).tasks[t] == w.tasks[t]
  {
    hide Write, WriteMany, Erase, EraseAll, Look, Serve;
    hide Advance, NotAwaited, AsMap, Touch, Land, Drop, Begin, Collect, StartSettle;
  }

  /** Over every ending settler: its errors are exactly those of the fetches it waited for and that failed, each once, in
      the order it waited. A fetch that had failed when the settler reached it was not waited for. */
  lemma ErrorsExactly<K(!new), V(!new)>(states: seq<World<K, V>>, actions: seq<Action<K, V>>, n: nat, t: nat)
    requires EndsSettler(states, actions, n, t)
    ensures var (w, fs) := (states[n + 1], Resumed(states, actions, n + 1, t));
            && w.tasks[t].errors == ErrorsOf(w.futures, fs)
            && (forall i, j :: 0 <= i < j < |fs| ==> fs[i] != fs[j])
            && (forall g: nat :: g in fs <==> Waited(states, n + 2, t, g))
  {
    hide Step, Enabled, Resumed, Waited;
    RunTells(states, actions, n + 1, t);
  }
}
