/** Each step of `AsyncKeyedCache` keeps its invariant. */
module CacheSteps {
  import opened Basics
  import opened LruStore
  import opened CacheModel
  import opened CacheInvariant

  // ------------------------------------------------------------------------------------------------------
  // Flights
  // ------------------------------------------------------------------------------------------------------

  lemma FlightBegins<K(!new), V(!new)>(inflight: map<K, nat>, futures: seq<Future<K, V>>, tasks: map<nat, Task<K, V>>,
                                       t: nat,
                           k: K, born: nat)
    requires OneFlight(inflight, futures, tasks) && Latest(futures) && TasksMatch(futures, tasks)
    requires k !in inflight && (t in tasks ==> !tasks[t].Fetching?)
    ensures var futures' := futures + [Future(k, t, born, Pending)];
            var tasks' := tasks[t := Fetching(|futures|)];
            OneFlight(inflight[k := |futures|], futures', tasks') && Latest(futures') && TasksMatch(futures', tasks')
  {
    hide TasksMatch;
    TasksStillMatch(futures, futures + [Future(k, t, born, Pending)], tasks, t, Fetching(|futures|));
  }

  lemma TasksStillMatch<K(!new), V(!new)>(futures: seq<Future<K, V>>, futures': seq<Future<K, V>>,
                                          tasks: map<nat, Task<K, V>>,
                              t: nat, task: Task<K, V>)
    requires TasksMatch(futures, tasks) && |futures| <= |futures'| && TaskMatches(futures', task)
    requires forall f :: 0 <= f < |futures| ==>
               futures'[f].key == futures[f].key
               && (futures[f].outcome.Pending? || futures'[f].outcome == futures[f].outcome)
    ensures TasksMatch(futures', tasks[t := task])
  {
    forall u | u in tasks && u != t ensures TaskMatches(futures', tasks[u]) {
      assert TaskMatches(futures, tasks[u]);
    }
  }

  lemma FlightEnds<K(!new), V(!new)>(inflight: map<K, nat>, futures: seq<Future<K, V>>, tasks: map<nat, Task<K, V>>,
                                     t: nat, f: nat,
                         outcome: Outcome<V>, task: Task<K, V>)
    requires OneFlight(inflight, futures, tasks) && Latest(futures) && TasksMatch(futures, tasks)
    requires Owns(tasks, t, f) && f < |futures| && !outcome.Pending? && !task.Fetching?
    requires TaskMatches(WithOutcome(futures, f, outcome), task)
    ensures var futures' := WithOutcome(futures, f, outcome);
            OneFlight(inflight - {futures[f].key}, futures', tasks[t := task]) && Latest(futures')
            && TasksMatch(futures', tasks[t := task])
  {
    hide TasksMatch, TaskMatches;
    assert futures[f].outcome.Pending? && futures[f].owner == t;
    TasksStillMatch(futures, WithOutcome(futures, f, outcome), tasks, t, task);
  }

  lemma TaskMoves<K(!new), V(!new)>(inflight: map<K, nat>, futures: seq<Future<K, V>>, tasks: map<nat, Task<K, V>>,
                                    t: nat,
                        task: Task<K, V>)
    requires OneFlight(inflight, futures, tasks) && TasksMatch(futures, tasks)
    requires (t in tasks ==> !tasks[t].Fetching?) && !task.Fetching? && TaskMatches(futures, task)
    ensures OneFlight(inflight, futures, tasks[t := task]) && TasksMatch(futures, tasks[t := task])
  {
    hide TasksMatch, TaskMatches;
    TasksStillMatch(futures, futures, tasks, t, task);
  }

  // ------------------------------------------------------------------------------------------------------
  // Staleness and the log
  // ------------------------------------------------------------------------------------------------------

  lemma UntouchedAppends<K(!new), V(!new)>(log: seq<Event<K, V>>, more: seq<Event<K, V>>, k: K, from: nat)
    requires from < |log|
    ensures Untouched(log + more, k, from, |log + more|)
            <==> Untouched(log, k, from, |log|) && forall i :: 0 <= i < |more| ==> !Erases(more[i], k)
  {
    hide Erases;
    assert forall m :: 0 <= m < |log| ==> (log + more)[m] == log[m];
    if Untouched(log + more, k, from, |log + more|) {
      forall i | 0 <= i < |more| ensures !Erases(more[i], k) {
        assert (log + more)[|log| + i] == more[i];
      }
    }
  }

  /** A moment of the past looks the same from later. */
  lemma UntouchedStays<K(!new), V(!new)>(log: seq<Event<K, V>>, more: seq<Event<K, V>>, k: K, from: nat, to: nat)
    requires to <= |log|
    ensures Untouched(log + more, k, from, to) <==> Untouched(log, k, from, to)
  {
    hide Erases;
    assert forall m :: 0 <= m < |log| ==> (log + more)[m] == log[m];
  }

  /** Events that erase nothing leave staleness as it is. */
  lemma StaleAppends<K(!new), V(!new)>(inflight: map<K, nat>, stale: set<K>, futures: seq<Future<K, V>>,
                                       log: seq<Event<K, V>>,
                           more: seq<Event<K, V>>)
    requires StaleMeansErased(inflight, stale, futures, log) && LogTold(futures, log)
    requires forall i :: 0 <= i < |more| ==> !more[i].Erased? && !more[i].ErasedAll?
    ensures StaleMeansErased(inflight, stale, futures, log + more)
  {
    hide Untouched;
    forall k | k in inflight && inflight[k] < |futures|
      ensures k in stale <==> !Untouched(log + more, k, futures[inflight[k]].born, |log + more|)
    {
      UntouchedAppends(log, more, k, futures[inflight[k]].born);
    }
  }

  lemma StaleErased<K(!new), V(!new)>(inflight: map<K, nat>, stale: set<K>, futures: seq<Future<K, V>>,
                                      log: seq<Event<K, V>>, k: K)
    requires StaleMeansErased(inflight, stale, futures, log) && LogTold(futures, log)
    ensures StaleMeansErased(inflight, if k in inflight then stale + {k} else stale, futures, log + [Erased(k)])
  {
    hide Untouched;
    var e: Event<K, V> := Erased(k);
    forall j | j in inflight && inflight[j] < |futures|
      ensures Untouched(log + [e], j, futures[inflight[j]].born, |log| + 1)
              <==> j != k && Untouched(log, j, futures[inflight[j]].born, |log|)
    {
      UntouchedAppends(log, [e], j, futures[inflight[j]].born);
      assert Erases([e][0], j) <==> j == k;
    }
  }

  lemma StaleErasedAll<K(!new), V(!new)>(inflight: map<K, nat>, stale: set<K>, futures: seq<Future<K, V>>,
                                         log: seq<Event<K, V>>)
    requires StaleMeansErased(inflight, stale, futures, log) && LogTold(futures, log)
    ensures StaleMeansErased(inflight, stale + inflight.Keys, futures, log + [ErasedAll])
  {
    hide Untouched;
    forall j | j in inflight && inflight[j] < |futures|
      ensures !Untouched(log + [ErasedAll], j, futures[inflight[j]].born, |log| + 1)
    {
      UntouchedAppends(log, [ErasedAll], j, futures[inflight[j]].born);
      var e: Event<K, V> := ErasedAll;
      assert Erases([e][0], j);
    }
  }

  lemma StaleBegins<K(!new), V(!new)>(inflight: map<K, nat>, stale: set<K>, futures: seq<Future<K, V>>,
                                      log: seq<Event<K, V>>, k: K,
                          t: nat)
    requires StaleMeansErased(inflight, stale, futures, log) && LogTold(futures, log) && k !in inflight
    requires forall j :: j in inflight ==> inflight[j] < |futures|
    ensures StaleMeansErased(inflight[k := |futures|], stale, futures + [Future(k, t, |log|, Pending)],
                             log + [Began(|futures|, k)])
  {
    StaleAppends(inflight, stale, futures, log, [Began(|futures|, k)]);
  }

  lemma StaleEnds<K(!new), V(!new)>(inflight: map<K, nat>, stale: set<K>, futures: seq<Future<K, V>>,
                                    log: seq<Event<K, V>>, f: nat,
                        outcome: Outcome<V>)
    requires StaleMeansErased(inflight, stale, futures, log) && f < |futures|
    ensures var k := futures[f].key;
            StaleMeansErased(inflight - {k}, stale - {k}, WithOutcome(futures, f, outcome), log)
  {
    hide Untouched;
  }

  lemma EventsStillTold<K(!new), V(!new)>(futures: seq<Future<K, V>>, futures': seq<Future<K, V>>,
                                          log: seq<Event<K, V>>,
                              more: seq<Event<K, V>>, j: nat)
    requires j < |log| && EventTold(futures, log, j) && |futures| <= |futures'|
    requires forall f :: 0 <= f < |futures| ==>
               futures'[f].key == futures[f].key && futures'[f].born == futures[f].born
               && (futures[f].outcome.Pending? || futures'[f].outcome == futures[f].outcome)
    ensures EventTold(futures', log + more, j)
  {
    hide Untouched;
    if log[j].Stored? || log[j].Withheld? {
      UntouchedStays(log, more, log[j].key, futures[log[j].f].born, j);
    }
  }

  lemma LogGrows<K(!new), V(!new)>(futures: seq<Future<K, V>>, futures': seq<Future<K, V>>, log: seq<Event<K, V>>,
                       more: seq<Event<K, V>>)
    requires LogTold(futures, log) && |futures| <= |futures'|
    requires forall f :: 0 <= f < |futures| ==>
               futures'[f].key == futures[f].key && futures'[f].born == futures[f].born
               && (futures[f].outcome.Pending? || futures'[f].outcome == futures[f].outcome)
    requires forall f :: |futures| <= f < |futures'| ==>
               futures'[f].born < |log + more| && (log + more)[futures'[f].born] == Began(f, futures'[f].key)
    requires forall j :: |log| <= j < |log + more| ==> EventTold(futures', log + more, j)
    ensures LogTold(futures', log + more)
  {
    hide EventTold;
    forall j | 0 <= j < |log| ensures EventTold(futures', log + more, j) {
      EventsStillTold(futures, futures', log, more, j);
    }
  }

  // ------------------------------------------------------------------------------------------------------
  // The store and its last writes
  // ------------------------------------------------------------------------------------------------------

  lemma LastWriteAppends<K(!new), V(!new)>(log: seq<Event<K, V>>, e: Event<K, V>, k: K)
    ensures LastWrite(log + [e], k) ==
            if Erases(e, k) then None
            else if (e.Stored? || e.Written?) && e.key == k then Some(e.value)
            else LastWrite(log, k)
  {
    assert (log + [e])[..|log|] == log;
  }

  /** A write is logged and its entry touched. */
  lemma CurrentWrites<K(!new), V(!new)>(store: Store<K, V>, log: seq<Event<K, V>>, e: Event<K, V>)
    requires StoreIsCurrent(store, log) && (e.Stored? || e.Written?)
    ensures StoreIsCurrent(Touch(store, e.key, e.value), log + [e])
    ensures StoreIsComplete(store, log) ==> StoreIsComplete(Touch(store, e.key, e.value), log + [e])
  {
    hide LastWrite, Touch;
    var store' := Touch(store, e.key, e.value);
    TouchKeeps(store, e.key, e.value);
    forall x | x in store' ensures LastWrite(log + [e], x.key) == Some(x.value) {
      LastWriteAppends(log, e, x.key);
    }
    if StoreIsComplete(store, log) {
      forall k | LastWrite(log + [e], k).Some? ensures HasKey(store', k) {
        LastWriteAppends(log, e, k);
        StillThere(store, e.key, e.value, k);
      }
    }
  }

  /** Fewer entries are still current. */
  lemma CurrentShrinks<K(!new), V(!new)>(store: Store<K, V>, m: Option<nat>, log: seq<Event<K, V>>)
    requires StoreIsCurrent(store, log)
    ensures StoreIsCurrent(Truncate(store, m), log)
  {
    hide LastWrite;
    TruncateKeeps(store, m);
  }

  lemma CurrentServed<K(!new), V(!new)>(store: Store<K, V>, k: K, log: seq<Event<K, V>>)
    requires StoreIsCurrent(store, log) && Get(store, k).Some?
    ensures StoreIsCurrent(Touch(store, k, Get(store, k).value), log)
    ensures StoreIsComplete(store, log) ==> StoreIsComplete(Touch(store, k, Get(store, k).value), log)
  {
    hide LastWrite, Touch;
    GetFinds(store, k);
    var v := Get(store, k).value;
    TouchKeeps(store, k, v);
    if StoreIsComplete(store, log) {
      forall j | LastWrite(log, j).Some? ensures HasKey(Touch(store, k, v), j) {
        StillThere(store, k, v, j);
      }
    }
  }

  lemma CurrentErased<K(!new), V(!new)>(store: Store<K, V>, k: K, log: seq<Event<K, V>>)
    requires StoreIsCurrent(store, log)
    ensures StoreIsCurrent(Without(store, k), log + [Erased(k)])
    ensures StoreIsComplete(store, log) ==> StoreIsComplete(Without(store, k), log + [Erased(k)])
  {
    hide LastWrite, Without;
    WithoutKeeps(store, k);
    forall x | x in Without(store, k) ensures LastWrite(log + [Erased(k)], x.key) == Some(x.value) {
      LastWriteAppends(log, Erased(k), x.key);
    }
    if StoreIsComplete(store, log) {
      forall j | LastWrite(log + [Erased(k)], j).Some? ensures HasKey(Without(store, k), j) {
        LastWriteAppends(log, Erased(k), j);
        var i :| 0 <= i < |store| && store[i].key == j;
        assert store[i] in Without(store, k);
      }
    }
  }

  lemma CurrentQuiet<K(!new), V(!new)>(store: Store<K, V>, log: seq<Event<K, V>>, e: Event<K, V>)
    requires StoreIsCurrent(store, log) && (e.Began? || e.Withheld?)
    ensures StoreIsCurrent(store, log + [e])
    ensures StoreIsComplete(store, log) ==> StoreIsComplete(store, log + [e])
  {
    hide LastWrite;
    forall x | x in store ensures LastWrite(log + [e], x.key) == Some(x.value) {
      LastWriteAppends(log, e, x.key);
    }
    if StoreIsComplete(store, log) {
      forall k | LastWrite(log + [e], k).Some? ensures HasKey(store, k) {
        LastWriteAppends(log, e, k);
      }
    }
  }

  lemma CurrentEmpty<K(!new), V(!new)>(log: seq<Event<K, V>>)
    ensures StoreIsCurrent([], log + [ErasedAll]) && StoreIsComplete([], log + [ErasedAll])
  {
    forall k ensures LastWrite(log + [ErasedAll], k) == None {
      LastWriteAppends(log, ErasedAll, k);
    }
  }

  lemma {:induction false} CurrentWritesMany<K(!new), V(!new)>(store: Store<K, V>, log: seq<Event<K, V>>,
                    items: seq<Entry<K, V>>)
    requires StoreIsCurrent(store, log)
    ensures StoreIsCurrent(TouchAll(store, items), log + PutEvents(items))
    ensures StoreIsComplete(store, log) ==> StoreIsComplete(TouchAll(store, items), log + PutEvents(items))
  {
    hide StoreIsCurrent, StoreIsComplete, Touch;
    if items == [] {
      assert log + PutEvents(items) == log;
    } else {
      var n := |items| - 1;
      CurrentWritesMany(store, log, items[..n]);
      assert PutEvents(items) == PutEvents(items[..n]) + [Written(items[n].key, items[n].value)];
      assert log + PutEvents(items) == log + PutEvents(items[..n]) + [Written(items[n].key, items[n].value)];
      CurrentWrites(TouchAll(store, items[..n]), log + PutEvents(items[..n]), Written(items[n].key, items[n].value));
    }
  }

  // ------------------------------------------------------------------------------------------------------
  // Whole steps
  // ------------------------------------------------------------------------------------------------------

  lemma EnterKeeps<K(!new), V(!new)>(w: World<K, V>, t: nat, k: K, canFetch: bool)
    requires Inv(w) && (t in w.tasks ==> !w.tasks[t].Fetching?)
    ensures Inv(Enter(w, t, k, canFetch)) && (Unbounded(w) ==> Unbounded(Enter(w, t, k, canFetch)))
  {
    hide OneFlight, Latest, TasksMatch, StaleMeansErased, LogTold, StoreIsCurrent, StoreIsComplete, LastWrite, Touch;
    var (c, futures, log) := (w.cache, w.futures, w.log);
    if Get(c.store, k).Some? {
      TaskMoves(c.inflight, futures, w.tasks, t, Returned(Get(c.store, k).value, None));
      CurrentServed(c.store, k, log);
    } else if k in c.inflight {
      InFlightKey(c.inflight, futures, w.tasks, k);
      TaskMoves(c.inflight, futures, w.tasks, t, Joined(c.inflight[k], k, canFetch));
    } else if !canFetch {
      TaskMoves(c.inflight, futures, w.tasks, t, Raised(NoFetch, None));
    } else {
      FlightBegins(c.inflight, futures, w.tasks, t, k, |log|);
      InFlightInRange(c.inflight, futures, w.tasks);
      StaleBegins(c.inflight, c.stale, futures, log, k, t);
      LogGrows(futures, futures + [Future(k, t, |log|, Pending)], log, [Began(|futures|, k)]);
      CurrentQuiet(c.store, log, Began(|futures|, k));
    }
  }

  lemma InFlightInRange<K(!new), V(!new)>(inflight: map<K, nat>, futures: seq<Future<K, V>>,
                                          tasks: map<nat, Task<K, V>>)
    requires OneFlight(inflight, futures, tasks)
    ensures forall k :: k in inflight ==> inflight[k] < |futures|
  {
  }

  lemma InFlightKey<K(!new), V(!new)>(inflight: map<K, nat>, futures: seq<Future<K, V>>, tasks: map<nat, Task<K, V>>,
                                      k: K)
    requires OneFlight(inflight, futures, tasks) && k in inflight
    ensures inflight[k] < |futures| && futures[inflight[k]].key == k && futures[inflight[k]].outcome.Pending?
  {
  }

  lemma OwnedKey<K(!new), V(!new)>(inflight: map<K, nat>, futures: seq<Future<K, V>>, tasks: map<nat, Task<K, V>>,
                                   t: nat, f: nat)
    requires OneFlight(inflight, futures, tasks) && Owns(tasks, t, f)
    ensures f < |futures| && futures[f].outcome.Pending? && futures[f].owner == t
    ensures futures[f].key in inflight && inflight[futures[f].key] == f
  {
  }

  lemma FinishKeeps<K(!new), V(!new)>(w: World<K, V>, t: nat, f: nat, v: V)
    requires Inv(w) && Owns(w.tasks, t, f) && f < |w.futures|
    ensures Inv(Finish(w, t, f, v)) && (Unbounded(w) ==> Unbounded(Finish(w, t, f, v)))
  {
    hide OneFlight, Latest, TasksMatch, StaleMeansErased, LogTold, StoreIsCurrent, StoreIsComplete, LastWrite, Touch;
    hide EventTold, Untouched;
    var (c, futures, log) := (w.cache, w.futures, w.log);
    var k := futures[f].key;
    var e := if k in c.stale then Withheld(f, k, v) else Stored(f, k, v);
    OwnedKey(c.inflight, futures, w.tasks, t, f);
    FlightEnds(c.inflight, futures, w.tasks, t, f, Landed(v), Returned(v, Some(f)));
    LandedTold(c.inflight, c.stale, futures, log, f, v, e);
    LogGrows(futures, WithOutcome(futures, f, Landed(v)), log, [e]);
    StaleAppends(c.inflight, c.stale, futures, log, [e]);
    StaleEnds(c.inflight, c.stale, futures, log + [e], f, Landed(v));
    if k in c.stale {
      CurrentQuiet(c.store, log, e);
    } else {
      CurrentWrites(c.store, log, e);
      CurrentShrinks(Touch(c.store, k, v), c.maxsize, log + [e]);
      assert c.stale - {k} == c.stale;
    }
  }

  lemma LandedTold<K(!new), V(!new)>(inflight: map<K, nat>, stale: set<K>, futures: seq<Future<K, V>>,
                                     log: seq<Event<K, V>>, f: nat, v: V, e: Event<K, V>)
    requires StaleMeansErased(inflight, stale, futures, log) && LogTold(futures, log)
    requires f < |futures| && futures[f].key in inflight && inflight[futures[f].key] == f
    requires e == if futures[f].key in stale then Withheld(f, futures[f].key, v) else Stored(f, futures[f].key, v)
    ensures EventTold(WithOutcome(futures, f, Landed(v)), log + [e], |log|)
  {
    hide Untouched;
    UntouchedStays(log, [e], futures[f].key, futures[f].born, |log|);
  }

  lemma BreakKeeps<K(!new), V(!new)>(w: World<K, V>, t: nat, f: nat, outcome: Outcome<V>)
    requires Inv(w) && Owns(w.tasks, t, f) && f < |w.futures| && (outcome.Failed? || outcome.Abandoned?)
    ensures Inv(Break(w, t, f, outcome)) && (Unbounded(w) ==> Unbounded(Break(w, t, f, outcome)))
  {
    hide OneFlight, Latest, TasksMatch, StaleMeansErased, LogTold, StoreIsCurrent, StoreIsComplete;
    hide EventTold, Untouched;
    var (c, futures, log) := (w.cache, w.futures, w.log);
    OwnedKey(c.inflight, futures, w.tasks, t, f);
    FlightEnds(c.inflight, futures, w.tasks, t, f, outcome,
               if outcome.Failed? then Raised(outcome.error, Some(f)) else Stopped);
    LogGrows(futures, WithOutcome(futures, f, outcome), log, []);
    assert log + [] == log;
    StaleEnds(c.inflight, c.stale, futures, log, f, outcome);
  }

  /** A task that only waits or ends leaves everything else alone. */
  lemma MoveKeeps<K(!new), V(!new)>(w: World<K, V>, t: nat, task: Task<K, V>)
    requires Inv(w) && (t in w.tasks ==> !w.tasks[t].Fetching?) && !task.Fetching? && TaskMatches(w.futures, task)
    ensures Inv(w.(tasks := w.tasks[t := task]))
    ensures Unbounded(w) ==> Unbounded(w.(tasks := w.tasks[t := task]))
  {
    hide OneFlight, Latest, TasksMatch, StaleMeansErased, LogTold, StoreIsCurrent, StoreIsComplete, TaskMatches;
    TaskMoves(w.cache.inflight, w.futures, w.tasks, t, task);
  }

  lemma LoopKeeps<K(!new), V(!new)>(w: World<K, V>, t: nat, s: Settle<K, V>)
    requires Inv(w) && (t in w.tasks ==> !w.tasks[t].Fetching?)
    ensures Inv(Loop(w, t, s)) && (Unbounded(w) ==> Unbounded(Loop(w, t, s)))
  {
    hide Inv, Unbounded, Advance, NotAwaited, AsMap;
    var w' := Loop(w, t, s);
    MoveKeeps(w, t, w'.tasks[t]);
  }

  lemma WritesKeep<K(!new), V(!new)>(w: World<K, V>, items: seq<Entry<K, V>>)
    requires Inv(w)
    ensures var w' := w.(cache := WriteMany(w.cache, items), log := w.log + PutEvents(items));
            Inv(w') && (Unbounded(w) ==> Unbounded(w'))
  {
    hide OneFlight, Latest, TasksMatch, StaleMeansErased, LogTold, StoreIsCurrent, StoreIsComplete, TouchAll;
    var (c, log, more) := (w.cache, w.log, PutEvents(items));
    LogGrows(w.futures, w.futures, log, more);
    StaleAppends(c.inflight, c.stale, w.futures, log, more);
    CurrentWritesMany(c.store, log, items);
    CurrentShrinks(TouchAll(c.store, items), c.maxsize, log + more);
  }

  lemma WriteIsWriteMany<K(!new), V(!new)>(c: Cache<K, V>, k: K, v: V)
    ensures Write(c, k, v) == WriteMany(c, [Entry(k, v)])
    ensures PutEvents([Entry(k, v)]) == [Written(k, v)]
  {
    var one := [Entry(k, v)];
    assert one[..0] == [] && one[|one| - 1] == Entry(k, v);
    assert TouchAll(c.store, one) == Touch(TouchAll(c.store, one[..0]), k, v);
    assert TouchAll(c.store, one[..0]) == c.store;
  }

  lemma EraseKeeps<K(!new), V(!new)>(w: World<K, V>, k: K)
    requires Inv(w)
    ensures var w' := w.(cache := Erase(w.cache, k), log := w.log + [Erased(k)]);
            Inv(w') && (Unbounded(w) ==> Unbounded(w'))
  {
    hide OneFlight, Latest, TasksMatch, StaleMeansErased, LogTold, StoreIsCurrent, StoreIsComplete, Without;
    LogGrows(w.futures, w.futures, w.log, [Erased(k)]);
    StaleErased(w.cache.inflight, w.cache.stale, w.futures, w.log, k);
    CurrentErased(w.cache.store, k, w.log);
  }

  lemma EraseAllKeeps<K(!new), V(!new)>(w: World<K, V>)
    requires Inv(w)
    ensures var w' := w.(cache := EraseAll(w.cache), log := w.log + [ErasedAll]);
            Inv(w') && (Unbounded(w) ==> Unbounded(w'))
  {
    hide OneFlight, Latest, TasksMatch, StaleMeansErased, LogTold, StoreIsCurrent, StoreIsComplete;
    LogGrows(w.futures, w.futures, w.log, [ErasedAll]);
    StaleErasedAll(w.cache.inflight, w.cache.stale, w.futures, w.log);
    CurrentEmpty(w.log);
  }

  lemma LookKeeps<K(!new), V(!new)>(w: World<K, V>, k: K)
    requires Inv(w)
    ensures var w' := w.(cache := Look(w.cache, k)); Inv(w') && (Unbounded(w) ==> Unbounded(w'))
  {
    hide OneFlight, Latest, TasksMatch, StaleMeansErased, LogTold, StoreIsCurrent, StoreIsComplete, Touch;
    if Get(w.cache.store, k).Some? { CurrentServed(w.cache.store, k, w.log); }
  }

  lemma ResumeKeeps<K(!new), V(!new)>(w: World<K, V>, t: nat)
    requires Inv(w) && Enabled(w, JoinerResumes(t))
    ensures Inv(Resume(w, t, w.tasks[t])) && (Unbounded(w) ==> Unbounded(Resume(w, t, w.tasks[t])))
  {
    hide Inv, Unbounded, Enter;
    var task := w.tasks[t];
    match w.futures[task.f].outcome
    case Landed(v) => MoveKeeps(w, t, Returned(v, Some(task.f)));
    case Failed(e) => MoveKeeps(w, t, Raised(e, Some(task.f)));
    case Abandoned => EnterKeeps(w, t, task.key, task.canFetch);
  }

  lemma ResizeKeeps<K(!new), V(!new)>(w: World<K, V>, m: Option<nat>)
    requires Inv(w)
    ensures Inv(w.(cache := w.cache.(maxsize := m)))
  {
  }

  /** Every step keeps the invariant. */
  lemma StepKeeps<K(!new), V(!new)>(w: World<K, V>, a: Action<K, V>)
    requires Inv(w) && Enabled(w, a)
    ensures Inv(Step(w, a))
    ensures Unbounded(w) && !a.Resize? ==> Unbounded(Step(w, a))
  {
    hide Inv, Unbounded, Enter, Finish, Break, Resume, Loop, Write, WriteMany, Erase, EraseAll, Look, Collect, StartSettle;
    match a
    case CallResolve(t, k, canFetch) => EnterKeeps(w, t, k, canFetch);
    case FetchReturns(t, v) => FinishKeeps(w, t, w.tasks[t].f, v);
    case FetchRaises(t, e) => BreakKeeps(w, t, w.tasks[t].f, Failed(e));
    case OwnerCancelled(t) => BreakKeeps(w, t, w.tasks[t].f, Abandoned);
    case JoinerResumes(t) => ResumeKeeps(w, t);
    case JoinerCancelled(t) => MoveKeeps(w, t, Stopped);
    case CallLookup(k) => LookKeeps(w, k);
    case CallPut(k, v) => WritesKeep(w, [Entry(k, v)]); WriteIsWriteMany(w.cache, k, v);
    case CallPutMany(items) => WritesKeep(w, items);
    case InvalidateKey(k) => EraseKeeps(w, k);
    case InvalidateAll => EraseAllKeeps(w);
    case Resize(m) => ResizeKeeps(w, m);
    case CallSettle(t) => LoopKeeps(w, t, StartSettle(w));
    case SettlerResumes(t) => LoopKeeps(w, t, Collect(w.futures, w.tasks[t].wait));
    case SettlerCancelled(t) => MoveKeeps(w, t, Stopped);
  }

  lemma {:induction false} RunKeeps<K(!new), V(!new)>(states: seq<World<K, V>>, actions: seq<Action<K, V>>, n: nat)
    requires Run(states, actions) && n < |states|
    ensures Inv(states[n])
  {
    hide Inv, Step, Enabled;
    if n == 0 {
      var m :| states[0] == Initial(m);
      InitialInv<K, V>(m);
    } else {
      RunKeeps(states, actions, n - 1);
      StepKeeps(states[n - 1], actions[n - 1]);
    }
  }

  lemma InitialInv<K(!new), V(!new)>(m: Option<nat>)
    ensures Inv(Initial<K, V>(m)) && (m.None? ==> Unbounded(Initial<K, V>(m)))
  {
  }

  lemma ReachableInv<K(!new), V(!new)>(w: World<K, V>)
    requires Reachable(w)
    ensures Inv(w)
  {
    hide Inv, Step, Enabled;
    var states: seq<World<K, V>>, actions: seq<Action<K, V>> :| Run(states, actions) && states[|states| - 1] == w;
    RunKeeps(states, actions, |states| - 1);
  }
}
