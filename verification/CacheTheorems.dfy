/** What `AsyncKeyedCache` promises, over every run. */
module CacheTheorems {
  import opened Basics
  import opened LruStore
  import opened CacheModel
  import opened CacheInvariant
  import opened CacheSteps

  // ------------------------------------------------------------------------------------------------------
  // Fetches
  // ------------------------------------------------------------------------------------------------------

  /** At most one caller fetches a key at a time. */
  lemma SingleFlight<K(!new), V(!new)>(w: World<K, V>, t: nat, u: nat)
    requires Reachable(w)
    requires t in w.tasks && w.tasks[t].Fetching? && u in w.tasks && w.tasks[u].Fetching?
    ensures w.tasks[t].f < |w.futures| && w.tasks[u].f < |w.futures|
    ensures w.futures[w.tasks[t].f].key == w.futures[w.tasks[u].f].key ==> t == u
  {
    hide Reachable, Latest, TasksMatch, StaleMeansErased, LogTold, StoreIsCurrent;
    ReachableInv(w);
  }

  /** `_stale` holds only in-flight keys: those an `invalidate` reached since their fetch began. */
  lemma StaleKeys<K(!new), V(!new)>(w: World<K, V>, k: K)
    requires Reachable(w)
    ensures k in w.cache.inflight ==>
              && w.cache.inflight[k] < |w.futures| && w.futures[w.cache.inflight[k]].key == k
              && (k in w.cache.stale <==>
                    exists m :: w.futures[w.cache.inflight[k]].born < m < |w.log| && Erases(w.log[m], k))
    ensures k !in w.cache.inflight ==> k !in w.cache.stale
  {
    hide Reachable, Latest, TasksMatch, LogTold, StoreIsCurrent, Erases;
    ReachableInv(w);
  }

  /** No stale write-back: a fetched value is stored exactly if no `invalidate` reached its key since its fetch began,
      and is withheld otherwise. */
  lemma NoStaleWriteBack<K(!new), V(!new)>(w: World<K, V>, j: nat)
    requires Reachable(w) && j < |w.log|
    requires w.log[j].Stored? || w.log[j].Withheld?
    ensures var (f, k, v) := (w.log[j].f, w.log[j].key, w.log[j].value);
            && f < |w.futures| && w.futures[f].outcome == Landed(v) && w.futures[f].born < j
            && w.log[w.futures[f].born] == Began(f, k)
            && (w.log[j].Stored? <==> forall m :: w.futures[f].born < m < j ==> !Erases(w.log[m], k))
  {
    hide Reachable, OneFlight, Latest, TasksMatch, StaleMeansErased, StoreIsCurrent, Erases;
    ReachableInv(w);
    assert EventTold(w.futures, w.log, j);
  }

  /** Event `j` wrote `v` for `k`. */
  predicate WroteAt<K(==), V(==)>(log: seq<Event<K, V>>, k: K, v: V, j: nat) {
    j < |log| && (log[j].Stored? || log[j].Written?) && log[j].key == k && log[j].value == v
  }

  lemma {:induction false} LastWriteAt<K(!new), V(!new)>(log: seq<Event<K, V>>, k: K)
    requires LastWrite(log, k).Some?
    ensures exists j: nat :: WroteAt(log, k, LastWrite(log, k).value, j) && Untouched(log, k, j, |log|)
  {
    var n := |log| - 1;
    var e := log[n];
    if (e.Stored? || e.Written?) && e.key == k {
      assert WroteAt(log, k, e.value, n);
    } else {
      LastWriteAt(log[..n], k);
      var j: nat :| WroteAt(log[..n], k, LastWrite(log, k).value, j) && Untouched(log[..n], k, j, n);
      forall m | j < m < |log| ensures !Erases(log[m], k) {
        if m < n { assert log[..n][m] == log[m]; }
      }
      assert WroteAt(log, k, LastWrite(log, k).value, j);
    }
  }

  /** Nothing fetched or put before the last `invalidate` of a key is ever served for it: what the cache holds was put,
      or comes from a fetch begun, since then. */
  lemma HitsAreFresh<K(!new), V(!new)>(w: World<K, V>, k: K, v: V)
    requires Reachable(w) && Get(w.cache.store, k) == Some(v)
    ensures exists j: nat :: WroteAt(w.log, k, v, j) && (forall m :: j < m < |w.log| ==> !Erases(w.log[m], k))
                        && (w.log[j].Stored? ==>
                              && w.log[j].f < |w.futures| && w.futures[w.log[j].f].born < j
                              && forall m :: w.futures[w.log[j].f].born < m < |w.log| ==> !Erases(w.log[m], k))
  {
    hide Reachable, OneFlight, Latest, TasksMatch, StaleMeansErased, LastWrite, Erases;
    ReachableInv(w);
    GetFinds(w.cache.store, k);
    LastWriteAt(w.log, k);
    var j: nat :| WroteAt(w.log, k, v, j) && Untouched(w.log, k, j, |w.log|);
    assert EventTold(w.futures, w.log, j);
    if w.log[j].Stored? {
      assert w.log[w.futures[w.log[j].f].born] == Began(w.log[j].f, k);
      forall m | w.futures[w.log[j].f].born < m < |w.log| ensures !Erases(w.log[m], k) {
        if m == j { NotAnErasure(w.log[j], k); }
      }
    }
  }

  lemma NotAnErasure<K(!new), V(!new)>(e: Event<K, V>, k: K)
    requires e.Stored?
    ensures !Erases(e, k)
  {
  }

  /** A joiner waits for its key's fetch, which is over or has an owner still running it; nobody waits for nothing. */
  lemma JoinersHaveAnOwner<K(!new), V(!new)>(w: World<K, V>, t: nat)
    requires Reachable(w) && t in w.tasks && w.tasks[t].Joined?
    ensures w.tasks[t].f < |w.futures| && w.futures[w.tasks[t].f].key == w.tasks[t].key
    ensures Enabled(w, JoinerResumes(t))
            || Owns(w.tasks, w.futures[w.tasks[t].f].owner, w.tasks[t].f)
  {
    hide Reachable, Latest, StaleMeansErased, LogTold, StoreIsCurrent;
    ReachableInv(w);
    assert TaskMatches(w.futures, w.tasks[t]);
  }

  /** A caller that waited gets what the fetch it joined gave its owner, value or error; a cancelled owner sends it back
      to the cache, to a later fetch, or to a fetch of its own. */
  lemma JoinerIsAnswered<K(!new), V(!new)>(w: World<K, V>, t: nat)
    requires Reachable(w) && Enabled(w, JoinerResumes(t))
    ensures var (task, task') := (w.tasks[t], Step(w, JoinerResumes(t)).tasks[t]);
            match w.futures[task.f].outcome
            case Landed(v) => task' == Returned(v, Some(task.f))
            case Failed(e) => task' == Raised(e, Some(task.f))
            case Abandoned =>
              (task'.Returned? && Get(w.cache.store, task.key) == Some(task'.value))
              || (task'.Joined? && task'.key == task.key && task'.f < |w.futures|
                  && w.futures[task'.f].outcome.Pending?)
              || (task'.Fetching? && task.canFetch && task.key !in w.cache.inflight)
              || (task' == Raised(NoFetch, None) && !task.canFetch)
            case Pending => false
  {
    hide Reachable, Latest, StaleMeansErased, LogTold, StoreIsCurrent, TasksMatch;
    ReachableInv(w);
  }

  // ------------------------------------------------------------------------------------------------------
  // Recency and eviction
  // ------------------------------------------------------------------------------------------------------

  /** The entries a step touches, in order. */
  function Touched<K(==), V>(w: World<K, V>, a: Action<K, V>): seq<Entry<K, V>>
    requires Enabled(w, a)
  {
    match a
    case CallResolve(_, k, _) => Served(w.cache.store, k)
    case CallLookup(k) => Served(w.cache.store, k)
    case JoinerResumes(t) =>
      if w.futures[w.tasks[t].f].outcome.Abandoned? then Served(w.cache.store, w.tasks[t].key) else []
    case FetchReturns(t, v) =>
      var k := w.futures[w.tasks[t].f].key;
      if k in w.cache.stale then [] else [Entry(k, v)]
    case CallPut(k, v) => [Entry(k, v)]
    case CallPutMany(items) => items
    case _ => []
  }

  function Served<K(==), V>(s: Store<K, V>, k: K): seq<Entry<K, V>> {
    if Get(s, k).Some? then [Entry(k, Get(s, k).value)] else []
  }

  function TouchedBy<K(==), V>(states: seq<World<K, V>>, actions: seq<Action<K, V>>, n: nat): seq<Entry<K, V>>
    requires n <= |actions| <= |states| && forall i :: 0 <= i < n ==> Enabled(states[i], actions[i])
  {
    if n == 0 then [] else TouchedBy(states, actions, n - 1) + Touched(states[n - 1], actions[n - 1])
  }

  predicate KeepsBound<K, V>(a: Action<K, V>) { !a.InvalidateKey? && !a.InvalidateAll? && !a.Resize? }

  /** Without an `invalidate` and with a fixed `maxsize`, the store is always the `maxsize` most recently touched keys
      in recency order, each with its latest value: what a cache without a bound would hold, cut to its end. */
  lemma {:induction false} MostRecentlyTouched<K(!new), V(!new)>(states: seq<World<K, V>>, actions: seq<Action<K, V>>,
                                                                  n: nat)
    requires Run(states, actions) && n < |states|
    requires forall i :: 0 <= i < n ==> KeepsBound(actions[i])
    ensures states[n].cache.maxsize == states[0].cache.maxsize
    ensures states[n].cache.store == Truncate(TouchAll([], TouchedBy(states, actions, n)), states[0].cache.maxsize)
    ensures InRecencyOrder(TouchedBy(states, actions, n), TouchAll([], TouchedBy(states, actions, n)))
  {
    hide Step, Enabled, Touched, Touch;
    TouchesAreInRecencyOrder(TouchedBy(states, actions, n));
    hide Truncate;
    if n == 0 {
      var m :| states[0] == Initial(m);
      TruncateNothing<K, V>(m);
    } else {
      var (w, a) := (states[n - 1], actions[n - 1]);
      MostRecentlyTouched(states, actions, n - 1);
      RunKeeps(states, actions, n - 1);
      var before := TouchedBy(states, actions, n - 1);
      var m := states[0].cache.maxsize;
      TruncateTwice(TouchAll([], before), m);
      StepTouches(w, a);
      TouchAllKeeps([], before);
      TruncateTouchAll(TouchAll([], before), Touched(w, a), m);
      TouchAllAppends([], before, Touched(w, a));
    }
  }

  lemma TruncateNothing<K(!new), V(!new)>(m: Option<nat>)
    ensures Truncate<K, V>([], m) == []
  {
  }

  lemma StepTouches<K(!new), V(!new)>(w: World<K, V>, a: Action<K, V>)
    requires Inv(w) && Enabled(w, a) && KeepsBound(a)
    requires w.cache.store == Truncate(w.cache.store, w.cache.maxsize)
    ensures Step(w, a).cache.maxsize == w.cache.maxsize
    ensures Step(w, a).cache.store == Truncate(TouchAll(w.cache.store, Touched(w, a)), w.cache.maxsize)
  {
    hide Inv, Advance, NotAwaited, AsMap, Truncate, Touch;
    var s := w.cache.store;
    TouchNone(s);
    match a
    case CallResolve(_, k, _) => ServedFits(w, k);
    case CallLookup(k) => ServedFits(w, k);
    case JoinerResumes(t) => ServedFits(w, w.tasks[t].key);
    case FetchReturns(t, v) => TouchOne(s, w.futures[w.tasks[t].f].key, v);
    case CallPut(k, v) => TouchOne(s, k, v);
    case _ =>
  }

  lemma TouchNone<K(!new), V(!new)>(s: Store<K, V>)
    ensures TouchAll(s, []) == s
  {
  }

  lemma TouchOne<K(!new), V(!new)>(s: Store<K, V>, k: K, v: V)
    ensures TouchAll(s, [Entry(k, v)]) == Touch(s, k, v)
  {
    var one := [Entry(k, v)];
    assert one[..|one| - 1] == [];
    TouchNone(s);
  }

  /** A served entry takes no room. */
  lemma ServedFits<K(!new), V(!new)>(w: World<K, V>, k: K)
    requires Inv(w) && w.cache.store == Truncate(w.cache.store, w.cache.maxsize)
    ensures Get(w.cache.store, k).Some? ==>
              var v := Get(w.cache.store, k).value;
              TouchAll(w.cache.store, [Entry(k, v)]) == Touch(w.cache.store, k, v)
              && Truncate(Touch(w.cache.store, k, v), w.cache.maxsize) == Touch(w.cache.store, k, v)
  {
    hide OneFlight, Latest, TasksMatch, StaleMeansErased, LogTold, Touch;
    if Get(w.cache.store, k).Some? {
      GetFinds(w.cache.store, k);
      TouchOne(w.cache.store, k, Get(w.cache.store, k).value);
      TouchKeeps(w.cache.store, k, Get(w.cache.store, k).value);
    }
  }

  // ------------------------------------------------------------------------------------------------------
  // put_many
  // ------------------------------------------------------------------------------------------------------

  function Puts<K(==), V>(c: Cache<K, V>, items: seq<Entry<K, V>>): Cache<K, V> {
    if items == [] then c
    else var last := items[|items| - 1]; Write(Puts(c, items[..|items| - 1]), last.key, last.value)
  }

  /** `put_many` leaves what folding `put` over the items leaves, in the same order, with no more evictions: unless
      there are no items and the store is over a lowered bound, which only `put_many` then applies. */
  lemma PutManyIsPuts<K(!new), V(!new)>(c: Cache<K, V>, items: seq<Entry<K, V>>)
    requires DistinctKeys(c.store)
    ensures WriteMany(c, items).store == Puts(c, items).store
            <==> items != [] || c.maxsize.None? || |c.store| <= c.maxsize.value
    ensures WriteMany(c, items).evictions <= Puts(c, items).evictions
            <==> items != [] || c.maxsize.None? || |c.store| <= c.maxsize.value
    ensures WriteMany(c, items).(store := [], evictions := 0) == Puts(c, items).(store := [], evictions := 0)
  {
    PutsHold(c, items);
    hide TouchAll;
    if items == [] { TouchNone(c.store); }
  }

  /** Folding `put` evicts at least what it leaves out of a store without a bound. */
  lemma {:induction false} PutsHold<K(!new), V(!new)>(c: Cache<K, V>, items: seq<Entry<K, V>>)
    requires DistinctKeys(c.store)
    ensures var (p, all) := (Puts(c, items), TouchAll(c.store, items));
            && p == c.(store := p.store, evictions := p.evictions)
            && p.store == (if items == [] then c.store else Truncate(all, c.maxsize))
            && DistinctKeys(all) && DistinctKeys(p.store)
            && p.evictions >= c.evictions + |all| - |p.store|
  {
    hide Touch, DistinctKeys;
    if items != [] {
      var n := |items| - 1;
      var last := items[n];
      PutsHold(c, items[..n]);
      var (p, all) := (Puts(c, items[..n]), TouchAll(c.store, items[..n]));
      TouchAllKeeps(c.store, items);
      TouchKeeps(all, last.key, last.value);
      TouchKeeps(p.store, last.key, last.value);
      TruncateKeeps(Touch(p.store, last.key, last.value), c.maxsize);
      if n > 0 {
        TruncateTouch(all, last.key, last.value, c.maxsize);
        SuffixHas(all, c.maxsize, last.key);
      }
    }
  }

  lemma SuffixHas<K(!new), V(!new)>(s: Store<K, V>, m: Option<nat>, k: K)
    ensures HasKey(Truncate(s, m), k) ==> HasKey(s, k)
  {
    if HasKey(Truncate(s, m), k) {
      var t := Truncate(s, m);
      var i :| 0 <= i < |t| && t[i].key == k;
      assert s[|s| - |t| + i].key == k;
    }
  }
}
