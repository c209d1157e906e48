/** What the calls on an `AsyncKeyedCache` (sdk/asynccache.py) alone say of its log, its store, its counters and its
    answers. */
module CacheHistory {
  import opened Basics
  import opened LruStore
  import opened CacheModel
  import opened CacheInvariant
  import opened CacheSteps
  import opened CacheTheorems

  // ------------------------------------------------------------------------------------------------------
  // The log
  // ------------------------------------------------------------------------------------------------------

  /** Whether the step from `w` to `w'` begins fetch `f` of `k`. */
  predicate Begins<K(==), V(==)>(w: World<K, V>, w': World<K, V>, f: nat, k: K) {
    |w'.futures| == |w.futures| + 1 && f == |w.futures| && w'.futures[f].key == k
  }

  /** What the step from `w` to `w'` by `a` has to add to the log: the keys that were put or invalidated, the value that
      was fetched, stored or withheld, and the fetch that began. */
  predicate IsTold<K(==), V(==)>(w: World<K, V>, a: Action<K, V>, w': World<K, V>, events: seq<Event<K, V>>)
    requires Enabled(w, a)
  {
    match a
    case CallPut(k, v) => events == [Written(k, v)]
    case CallPutMany(items) =>
      |events| == |items| && forall i :: 0 <= i < |items| ==> events[i] == Written(items[i].key, items[i].value)
    case InvalidateKey(k) => events == [Erased(k)]
    case InvalidateAll => events == [ErasedAll]
    case FetchReturns(t, v) =>
      var (f, k) := (w.tasks[t].f, w.futures[w.tasks[t].f].key);
      events == [Stored(f, k, v)] || events == [Withheld(f, k, v)]
    case CallResolve(_, _, _) => BeginTold(w, w', events)
    case JoinerResumes(_) => BeginTold(w, w', events)
    case _ => events == []
  }

  predicate BeginTold<K(==), V(==)>(w: World<K, V>, w': World<K, V>, events: seq<Event<K, V>>) {
    if |w'.futures| == |w.futures| then events == []
    else |events| == 1 && events[0].Began? && Begins(w, w', events[0].f, events[0].key)
  }

  /** The events of the first `n` steps are what those steps had to tell, `added[i]` that of the `i`-th. */
  ghost predicate LogIs<K(!new), V(!new)>(states: seq<World<K, V>>, actions: seq<Action<K, V>>, n: nat,
                                          added: seq<seq<Event<K, V>>>)
    requires n <= |actions| < |states|
  {
    && |added| == n && states[n].log == Concat(added)
    && forall i :: 0 <= i < n ==> Enabled(states[i], actions[i]) && IsTold(states[i], actions[i], states[i + 1], added[i])
  }

  function Concat<T>(parts: seq<seq<T>>): seq<T> {
    if parts == [] then [] else Concat(parts[..|parts| - 1]) + parts[|parts| - 1]
  }

  lemma StepTold<K(!new), V(!new)>(w: World<K, V>, a: Action<K, V>)
    requires Inv(w) && Enabled(w, a)
    ensures w.log <= Step(w, a).log && IsTold(w, a, Step(w, a), Step(w, a).log[|w.log|..])
  {
    hide Latest, TasksMatch, StaleMeansErased, LogTold, StoreIsCurrent, Write, WriteMany, Erase, EraseAll, Look, Serve;
    hide Advance, NotAwaited, AsMap, Touch, Land, Drop, CacheModel.Begin, Collect, StartSettle;
  }

  /** Over every run the log is what the calls tell. */
  lemma {:induction false} LogIsTheCalls<K(!new), V(!new)>(states: seq<World<K, V>>, actions: seq<Action<K, V>>, n: nat)
    returns (added: seq<seq<Event<K, V>>>)
    requires Run(states, actions) && n < |states|
    ensures LogIs(states, actions, n, added)
  {
    hide Inv, Step, Enabled, IsTold;
    if n == 0 {
      added := [];
      assert |states| == |actions| + 1;
    } else {
      var before := LogIsTheCalls(states, actions, n - 1);
      RunKeeps(states, actions, n - 1);
      RunGoesOn(states, actions, n - 1);
      hide Run, LogIs;
      StepTold(states[n - 1], actions[n - 1]);
      var more := states[n].log[|states[n - 1].log|..];
      added := before + [more];
      LogMore(states, actions, n, before, more);
    }
  }

  lemma LogMore<K(!new), V(!new)>(states: seq<World<K, V>>, actions: seq<Action<K, V>>, n: nat,
                                  before: seq<seq<Event<K, V>>>, more: seq<Event<K, V>>)
    requires 0 < n <= |actions| < |states| && LogIs(states, actions, n - 1, before)
    requires Enabled(states[n - 1], actions[n - 1]) && IsTold(states[n - 1], actions[n - 1], states[n], more)
    requires states[n].log == states[n - 1].log + more
    ensures LogIs(states, actions, n, before + [more])
  {
    hide Enabled, IsTold;
    var added := before + [more];
    assert added[..n - 1] == before;
    assert Concat(added) == Concat(before) + more;
    hide Concat;
    assert forall i :: 0 <= i < n - 1 ==> added[i] == before[i];
  }

  // ------------------------------------------------------------------------------------------------------
  // The store
  // ------------------------------------------------------------------------------------------------------

  /** A cache without a bound holds for each key exactly what was last written for it and not invalidated since. */
  lemma {:induction false} HoldsLastWrites<K(!new), V(!new)>(states: seq<World<K, V>>, actions: seq<Action<K, V>>, n: nat)
    requires Run(states, actions) && n < |states| && states[0] == Initial(None)
    requires forall i :: 0 <= i < n ==> !actions[i].Resize?
    ensures Unbounded(states[n])
    ensures forall k :: Get(states[n].cache.store, k) == LastWrite(states[n].log, k)
  {
    hide Inv, Step, Enabled, LastWrite, Get, StoreIsComplete;
    RunKeeps(states, actions, n);
    if n == 0 {
      InitialInv<K, V>(None);
    } else {
      HoldsLastWrites(states, actions, n - 1);
      RunKeeps(states, actions, n - 1);
      StepKeeps(states[n - 1], actions[n - 1]);
    }
    CurrentAndComplete(states[n]);
  }

  lemma CurrentAndComplete<K(!new), V(!new)>(w: World<K, V>)
    requires Inv(w) && Unbounded(w)
    ensures forall k :: Get(w.cache.store, k) == LastWrite(w.log, k)
  {
    hide OneFlight, Latest, TasksMatch, StaleMeansErased, LogTold, LastWrite, Get;
    forall k ensures Get(w.cache.store, k) == LastWrite(w.log, k) {
      GetFinds(w.cache.store, k);
      if Get(w.cache.store, k).None? {
        assert !HasKey(w.cache.store, k);
      } else {
        assert Entry(k, Get(w.cache.store, k).value) in w.cache.store;
      }
    }
  }

  /** What the steps from the `n`-th to before the `m`-th touch, in order. */
  function TouchedFrom<K(==), V(==)>(states: seq<World<K, V>>, actions: seq<Action<K, V>>, n: nat, m: nat): seq<Entry<K, V>>
    requires n <= m <= |actions| <= |states| && forall i :: n <= i < m ==> Enabled(states[i], actions[i])
  {
    if n == m then [] else TouchedFrom(states, actions, n, m - 1) + Touched(states[m - 1], actions[m - 1])
  }

  /** Between invalidations and resizes a bounded cache goes on from whatever it held: it is what a cache without a bound
      would make of that, cut to its end. */
  lemma {:induction false} RecentSince<K(!new), V(!new)>(states: seq<World<K, V>>, actions: seq<Action<K, V>>, n: nat, m: nat)
    requires Run(states, actions) && n <= m < |states|
    requires states[n].cache.store == Truncate(states[n].cache.store, states[n].cache.maxsize)
    requires forall i :: n <= i < m ==> KeepsBound(actions[i])
    ensures states[m].cache.maxsize == states[n].cache.maxsize
    ensures states[m].cache.store
            == Truncate(TouchAll(states[n].cache.store, TouchedFrom(states, actions, n, m)), states[n].cache.maxsize)
  {
    hide Step, Enabled, Touched, Touch, Truncate, Inv;
    if n == m {
      TouchNone(states[n].cache.store);
    } else {
      var (w, a, s, bound) := (states[m - 1], actions[m - 1], states[n].cache.store, states[n].cache.maxsize);
      RecentSince(states, actions, n, m - 1);
      RunKeeps(states, actions, m - 1);
      RunKeeps(states, actions, n);
      var before := TouchedFrom(states, actions, n, m - 1);
      TruncateTwice(TouchAll(s, before), bound);
      StepTouches(w, a);
      KeysDiffer(states[n]);
      TouchAllKeeps(s, before);
      TruncateTouchAll(TouchAll(s, before), Touched(w, a), bound);
      TouchAllAppends(s, before, Touched(w, a));
    }
  }

  lemma KeysDiffer<K(!new), V(!new)>(w: World<K, V>)
    requires Inv(w)
    ensures DistinctKeys(w.cache.store)
  {
    hide OneFlight, Latest, TasksMatch, StaleMeansErased, LogTold, LastWrite;
  }

  /** `s'` is `s` without what `k` had, the rest in its order. */
  ghost predicate OnlyDrops<K(!new), V(!new)>(s: Store<K, V>, s': Store<K, V>, k: K) {
    && (forall i :: 0 <= i < |s| && s[i].key == k ==> s' == s[..i] + s[i + 1..])
    && ((forall i :: 0 <= i < |s| ==> s[i].key != k) ==> s' == s)
  }

  /** An invalidation drops its key and nothing else, or everything; a new bound changes nothing by itself. */
  lemma InvalidationDrops<K(!new), V(!new)>(states: seq<World<K, V>>, actions: seq<Action<K, V>>, n: nat)
    requires Run(states, actions) && n < |actions|
    ensures var (s, s') := (states[n].cache.store, states[n + 1].cache.store);
            match actions[n]
            case InvalidateKey(k) => OnlyDrops(s, s', k)
            case InvalidateAll => s' == []
            case Resize(m) => s' == s && states[n + 1].cache.maxsize == m
            case _ => states[n + 1].cache.maxsize == states[n].cache.maxsize
  {
    hide Inv, Step, Enabled;
    RunKeeps(states, actions, n);
    RunGoesOn(states, actions, n);
    StepDrops(states[n], actions[n]);
  }

  lemma RunGoesOn<K(!new), V(!new)>(states: seq<World<K, V>>, actions: seq<Action<K, V>>, n: nat)
    requires Run(states, actions) && n < |actions|
    ensures Enabled(states[n], actions[n]) && states[n + 1] == Step(states[n], actions[n])
  {
  }

  lemma StepDrops<K(!new), V(!new)>(w: World<K, V>, a: Action<K, V>)
    requires Inv(w) && Enabled(w, a)
    ensures var (s, s') := (w.cache.store, Step(w, a).cache.store);
            match a
            case InvalidateKey(k) => OnlyDrops(s, s', k)
            case InvalidateAll => s' == []
            case Resize(m) => s' == s && Step(w, a).cache.maxsize == m
            case _ => Step(w, a).cache.maxsize == w.cache.maxsize
  {
    KeysDiffer(w);
    hide Inv, Advance, NotAwaited, AsMap, Touch, TouchAll, Without, Truncate, Collect, StartSettle;
    if a.InvalidateKey? {
      var (s, k) := (w.cache.store, a.key);
      forall i | 0 <= i < |s| && s[i].key == k ensures Without(s, k) == s[..i] + s[i + 1..] { WithoutPresent(s, k, i); }
      if forall i :: 0 <= i < |s| ==> s[i].key != k { WithoutMissing(s, k); }
    }
  }

  // ------------------------------------------------------------------------------------------------------
  // The fetches
  // ------------------------------------------------------------------------------------------------------

  /** In state `w`, `a` ends fetch `f` with `outcome`: its owner's fetch returned or raised, or the owner was cancelled. */
  predicate EndsFetch<K(==), V(==)>(w: World<K, V>, a: Action<K, V>, f: nat, outcome: Outcome<V>) {
    match a
    case FetchReturns(t, v) => t in w.tasks && w.tasks[t] == Fetching(f) && outcome == Landed(v)
    case FetchRaises(t, e) => t in w.tasks && w.tasks[t] == Fetching(f) && outcome == Failed(e)
    case OwnerCancelled(t) => t in w.tasks && w.tasks[t] == Fetching(f) && outcome == Abandoned
    case _ => false
  }

  lemma StepEnds<K(!new), V(!new)>(w: World<K, V>, a: Action<K, V>, f: nat, outcome: Outcome<V>)
    requires Inv(w) && Enabled(w, a) && !outcome.Pending?
    ensures (f < |Step(w, a).futures| && Step(w, a).futures[f].outcome == outcome)
            <==> (f < |w.futures| && w.futures[f].outcome == outcome) || EndsFetch(w, a, f, outcome)
  {
    hide Latest, TasksMatch, StaleMeansErased, LogTold, StoreIsCurrent, Write, WriteMany, Erase, EraseAll, Look, Serve;
    hide Advance, NotAwaited, AsMap, Touch, Land, Drop, CacheModel.Begin, Collect, StartSettle;
  }

  /** A fetch is over, with a value, an error or abandoned, exactly as its owner ended it. */
  lemma {:induction false} OutcomesAreTheOwners<K(!new), V(!new)>(states: seq<World<K, V>>, actions: seq<Action<K, V>>,
                                                                  n: nat, f: nat, outcome: Outcome<V>)
    requires Run(states, actions) && n < |states| && !outcome.Pending?
    ensures (f < |states[n].futures| && states[n].futures[f].outcome == outcome)
            <==> exists i :: 0 <= i < n && EndsFetch(states[i], actions[i], f, outcome)
  {
    hide Inv, Step, Enabled, EndsFetch;
    if n > 0 {
      OutcomesAreTheOwners(states, actions, n - 1, f, outcome);
      RunKeeps(states, actions, n - 1);
      StepEnds(states[n - 1], actions[n - 1], f, outcome);
    }
  }

  // ------------------------------------------------------------------------------------------------------
  // The answers and the counters
  // ------------------------------------------------------------------------------------------------------

  /** In state `w`, `a` asks for a key: in a `lookup`, a `resolve`, or a `resolve` whose joined fetch was abandoned. */
  function Asked<K(==), V(==)>(w: World<K, V>, a: Action<K, V>): Option<K> {
    match a
    case CallLookup(k) => Some(k)
    case CallResolve(_, k, _) => Some(k)
    case JoinerResumes(t) =>
      if t in w.tasks && w.tasks[t].Joined? && w.tasks[t].f < |w.futures| && w.futures[w.tasks[t].f].outcome.Abandoned?
      then Some(w.tasks[t].key) else None
    case _ => None
  }

  /** It is served, joins a fetch that is under way, or misses. */
  predicate Hit<K(==), V(==)>(w: World<K, V>, a: Action<K, V>) {
    Asked(w, a).Some? && Get(w.cache.store, Asked(w, a).value).Some?
  }

  predicate Miss<K(==), V(==)>(w: World<K, V>, a: Action<K, V>) {
    Asked(w, a).Some? && Get(w.cache.store, Asked(w, a).value).None?
    && (a.CallLookup? || Asked(w, a).value !in w.cache.inflight)
  }

  /** How many keys the bound pushes out in a step that writes. */
  function PushedOut<K(==), V(==)>(w: World<K, V>, a: Action<K, V>): int
    requires Enabled(w, a)
  {
    if a.CallPut? || a.CallPutMany?
       || (a.FetchReturns? && w.futures[w.tasks[a.t].f].key !in w.cache.stale) then
      var all := TouchAll(w.cache.store, Touched(w, a));
      if w.cache.maxsize.Some? && |all| > w.cache.maxsize.value then |all| - w.cache.maxsize.value else 0
    else 0
  }

  lemma StepCounts<K(!new), V(!new)>(w: World<K, V>, a: Action<K, V>)
    requires Inv(w) && Enabled(w, a)
    ensures var (c, c') := (w.cache, Step(w, a).cache);
            && c'.hits == c.hits + (if Hit(w, a) then 1 else 0)
            && c'.misses == c.misses + (if Miss(w, a) then 1 else 0)
            && c'.evictions == c.evictions + PushedOut(w, a)
  {
    hide Inv, Advance, NotAwaited, AsMap, Touch, TouchAll, Without, Get, Collect, StartSettle;
    var s := w.cache.store;
    match a
    case FetchReturns(t, v) => TouchOne(s, w.futures[w.tasks[t].f].key, v);
    case CallPut(k, v) => TouchOne(s, k, v);
    case _ =>
  }

  function Hits<K(==), V(==)>(states: seq<World<K, V>>, actions: seq<Action<K, V>>, n: nat): nat
    requires n <= |actions| < |states|
  {
    if n == 0 then 0 else Hits(states, actions, n - 1) + if Hit(states[n - 1], actions[n - 1]) then 1 else 0
  }

  function Misses<K(==), V(==)>(states: seq<World<K, V>>, actions: seq<Action<K, V>>, n: nat): nat
    requires n <= |actions| < |states|
  {
    if n == 0 then 0 else Misses(states, actions, n - 1) + if Miss(states[n - 1], actions[n - 1]) then 1 else 0
  }

  function Evictions<K(==), V(==)>(states: seq<World<K, V>>, actions: seq<Action<K, V>>, n: nat): int
    requires n <= |actions| < |states| && forall i :: 0 <= i < n ==> Enabled(states[i], actions[i])
  {
    if n == 0 then 0 else Evictions(states, actions, n - 1) + PushedOut(states[n - 1], actions[n - 1])
  }

  /** The counters count the keys served, those asked for in vain, and those the bound pushed out. */
  lemma {:induction false} CountersCount<K(!new), V(!new)>(states: seq<World<K, V>>, actions: seq<Action<K, V>>, n: nat)
    requires Run(states, actions) && n < |states|
    ensures states[n].cache.hits == Hits(states, actions, n) && states[n].cache.misses == Misses(states, actions, n)
    ensures states[n].cache.evictions == Evictions(states, actions, n)
  {
    hide Inv, Step, Enabled, Hit, Miss, PushedOut;
    if n > 0 {
      CountersCount(states, actions, n - 1);
      RunKeeps(states, actions, n - 1);
      StepCounts(states[n - 1], actions[n - 1]);
    }
  }

  /** A `resolve` is answered at once with the settled value, joins the fetch under way for its key, begins one of its
      own, or, without a fetch function, raises; in that order of preference. */
  lemma ResolveIsAnswered<K(!new), V(!new)>(states: seq<World<K, V>>, actions: seq<Action<K, V>>, n: nat, t: nat, k: K,
                                            canFetch: bool)
    requires Run(states, actions) && n < |actions| && actions[n] == CallResolve(t, k, canFetch)
    ensures var (w, w') := (states[n], states[n + 1]);
            && t in w'.tasks
            && match w'.tasks[t]
               case Returned(v, via) => Get(w.cache.store, k) == Some(v) && via.None?
               case Joined(f, key, can) =>
                 && Get(w.cache.store, k).None? && key == k && can == canFetch
                 && f < |w.futures| && w.futures[f].key == k && w.futures[f].outcome.Pending?
               case Fetching(f) =>
                 && Get(w.cache.store, k).None? && canFetch && Begins(w, w', f, k) && w'.futures[f].outcome.Pending?
                 && forall g :: 0 <= g < |w.futures| && w.futures[g].key == k ==> !w.futures[g].outcome.Pending?
               case Raised(e, via) =>
                 && Get(w.cache.store, k).None? && !canFetch && e == NoFetch && via.None?
                 && forall g :: 0 <= g < |w.futures| && w.futures[g].key == k ==> !w.futures[g].outcome.Pending?
               case _ => false
  {
    RunKeeps(states, actions, n);
    RunGoesOn(states, actions, n);
    hide Run, Latest, TasksMatch, StaleMeansErased, LogTold, StoreIsCurrent, Touch;
  }

  /** Who fetches gets what its fetch gave, value or error; whatever became of the cache meanwhile. */
  lemma OwnerIsAnswered<K(!new), V(!new)>(states: seq<World<K, V>>, actions: seq<Action<K, V>>, n: nat, t: nat, f: nat)
    requires Run(states, actions) && n < |actions| && t in states[n].tasks && states[n].tasks[t] == Fetching(f)
    ensures t in states[n + 1].tasks
    ensures match actions[n]
            case FetchReturns(u, v) => u == t ==> states[n + 1].tasks[t] == Returned(v, Some(f))
            case FetchRaises(u, e) => u == t ==> states[n + 1].tasks[t] == Raised(e, Some(f))
            case OwnerCancelled(u) => u == t ==> states[n + 1].tasks[t] == Stopped
            case _ => states[n + 1].tasks[t] == Fetching(f)
  {
    RunGoesOn(states, actions, n);
    hide Run, Write, WriteMany, Erase, EraseAll, Look, Serve;
    hide Advance, NotAwaited, AsMap, Touch, Land, Drop, CacheModel.Begin, Collect, StartSettle;
  }
}
