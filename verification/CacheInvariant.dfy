/** What every step of `AsyncKeyedCache` keeps. */
module CacheInvariant {
  import opened Basics
  import opened LruStore
  import opened CacheModel

  // ------------------------------------------------------------------------------------------------------
  // Single flight
  // ------------------------------------------------------------------------------------------------------

  predicate Owns<K(==), V>(tasks: map<nat, Task<K, V>>, t: nat, f: nat) {
    t in tasks && tasks[t] == Fetching(f)
  }

  /** A fetch is pending exactly while it is in flight under its key, and then its owner is running it. */
  ghost predicate OneFlight<K(!new), V(!new)>(inflight: map<K, nat>, futures: seq<Future<K, V>>,
                                              tasks: map<nat, Task<K, V>>) {
    && (forall k :: k in inflight ==> inflight[k] < |futures| && futures[inflight[k]].key == k
                                      && futures[inflight[k]].outcome.Pending?)
    && (forall f :: 0 <= f < |futures| && futures[f].outcome.Pending? ==>
          futures[f].key in inflight && inflight[futures[f].key] == f && Owns(tasks, futures[f].owner, f))
    && (forall t :: t in tasks && tasks[t].Fetching? ==>
          tasks[t].f < |futures| && futures[tasks[t].f].outcome.Pending? && futures[tasks[t].f].owner == t)
  }

  /** The fetch in flight for a key is the latest one of that key. */
  ghost predicate Latest<K(!new), V(!new)>(futures: seq<Future<K, V>>) {
    forall f, g :: 0 <= f < g < |futures| && futures[f].outcome.Pending? ==> futures[g].key != futures[f].key
  }

  /** A joiner waits for a fetch of its key; a caller that a fetch answered got that fetch's answer. */
  predicate TaskMatches<K(==), V(==)>(futures: seq<Future<K, V>>, task: Task<K, V>) {
    match task
    case Joined(f, k, _) => f < |futures| && futures[f].key == k
    case Returned(v, Some(f)) => f < |futures| && futures[f].outcome == Landed(v)
    case Raised(e, Some(f)) => f < |futures| && futures[f].outcome == Failed(e)
    case _ => true
  }

  ghost predicate TasksMatch<K(!new), V(!new)>(futures: seq<Future<K, V>>, tasks: map<nat, Task<K, V>>) {
    forall t :: t in tasks ==> TaskMatches(futures, tasks[t])
  }

  // ------------------------------------------------------------------------------------------------------
  // No stale write-back
  // ------------------------------------------------------------------------------------------------------

  predicate Erases<K(==), V>(e: Event<K, V>, k: K) {
    e.ErasedAll? || (e.Erased? && e.key == k)
  }

  /** No `invalidate` reached `k` between two moments. */
  ghost predicate Untouched<K(!new), V(!new)>(log: seq<Event<K, V>>, k: K, from: nat, to: nat) {
    forall m :: from < m < to && m < |log| ==> !Erases(log[m], k)
  }

  /** An in-flight key is stale exactly when an `invalidate` reached it since its fetch began. */
  ghost predicate StaleMeansErased<K(!new), V(!new)>(inflight: map<K, nat>, stale: set<K>, futures: seq<Future<K, V>>,
                                         log: seq<Event<K, V>>) {
    && stale <= inflight.Keys
    && forall k :: k in inflight && inflight[k] < |futures| ==>
         (k in stale <==> !Untouched(log, k, futures[inflight[k]].born, |log|))
  }

  /** A stored or withheld value is the one its fetch returned, and it was withheld exactly if the key was erased since
      that fetch began. */
  ghost predicate EventTold<K(!new), V(!new)>(futures: seq<Future<K, V>>, log: seq<Event<K, V>>, j: nat)
    requires j < |log|
  {
    match log[j]
    case Began(f, k) => f < |futures| && futures[f].key == k && futures[f].born == j
    case Stored(f, k, v) =>
      f < |futures| && futures[f].key == k && futures[f].outcome == Landed(v) && futures[f].born < j
      && Untouched(log, k, futures[f].born, j)
    case Withheld(f, k, v) =>
      f < |futures| && futures[f].key == k && futures[f].outcome == Landed(v) && futures[f].born < j
      && !Untouched(log, k, futures[f].born, j)
    case _ => true
  }

  ghost predicate LogTold<K(!new), V(!new)>(futures: seq<Future<K, V>>, log: seq<Event<K, V>>) {
    && (forall j :: 0 <= j < |log| ==> EventTold(futures, log, j))
    && (forall f :: 0 <= f < |futures| ==>
          futures[f].born < |log| && log[futures[f].born] == Began(f, futures[f].key))
  }

  // ------------------------------------------------------------------------------------------------------
  // The store
  // ------------------------------------------------------------------------------------------------------

  /** What the log last wrote for `k`, unless it was erased since. */
  function LastWrite<K(==), V>(log: seq<Event<K, V>>, k: K): Option<V> {
    if log == [] then None
    else
      var e := log[|log| - 1];
      if Erases(e, k) then None
      else if (e.Stored? || e.Written?) && e.key == k then Some(e.value)
      else LastWrite(log[..|log| - 1], k)
  }

  /** Every settled entry is its key's last write. */
  ghost predicate StoreIsCurrent<K(!new), V(!new)>(store: Store<K, V>, log: seq<Event<K, V>>) {
    DistinctKeys(store) && forall e :: e in store ==> LastWrite(log, e.key) == Some(e.value)
  }

  /** Nothing written and not erased since is missing. */
  ghost predicate StoreIsComplete<K(!new), V(!new)>(store: Store<K, V>, log: seq<Event<K, V>>) {
    forall k :: LastWrite(log, k).Some? ==> HasKey(store, k)
  }

  ghost predicate Inv<K(!new), V(!new)>(w: World<K, V>) {
    && OneFlight(w.cache.inflight, w.futures, w.tasks) && Latest(w.futures) && TasksMatch(w.futures, w.tasks)
    && StaleMeansErased(w.cache.inflight, w.cache.stale, w.futures, w.log) && LogTold(w.futures, w.log)
    && StoreIsCurrent(w.cache.store, w.log)
  }

  /** A cache without a bound holds every last write. */
  ghost predicate Unbounded<K(!new), V(!new)>(w: World<K, V>) {
    w.cache.maxsize.None? && StoreIsComplete(w.cache.store, w.log)
  }
}
