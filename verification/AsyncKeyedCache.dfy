/** `AsyncKeyedCache` (sdk/asynccache.py) itself: its fields, and its methods cut at their `await`s. Each does to the
    fields what `CacheModel` says of the record of them. */
module AsyncKeyedCaches {
  import opened Basics
  import opened LruStore
  import opened CacheModel

  /** What one turn of `resolve` comes to. */
  datatype Turn<V> = Hit(value: V) | Join(future: nat) | Fetch | NoFetchBound

  class AsyncKeyedCache<K(==, !new), V(!new)> {
    var maxsize: Option<nat>
    var store: Store<K, V>
    var inflight: map<K, nat>
    var stale: set<K>
    var hits: nat
    var misses: nat
    var evictions: nat

    function View(): Cache<K, V>
      reads this
    {
      Cache(maxsize, store, inflight, stale, hits, misses, evictions)
    }

    constructor (maxsize: Option<nat>)
      ensures View() == Initial<K, V>(maxsize).cache
    {
      this.maxsize := maxsize;
      store, inflight, stale, hits, misses, evictions := [], map[], {}, 0, 0, 0;
    }

    /** `lookup`; `None` is its default. */
    method Lookup(key: K) returns (r: Option<V>)
      modifies this
      ensures View() == Look(old(View()), key)
      ensures r == Get(old(store), key)
    {
      r := Get(store, key);
      if r.Some? {
        hits := hits + 1;
        store := Touch(store, key, r.value);
      } else {
        misses := misses + 1;
      }
    }

    method Put(key: K, value: V)
      modifies this
      ensures View() == Write(old(View()), key, value)
    {
      StoreAndEvict(key, value);
    }

    method PutMany(items: seq<Entry<K, V>>)
      modifies this
      ensures View() == WriteMany(old(View()), items)
    {
      for i := 0 to |items|
        invariant View() == old(View()).(store := TouchAll(old(store), items[..i]))
      {
        store := Touch(store, items[i].key, items[i].value);
        assert items[..i + 1][..i] == items[..i];
      }
      assert items[..|items|] == items;
      EvictOldest();
    }

    /** `_store_and_evict` */
    method StoreAndEvict(key: K, value: V)
      modifies this
      ensures View() == Write(old(View()), key, value)
    {
      store := Touch(store, key, value);
      EvictOldest();
    }

    /** `_evict` */
    method EvictOldest()
      modifies this`store, this`evictions
      ensures View() == Evict(old(View()))
    {
      if maxsize.Some? {
        hide Truncate;
        while |store| > maxsize.value
          invariant Truncate(store, maxsize) == Truncate(old(store), maxsize)
          invariant |store| <= |old(store)| && evictions == old(evictions) + |old(store)| - |store|
          invariant |old(store)| <= maxsize.value ==> store == old(store)
        {
          TruncateDropsHead(store, maxsize.value);
          store := store[1..];
          evictions := evictions + 1;
        }
        TruncateFits(store, maxsize);
      }
    }

    /** One turn of `resolve`'s loop, up to its next `await` or its end; `future` is the one a fetch would create. */
    method TakeTurn(key: K, canFetch: bool, future: nat) returns (turn: Turn<V>)
      modifies this
      ensures match turn
              case Hit(v) => Get(old(store), key) == Some(v) && View() == Serve(old(View()), key)
              case Join(f) => Get(old(store), key) == None && key in old(inflight) && f == old(inflight)[key]
                              && View() == old(View())
              case Fetch => Get(old(store), key) == None && key !in old(inflight) && canFetch
                            && View() == Begin(old(View()), key, future)
              case NoFetchBound => Get(old(store), key) == None && key !in old(inflight) && !canFetch
                                   && View() == Missed(old(View()))
    {
      var found := Get(store, key);
      if found.Some? {
        hits := hits + 1;
        store := Touch(store, key, found.value);
        return Hit(found.value);
      }
      if key in inflight {
        return Join(inflight[key]);
      }
      misses := misses + 1;
      if !canFetch {
        return NoFetchBound;
      }
      inflight := inflight[key := future];
      return Fetch;
    }

    /** `_fetch_and_store` after its fetch raised or was cancelled. */
    method FetchFailed(key: K)
      modifies this`inflight, this`stale
      ensures View() == Drop(old(View()), key)
    {
      inflight := inflight - {key};
      stale := stale - {key};
    }

    /** `_fetch_and_store` after its fetch returned. */
    method FetchReturned(key: K, value: V)
      modifies this
      ensures View() == Land(old(View()), key, value)
    {
      if key in stale {
        stale := stale - {key};
      } else {
        StoreAndEvict(key, value);
      }
      inflight := inflight - {key};
    }

    /** `invalidate`; every key when `None`. */
    method Invalidate(key: Option<K>)
      modifies this`store, this`stale
      ensures View() == if key.Some? then Erase(old(View()), key.value) else EraseAll(old(View()))
    {
      if key == None {
        store := [];
        stale := stale + inflight.Keys;
      } else {
        store := Without(store, key.value);
        if key.value in inflight {
          stale := stale + {key.value};
        }
      }
    }

    /** The inner loop of `settle_all`: what is already over is dealt with, up to the first future still pending. */
    method SettleReady(futures: seq<Future<K, V>>, waiting: Settle<K, V>) returns (s: Settle<K, V>)
      ensures s == Advance(futures, waiting)
      ensures s.todo == [] || s.todo[0] >= |futures| || futures[s.todo[0]].outcome.Pending?
    {
      s := waiting;
      while s.todo != []
        invariant Advance(futures, s) == Advance(futures, waiting)
        decreases |s.todo|
      {
        var f := s.todo[0];
        s := s.(awaited := s.awaited + {f});
        if f >= |futures| || futures[f].outcome.Pending? {
          return;
        }
        if futures[f].outcome.Landed? {
          s := s.(landed := s.landed[futures[f].key := futures[f].outcome.value],
          givenBy := s.givenBy[futures[f].key := f]);
        }
        s := s.(todo := s.todo[1..]);
      }
    }

    /** What `settle_all` finds in flight and has not awaited. */
    method StillInFlight(futures: seq<Future<K, V>>, awaited: set<nat>) returns (pending: seq<nat>)
      ensures pending == NotAwaited(View(), futures, awaited, |futures|)
      ensures forall f: nat :: f in pending <==>
                f < |futures| && futures[f].key in inflight && inflight[futures[f].key] == f && f !in awaited
    {
      pending := [];
      for n := 0 to |futures|
        invariant pending == NotAwaited(View(), futures, awaited, n)
        invariant forall f: nat :: f in pending <==>
                    f < n && futures[f].key in inflight && inflight[futures[f].key] == f && f !in awaited
      {
        if futures[n].key in inflight && inflight[futures[n].key] == n && n !in awaited {
          pending := pending + [n];
        }
      }
    }
  }
}
