/** `AsyncKeyedCache` (sdk/asynccache.py) as a machine whose steps run from one `await` to the next. Tasks are callers
    of `resolve` and `settle_all`; any of them may take the next step, be cancelled while it waits, or meet a `put`, an
    `invalidate` or a new `maxsize` made by anyone else. */
module CacheModel {
  import opened Basics
  import opened LruStore

  datatype Cache<K, V> = Cache(
    maxsize: Option<nat>,
    store: Store<K, V>,
    inflight: map<K, nat>,
    stale: set<K>,
    hits: nat,
    misses: nat,
    evictions: nat)

  // ------------------------------------------------------------------------------------------------------
  // What each synchronous stretch does to the cache
  // ------------------------------------------------------------------------------------------------------

  function Evict<K, V>(c: Cache<K, V>): Cache<K, V> {
    var kept := Truncate(c.store, c.maxsize);
    c.(store := kept, evictions := c.evictions + (|c.store| - |kept|))
  }

  /** `put`, `_store_and_evict` */
  function Write<K(==), V>(c: Cache<K, V>, k: K, v: V): Cache<K, V> {
    Evict(c.(store := Touch(c.store, k, v)))
  }

  /** `put_many` */
  function WriteMany<K(==), V>(c: Cache<K, V>, items: seq<Entry<K, V>>): Cache<K, V> {
    Evict(c.(store := TouchAll(c.store, items)))
  }

  /** A settled entry served: counted, and most recently used. */
  function Serve<K(==), V>(c: Cache<K, V>, k: K): Cache<K, V>
    requires Get(c.store, k).Some?
  {
    c.(store := Touch(c.store, k, Get(c.store, k).value), hits := c.hits + 1)
  }

  function Missed<K, V>(c: Cache<K, V>): Cache<K, V> { c.(misses := c.misses + 1) }

  /** `lookup`'s effect. */
  function Look<K(==), V>(c: Cache<K, V>, k: K): Cache<K, V> {
    if Get(c.store, k).Some? then Serve(c, k) else Missed(c)
  }

  /** A fetch begins: the future that joins callers. */
  function Begin<K(==), V>(c: Cache<K, V>, k: K, f: nat): Cache<K, V> {
    Missed(c).(inflight := c.inflight[k := f])
  }

  /** A fetch returned: its value is stored unless an `invalidate` came meanwhile. */
  function Land<K(==), V>(c: Cache<K, V>, k: K, v: V): Cache<K, V> {
    var c' := if k in c.stale then c.(stale := c.stale - {k}) else Write(c, k, v);
    c'.(inflight := c'.inflight - {k})
  }

  /** A fetch raised or was cancelled. */
  function Drop<K(==), V>(c: Cache<K, V>, k: K): Cache<K, V> {
    c.(inflight := c.inflight - {k}, stale := c.stale - {k})
  }

  /** `invalidate(key)` */
  function Erase<K(==), V>(c: Cache<K, V>, k: K): Cache<K, V> {
    c.(store := Without(c.store, k), stale := if k in c.inflight then c.stale + {k} else c.stale)
  }

  /** `invalidate()` */
  function EraseAll<K(==), V>(c: Cache<K, V>): Cache<K, V> {
    c.(store := [], stale := c.stale + c.inflight.Keys)
  }

  // ------------------------------------------------------------------------------------------------------
  // The event loop around it
  // ------------------------------------------------------------------------------------------------------

  datatype Error = NoFetch | FromFetch(id: nat)

  datatype Outcome<V> = Pending | Landed(value: V) | Failed(error: Error) | Abandoned

  /** The future of one fetch; `born` is when it began, as a position in the log. */
  datatype Future<K, V> = Future(key: K, owner: nat, born: nat, outcome: Outcome<V>)

  /** `settle_all` under way, waiting for the future `todo[0]`. `start`, `clean` and `entry` record the log, whether
      nothing was stale, and the fetches in flight, at its call; `givenBy` records which fetch gave each `landed` value. */
  datatype Settle<K, V> = Settle(
    held: map<K, V>,
    landed: map<K, V>,
    errors: seq<Error>,
    awaited: set<nat>,
    todo: seq<nat>,
    givenBy: map<K, nat>,
    start: nat,
    clean: bool,
    entry: set<nat>)

  /** Where a task is: its own fetch, waiting for another's, over, or in `settle_all`. `via` is the fetch that answered;
      `None` for a settled entry. */
  datatype Task<K, V> =
    | Fetching(f: nat)
    | Joined(f: nat, key: K, canFetch: bool)
    | Returned(value: V, via: Option<nat>)
    | Raised(error: Error, via: Option<nat>)
    | Stopped
    | Settling(wait: Settle<K, V>)
    | Settled(result: map<K, V>, errors: seq<Error>, last: Settle<K, V>)

  /** What happened to keys: fetches begun, fetched values stored or withheld as stale, values put, keys erased. */
  datatype Event<K, V> =
    | Began(f: nat, key: K)
    | Stored(f: nat, key: K, value: V)
    | Withheld(f: nat, key: K, value: V)
    | Written(key: K, value: V)
    | Erased(key: K)
    | ErasedAll

  datatype World<K, V> = World(
    cache: Cache<K, V>,
    futures: seq<Future<K, V>>,
    tasks: map<nat, Task<K, V>>,
    log: seq<Event<K, V>>)

  function Initial<K, V>(maxsize: Option<nat>): World<K, V> {
    World(Cache(maxsize, [], map[], {}, 0, 0, 0), [], map[], [])
  }

  /** One turn of `resolve`'s loop, up to its next `await` or its end. */
  function Enter<K(==), V>(w: World<K, V>, t: nat, k: K, canFetch: bool): World<K, V> {
    var c := w.cache;
    if Get(c.store, k).Some? then
      w.(cache := Serve(c, k), tasks := w.tasks[t := Returned(Get(c.store, k).value, None)])
    else if k in c.inflight then
      w.(tasks := w.tasks[t := Joined(c.inflight[k], k, canFetch)])
    else if !canFetch then
      w.(cache := Missed(c), tasks := w.tasks[t := Raised(NoFetch, None)])
    else
      var f := |w.futures|;
      World(Begin(c, k, f), w.futures + [Future(k, t, |w.log|, Pending)], w.tasks[t := Fetching(f)],
            w.log + [Began(f, k)])
  }

  function WithOutcome<K, V>(futures: seq<Future<K, V>>, f: nat, outcome: Outcome<V>): seq<Future<K, V>>
    requires f < |futures|
  {
    futures[f := futures[f].(outcome := outcome)]
  }

  /** The owner's fetch returned `v`. */
  function Finish<K(==), V>(w: World<K, V>, t: nat, f: nat, v: V): World<K, V>
    requires f < |w.futures|
  {
    var k := w.futures[f].key;
    World(Land(w.cache, k, v), WithOutcome(w.futures, f, Landed(v)), w.tasks[t := Returned(v, Some(f))],
          w.log + [if k in w.cache.stale then Withheld(f, k, v) else Stored(f, k, v)])
  }

  /** The owner's fetch raised, or the owner was cancelled. */
  function Break<K(==), V>(w: World<K, V>, t: nat, f: nat, outcome: Outcome<V>): World<K, V>
    requires f < |w.futures|
  {
    World(Drop(w.cache, w.futures[f].key), WithOutcome(w.futures, f, outcome),
          w.tasks[t := if outcome.Failed? then Raised(outcome.error, Some(f)) else Stopped], w.log)
  }

  /** A joiner resumes once its future is done: an abandoned fetch sends it round the loop again. */
  function Resume<K(==), V>(w: World<K, V>, t: nat, task: Task<K, V>): World<K, V>
    requires task.Joined? && task.f < |w.futures|
  {
    match w.futures[task.f].outcome
    case Landed(v) => w.(tasks := w.tasks[t := Returned(v, Some(task.f))])
    case Failed(e) => w.(tasks := w.tasks[t := Raised(e, Some(task.f))])
    case Abandoned => Enter(w, t, task.key, task.canFetch)
    case Pending => w
  }

  // ------------------------------------------------------------------------------------------------------
  // settle_all
  // ------------------------------------------------------------------------------------------------------

  function AsMap<K(==), V>(s: Store<K, V>): map<K, V> {
    if s == [] then map[] else AsMap(s[1..])[s[0].key := s[0].value]
  }

  predicate InFlight<K(==), V>(c: Cache<K, V>, futures: seq<Future<K, V>>, f: nat) {
    f < |futures| && futures[f].key in c.inflight && c.inflight[futures[f].key] == f
  }

  /** The first `n` futures' ids that are in flight and not yet awaited. A dictionary keeps insertion order, and fetches
      enter `_inflight` in the order they begin. */
  function NotAwaited<K(==), V>(c: Cache<K, V>, futures: seq<Future<K, V>>, awaited: set<nat>, n: nat): seq<nat>
    requires n <= |futures|
  {
    if n == 0 then []
    else
      NotAwaited(c, futures, awaited, n - 1)
      + if InFlight(c, futures, n - 1) && n - 1 !in awaited then [n - 1] else []
  }

  function Take<K(==), V>(s: Settle<K, V>, f: nat, k: K, v: V): Settle<K, V> {
    s.(landed := s.landed[k := v], givenBy := s.givenBy[k := f])
  }

  /** The inner loop, up to the first future that is still pending. */
  function Advance<K(==), V>(futures: seq<Future<K, V>>, s: Settle<K, V>): Settle<K, V>
    decreases |s.todo|
  {
    if s.todo == [] then s
    else
      var f := s.todo[0];
      var s' := s.(awaited := s.awaited + {f});
      if f >= |futures| || futures[f].outcome == Pending then s'
      else if futures[f].outcome.Landed? then
        Advance(futures, Take(s', f, futures[f].key, futures[f].outcome.value).(todo := s.todo[1..]))
      else Advance(futures, s'.(todo := s.todo[1..]))
  }

  /** The outer loop, up to its next wait or its end. What it finds in flight is pending. */
  function Loop<K(==), V>(w: World<K, V>, t: nat, s: Settle<K, V>): World<K, V> {
    var s1 := Advance(w.futures, s);
    if s1.todo != [] then w.(tasks := w.tasks[t := Settling(s1)])
    else
      var more := NotAwaited(w.cache, w.futures, s1.awaited, |w.futures|);
      if more == [] then
        w.(tasks := w.tasks[t := Settled(s1.held + AsMap(w.cache.store) + s1.landed, s1.errors, s1)])
      else w.(tasks := w.tasks[t := Settling(s1.(todo := more, awaited := s1.awaited + {more[0]}))])
  }

  function StartSettle<K(==), V>(w: World<K, V>): Settle<K, V> {
    Settle(AsMap(w.cache.store), map[], [], {}, [], map[], |w.log|, w.cache.stale == {}, w.cache.inflight.Values)
  }

  /** What the future waited for adds. */
  function Collect<K(==), V>(futures: seq<Future<K, V>>, s: Settle<K, V>): Settle<K, V>
    requires s.todo != [] && s.todo[0] < |futures|
  {
    var f := s.todo[0];
    (match futures[f].outcome
     case Landed(v) => Take(s, f, futures[f].key, v)
     case Failed(e) => s.(errors := s.errors + [e])
     case _ => s).(todo := s.todo[1..])
  }

  // ------------------------------------------------------------------------------------------------------
  // Steps
  // ------------------------------------------------------------------------------------------------------

  datatype Action<K, V> =
    | CallResolve(t: nat, key: K, canFetch: bool)
    | FetchReturns(t: nat, value: V)
    | FetchRaises(t: nat, error: Error)
    | OwnerCancelled(t: nat)
    | JoinerResumes(t: nat)
    | JoinerCancelled(t: nat)
    | CallLookup(key: K)
    | CallPut(key: K, value: V)
    | CallPutMany(items: seq<Entry<K, V>>)
    | InvalidateKey(key: K)
    | InvalidateAll
    | Resize(maxsize: Option<nat>)
    | CallSettle(t: nat)
    | SettlerResumes(t: nat)
    | SettlerCancelled(t: nat)

  predicate Done<K, V>(futures: seq<Future<K, V>>, f: nat) {
    f < |futures| && !futures[f].outcome.Pending?
  }

  predicate Enabled<K(==), V>(w: World<K, V>, a: Action<K, V>) {
    match a
    case CallResolve(t, _, _) => t !in w.tasks
    case FetchReturns(t, _) => t in w.tasks && w.tasks[t].Fetching? && w.tasks[t].f < |w.futures|
    case FetchRaises(t, _) => t in w.tasks && w.tasks[t].Fetching? && w.tasks[t].f < |w.futures|
    case OwnerCancelled(t) => t in w.tasks && w.tasks[t].Fetching? && w.tasks[t].f < |w.futures|
    case JoinerResumes(t) => t in w.tasks && w.tasks[t].Joined? && Done(w.futures, w.tasks[t].f)
    case JoinerCancelled(t) => t in w.tasks && w.tasks[t].Joined?
    case CallSettle(t) => t !in w.tasks
    case SettlerResumes(t) =>
      t in w.tasks && w.tasks[t].Settling? && w.tasks[t].wait.todo != [] && Done(w.futures, w.tasks[t].wait.todo[0])
    case SettlerCancelled(t) => t in w.tasks && w.tasks[t].Settling?
    case _ => true
  }

  function PutEvents<K, V>(items: seq<Entry<K, V>>): seq<Event<K, V>> {
    seq(|items|, i requires 0 <= i < |items| => Written(items[i].key, items[i].value))
  }

  function Step<K(==), V>(w: World<K, V>, a: Action<K, V>): World<K, V>
    requires Enabled(w, a)
  {
    match a
    case CallResolve(t, k, canFetch) => Enter(w, t, k, canFetch)
    case FetchReturns(t, v) => Finish(w, t, w.tasks[t].f, v)
    case FetchRaises(t, e) => Break(w, t, w.tasks[t].f, Failed(e))
    case OwnerCancelled(t) => Break(w, t, w.tasks[t].f, Abandoned)
    case JoinerResumes(t) => Resume(w, t, w.tasks[t])
    case JoinerCancelled(t) => w.(tasks := w.tasks[t := Stopped])
    case CallLookup(k) => w.(cache := Look(w.cache, k))
    case CallPut(k, v) => w.(cache := Write(w.cache, k, v), log := w.log + [Written(k, v)])
    case CallPutMany(items) => w.(cache := WriteMany(w.cache, items), log := w.log + PutEvents(items))
    case InvalidateKey(k) => w.(cache := Erase(w.cache, k), log := w.log + [Erased(k)])
    case InvalidateAll => w.(cache := EraseAll(w.cache), log := w.log + [ErasedAll])
    case Resize(m) => w.(cache := w.cache.(maxsize := m))
    case CallSettle(t) => Loop(w, t, StartSettle(w))
    case SettlerResumes(t) => Loop(w, t, Collect(w.futures, w.tasks[t].wait))
    case SettlerCancelled(t) => w.(tasks := w.tasks[t := Stopped])
  }

  ghost predicate Run<K(!new), V(!new)>(states: seq<World<K, V>>, actions: seq<Action<K, V>>) {
    && |states| == |actions| + 1
    && (exists m :: states[0] == Initial(m))
    && forall i :: 0 <= i < |actions| ==> Enabled(states[i], actions[i]) && states[i + 1] == Step(states[i], actions[i])
  }

  ghost predicate Reachable<K(!new), V(!new)>(w: World<K, V>) {
    exists states: seq<World<K, V>>, actions: seq<Action<K, V>> ::
      Run(states, actions) && states[|states| - 1] == w
  }
}
