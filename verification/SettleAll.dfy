/** `settle_all` of `AsyncKeyedCache` (sdk/asynccache.py): when it returns, and what. */
module SettleAll {
  import opened Basics
  import opened LruStore
  import opened CacheModel
  import opened CacheInvariant
  import opened CacheSteps

  // ------------------------------------------------------------------------------------------------------
  // What a settler has gathered
  // ------------------------------------------------------------------------------------------------------

  /** Awaited, and dealt with. */
  predicate Behind<K, V>(s: Settle<K, V>, g: nat) { g in s.awaited && g !in s.todo }

  ghost predicate QueueOk<K(!new), V(!new)>(futures: seq<Future<K, V>>, todo: seq<nat>) {
    && (forall i :: 0 <= i < |todo| ==> todo[i] < |futures|)
    && (forall i, j :: 0 <= i < j < |todo| ==> futures[todo[i]].key != futures[todo[j]].key)
  }

  /** Each fetch dealt with is over, and if it returned, its value or that of a later fetch of its key was gathered. */
  ghost predicate Gathered<K(!new), V(!new)>(futures: seq<Future<K, V>>, s: Settle<K, V>) {
    && QueueOk(futures, s.todo)
    && (forall g: nat :: Behind(s, g) ==> Done(futures, g))
    && (forall g: nat :: Behind(s, g) && futures[g].outcome.Landed? ==>
          futures[g].key in s.givenBy && g <= s.givenBy[futures[g].key])
    && (forall g: nat, i :: Behind(s, g) && 0 <= i < |s.todo| && futures[g].key == futures[s.todo[i]].key ==> g < s.todo[i])
    && s.landed.Keys == s.givenBy.Keys
    && (forall k :: k in s.givenBy ==>
          Behind(s, s.givenBy[k]) && futures[s.givenBy[k]].key == k
          && futures[s.givenBy[k]].outcome == Landed(s.landed[k]))
  }

  ghost predicate EntryKept<K, V>(s: Settle<K, V>) {
    forall f: nat :: f in s.entry ==> f in s.awaited || f in s.todo
  }

  /** Parked on a fetch it has marked as awaited. */
  ghost predicate Parked<K(!new), V(!new)>(futures: seq<Future<K, V>>, s: Settle<K, V>) {
    Gathered(futures, s) && EntryKept(s) && s.todo != [] && s.todo[0] in s.awaited
  }

  /** The head of the queue, once over, dealt with; an error may be noted. */
  ghost predicate HeadTaken<K(!new), V(!new)>(futures: seq<Future<K, V>>, s: Settle<K, V>, s': Settle<K, V>) {
    && s.todo != [] && Done(futures, s.todo[0])
    && s'.todo == s.todo[1..] && s'.awaited == s.awaited + {s.todo[0]}
    && s'.entry == s.entry && s'.held == s.held && s'.start == s.start && s'.clean == s.clean
    && (if futures[s.todo[0]].outcome.Landed? then
          s'.landed == s.landed[futures[s.todo[0]].key := futures[s.todo[0]].outcome.value]
          && s'.givenBy == s.givenBy[futures[s.todo[0]].key := s.todo[0]]
        else s'.landed == s.landed && s'.givenBy == s.givenBy)
  }

  lemma HeadGathers<K(!new), V(!new)>(futures: seq<Future<K, V>>, s: Settle<K, V>, s': Settle<K, V>)
    requires Gathered(futures, s) && HeadTaken(futures, s, s')
    ensures Gathered(futures, s') && (EntryKept(s) ==> EntryKept(s'))
  {
    var f := s.todo[0];
    assert s.todo == [f] + s.todo[1..];
    HeadIsOnce(futures, s.todo);
    assert forall g: nat :: Behind(s', g) <==> g == f || Behind(s, g);
    assert forall i :: 0 <= i < |s'.todo| ==> s'.todo[i] == s.todo[i + 1];
  }

  lemma HeadIsOnce<K(!new), V(!new)>(futures: seq<Future<K, V>>, todo: seq<nat>)
    requires QueueOk(futures, todo) && todo != []
    ensures todo[0] !in todo[1..]
  {
  }

  /** The inner loop ends with an empty queue or parked on a pending fetch. */
  lemma {:induction false} AdvanceGathers<K(!new), V(!new)>(futures: seq<Future<K, V>>, s: Settle<K, V>)
    requires Gathered(futures, s)
    ensures var s' := Advance(futures, s);
            && Gathered(futures, s') && (EntryKept(s) ==> EntryKept(s'))
            && s'.entry == s.entry && s'.held == s.held && s'.start == s.start && s'.clean == s.clean
            && (s'.todo != [] ==> s'.todo[0] in s'.awaited)
    decreases |s.todo|
  {
    hide Gathered, EntryKept;
    if s.todo != [] {
      var f := s.todo[0];
      InQueue(futures, s);
      var s1 := s.(awaited := s.awaited + {f});
      if futures[f].outcome == Pending {
        HeadMarked(futures, s);
      } else {
        var s2 := (if futures[f].outcome.Landed? then Take(s1, f, futures[f].key, futures[f].outcome.value) else s1)
                  .(todo := s.todo[1..]);
        HeadGathers(futures, s, s2);
        AdvanceGathers(futures, s2);
      }
    }
  }

  lemma InQueue<K(!new), V(!new)>(futures: seq<Future<K, V>>, s: Settle<K, V>)
    requires Gathered(futures, s) && s.todo != []
    ensures s.todo[0] < |futures|
  {
  }

  lemma HeadMarked<K(!new), V(!new)>(futures: seq<Future<K, V>>, s: Settle<K, V>)
    requires Gathered(futures, s) && s.todo != []
    ensures var s' := s.(awaited := s.awaited + {s.todo[0]}); Gathered(futures, s') && (EntryKept(s) ==> EntryKept(s'))
  {
    var s' := s.(awaited := s.awaited + {s.todo[0]});
    assert forall g: nat :: Behind(s', g) <==> Behind(s, g);
  }

  // ------------------------------------------------------------------------------------------------------
  // What is in flight
  // ------------------------------------------------------------------------------------------------------

  lemma {:induction false} NotAwaitedIs<K(!new), V(!new)>(c: Cache<K, V>, futures: seq<Future<K, V>>, awaited: set<nat>,
                                                          n: nat)
    requires n <= |futures|
    ensures var more := NotAwaited(c, futures, awaited, n);
            && (forall f: nat :: f in more <==> f < n && InFlight(c, futures, f) && f !in awaited)
            && (forall i, j :: 0 <= i < j < |more| ==> more[i] < more[j])
  {
    hide InFlight;
    if n > 0 {
      NotAwaitedIs(c, futures, awaited, n - 1);
      var before := NotAwaited(c, futures, awaited, n - 1);
      assert forall i :: 0 <= i < |before| ==> before[i] in before;
    }
  }

  /** A settler that has dealt with everything it awaited takes up what is in flight now. */
  lemma QueueRefilled<K(!new), V(!new)>(w: World<K, V>, s: Settle<K, V>)
    requires Inv(w) && Gathered(w.futures, s) && s.todo == []
    requires EntryKept(s) || (s.awaited == {} && s.entry == w.cache.inflight.Values)
    ensures var more := NotAwaited(w.cache, w.futures, s.awaited, |w.futures|);
            && (more == [] ==> w.cache.inflight == map[] && EntryKept(s))
            && (more != [] ==> Parked(w.futures, s.(todo := more, awaited := s.awaited + {more[0]})))
  {
    hide TasksMatch, StaleMeansErased, LogTold, StoreIsCurrent;
    var more := NotAwaited(w.cache, w.futures, s.awaited, |w.futures|);
    NotAwaitedIs(w.cache, w.futures, s.awaited, |w.futures|);
    forall k | k in w.cache.inflight ensures w.cache.inflight[k] in more {
      assert InFlight(w.cache, w.futures, w.cache.inflight[k]);
      assert !Behind(s, w.cache.inflight[k]);
    }
    if more == [] {
      assert w.cache.inflight.Values == {};
    } else {
      Refills(w, s, more);
    }
  }

  lemma Refills<K(!new), V(!new)>(w: World<K, V>, s: Settle<K, V>, more: seq<nat>)
    requires OneFlight(w.cache.inflight, w.futures, w.tasks) && Latest(w.futures)
    requires Gathered(w.futures, s) && s.todo == [] && more != []
    requires EntryKept(s) || (s.awaited == {} && s.entry == w.cache.inflight.Values)
    requires forall f: nat :: f in more <==> f < |w.futures| && InFlight(w.cache, w.futures, f) && f !in s.awaited
    requires forall i, j :: 0 <= i < j < |more| ==> more[i] < more[j]
    requires forall k :: k in w.cache.inflight ==> w.cache.inflight[k] in more
    ensures Parked(w.futures, s.(todo := more, awaited := s.awaited + {more[0]}))
  {
    var s' := s.(todo := more, awaited := s.awaited + {more[0]});
    QueueIsPending(w, s.awaited, more);
    assert forall g: nat :: Behind(s', g) <==> Behind(s, g) by {
      assert more[0] in more;
      assert forall g: nat :: g in more ==> g !in s.awaited;
    }
    hide OneFlight, InFlight;
    forall g: nat, i | Behind(s', g) && 0 <= i < |more| && w.futures[g].key == w.futures[more[i]].key ensures g < more[i] {
      assert Done(w.futures, g) && !Done(w.futures, more[i]);
    }
  }

  /** Fetches in flight are pending, and of different keys. */
  lemma QueueIsPending<K(!new), V(!new)>(w: World<K, V>, awaited: set<nat>, more: seq<nat>)
    requires OneFlight(w.cache.inflight, w.futures, w.tasks)
    requires forall f: nat :: f in more <==> f < |w.futures| && InFlight(w.cache, w.futures, f) && f !in awaited
    requires forall i, j :: 0 <= i < j < |more| ==> more[i] < more[j]
    ensures QueueOk(w.futures, more)
    ensures forall i :: 0 <= i < |more| ==> more[i] < |w.futures| && w.futures[more[i]].outcome.Pending?
  {
    assert forall i :: 0 <= i < |more| ==> more[i] in more;
    assert forall i :: 0 <= i < |more| ==> more[i] < |w.futures| && InFlight(w.cache, w.futures, more[i]);
  }

  /** What a settler recorded at its call stays. */
  predicate SameCall<K(==), V(==)>(s: Settle<K, V>, s': Settle<K, V>) {
    s'.start == s.start && s'.clean == s.clean && s'.entry == s.entry && s'.held == s.held
  }

  /** `settle_all` returns only when nothing is in flight; until then it waits for a fetch. */
  lemma LoopSettles<K(!new), V(!new)>(w: World<K, V>, t: nat, s: Settle<K, V>)
    requires Inv(w) && Gathered(w.futures, s)
    requires EntryKept(s) || (s.todo == [] && s.awaited == {} && s.entry == w.cache.inflight.Values)
    ensures match Loop(w, t, s).tasks[t]
            case Settling(s') => Parked(w.futures, s') && SameCall(s, s')
            case Settled(result, _, last) =>
              && w.cache.inflight == map[] && Gathered(w.futures, last) && EntryKept(last) && last.todo == []
              && result == last.held + AsMap(w.cache.store) + last.landed && SameCall(s, last)
            case _ => false
  {
    hide Inv, Gathered, EntryKept, NotAwaited, AsMap;
    AdvanceGathers(w.futures, s);
    var s1 := Advance(w.futures, s);
    if s1.todo == [] {
      if !EntryKept(s) { assert s1 == s; }
      QueueRefilled(w, s1);
    }
  }

  // ------------------------------------------------------------------------------------------------------
  // Settlers while others step
  // ------------------------------------------------------------------------------------------------------

  /** Futures are only added, and one that is over stays as it is. */
  ghost predicate FuturesGrow<K(!new), V(!new)>(futures: seq<Future<K, V>>, futures': seq<Future<K, V>>) {
    && |futures| <= |futures'|
    && forall f :: 0 <= f < |futures| ==>
         futures'[f].key == futures[f].key
         && (futures[f].outcome.Pending? || futures'[f].outcome == futures[f].outcome)
  }

  lemma ParkedGrows<K(!new), V(!new)>(futures: seq<Future<K, V>>, futures': seq<Future<K, V>>, s: Settle<K, V>)
    requires Parked(futures, s) && FuturesGrow(futures, futures')
    ensures Parked(futures', s)
  {
    assert forall g: nat :: Behind(s, g) ==> Done(futures, g) && futures'[g].outcome == futures[g].outcome;
  }

  ghost predicate SettlersParked<K(!new), V(!new)>(w: World<K, V>) {
    forall t :: t in w.tasks && w.tasks[t].Settling? ==> Parked(w.futures, w.tasks[t].wait)
  }

  predicate Settles<K, V>(a: Action<K, V>, t: nat) { a == CallSettle(t) || a == SettlerResumes(t) }

  lemma FuturesStep<K(!new), V(!new)>(w: World<K, V>, a: Action<K, V>)
    requires Inv(w) && Enabled(w, a)
    ensures FuturesGrow(w.futures, Step(w, a).futures)
  {
    hide Latest, TasksMatch, StaleMeansErased, LogTold, StoreIsCurrent, Write, WriteMany, Erase, EraseAll, Look, Serve;
    hide Advance, NotAwaited, AsMap, Touch, Land, Drop, Begin, Collect, StartSettle;
  }

  lemma SettlersStep<K(!new), V(!new)>(w: World<K, V>, a: Action<K, V>)
    requires Enabled(w, a)
    ensures forall t :: t in Step(w, a).tasks && !Settles(a, t)
                        && (Step(w, a).tasks[t].Settling? || Step(w, a).tasks[t].Settled?) ==>
                          t in w.tasks && w.tasks[t] == Step(w, a).tasks[t]
  {
    hide Write, WriteMany, Erase, EraseAll, Look, Serve;
    hide Advance, NotAwaited, AsMap, Touch, Land, Drop, Begin, Collect, StartSettle;
  }

  lemma StepGrows<K(!new), V(!new)>(w: World<K, V>, a: Action<K, V>)
    requires Inv(w) && Enabled(w, a)
    ensures FuturesGrow(w.futures, Step(w, a).futures)
    ensures forall t :: t in Step(w, a).tasks && !Settles(a, t)
                        && (Step(w, a).tasks[t].Settling? || Step(w, a).tasks[t].Settled?) ==>
                          t in w.tasks && w.tasks[t] == Step(w, a).tasks[t]
  {
    hide Inv, Step, Enabled, FuturesGrow;
    FuturesStep(w, a);
    SettlersStep(w, a);
  }

  /** The settler's own step ends it with nothing in flight, or parks it again. */
  lemma SettlerSteps<K(!new), V(!new)>(w: World<K, V>, a: Action<K, V>, t: nat)
    requires Inv(w) && SettlersParked(w) && Enabled(w, a) && Settles(a, t)
    ensures var (task, s) := (Step(w, a).tasks[t], if a == CallSettle(t) then StartSettle(w) else w.tasks[t].wait);
            match task
            case Settling(s') => Parked(w.futures, s') && SameCall(s, s')
            case Settled(result, _, last) =>
              && w.cache.inflight == map[] && Gathered(w.futures, last) && EntryKept(last) && last.todo == []
              && result == last.held + AsMap(w.cache.store) + last.landed && SameCall(s, last)
            case _ => false
  {
    hide Inv, Gathered, EntryKept, Loop, AsMap;
    if a == CallSettle(t) {
      NothingGathered(w);
      LoopSettles(w, t, StartSettle(w));
    } else {
      var s := w.tasks[t].wait;
      assert Parked(w.futures, s);
      assert s.awaited + {s.todo[0]} == s.awaited;
      HeadGathers(w.futures, s, Collect(w.futures, s));
      LoopSettles(w, t, Collect(w.futures, s));
    }
  }

  lemma TaskThere<K(!new), V(!new)>(w: World<K, V>, a: Action<K, V>, t: nat)
    requires Enabled(w, a) && Settles(a, t)
    ensures t in Step(w, a).tasks
  {
    hide Advance, NotAwaited, AsMap, Collect, StartSettle;
  }

  lemma NothingGathered<K(!new), V(!new)>(w: World<K, V>)
    ensures Gathered(w.futures, StartSettle(w))
  {
  }

  lemma SettlersStayParked<K(!new), V(!new)>(w: World<K, V>, a: Action<K, V>)
    requires Inv(w) && SettlersParked(w) && Enabled(w, a)
    ensures SettlersParked(Step(w, a))
  {
    hide Inv, Parked, FuturesGrow, Step, Enabled;
    StepGrows(w, a);
    var w' := Step(w, a);
    forall t | t in w'.tasks && w'.tasks[t].Settling? ensures Parked(w'.futures, w'.tasks[t].wait) {
      if Settles(a, t) {
        SettlerSteps(w, a, t);
        ParkedGrows(w.futures, w'.futures, w'.tasks[t].wait);
      } else {
        ParkedGrows(w.futures, w'.futures, w'.tasks[t].wait);
      }
    }
  }

  lemma {:induction false} RunParked<K(!new), V(!new)>(states: seq<World<K, V>>, actions: seq<Action<K, V>>, n: nat)
    requires Run(states, actions) && n < |states|
    ensures Inv(states[n]) && SettlersParked(states[n])
  {
    hide Inv, SettlersParked, Step, Enabled;
    RunKeeps(states, actions, n);
    if n == 0 {
      InitialParked(states[0]);
    } else {
      RunParked(states, actions, n - 1);
      SettlersStayParked(states[n - 1], actions[n - 1]);
    }
  }

  lemma InitialParked<K(!new), V(!new)>(w: World<K, V>)
    requires exists m :: w == Initial(m)
    ensures SettlersParked(w)
  {
  }

  // ------------------------------------------------------------------------------------------------------
  // When it returns
  // ------------------------------------------------------------------------------------------------------

  /** Step `n` of the run ends the settler `t`. */
  ghost predicate EndsSettler<K(!new), V(!new)>(states: seq<World<K, V>>, actions: seq<Action<K, V>>, n: nat, t: nat) {
    && Run(states, actions) && n < |actions|
    && t in states[n + 1].tasks && states[n + 1].tasks[t].Settled?
    && (t in states[n].tasks ==> !states[n].tasks[t].Settled?)
  }

  lemma EndingSettles<K(!new), V(!new)>(states: seq<World<K, V>>, actions: seq<Action<K, V>>, n: nat, t: nat)
    requires EndsSettler(states, actions, n, t)
    ensures Settles(actions[n], t) && Inv(states[n]) && SettlersParked(states[n]) && Enabled(states[n], actions[n])
    ensures states[n + 1] == Step(states[n], actions[n]) && states[n + 1].cache == states[n].cache
    ensures states[n + 1].futures == states[n].futures
  {
    hide Inv, SettlersParked, Step, Enabled, FuturesGrow;
    RunParked(states, actions, n);
    StepGrows(states[n], actions[n]);
    LoopMovesOnly(states[n], actions[n], t);
  }

  lemma LoopMovesOnly<K(!new), V(!new)>(w: World<K, V>, a: Action<K, V>, t: nat)
    requires Enabled(w, a) && Settles(a, t)
    ensures Step(w, a).cache == w.cache && Step(w, a).futures == w.futures
  {
    hide Advance, NotAwaited, AsMap, Collect, StartSettle;
  }

  /** It returns only when no fetch is in flight. */
  lemma SettledMeansIdle<K(!new), V(!new)>(states: seq<World<K, V>>, actions: seq<Action<K, V>>, n: nat, t: nat)
    requires EndsSettler(states, actions, n, t)
    ensures states[n + 1].cache.inflight == map[]
  {
    hide Inv, SettlersParked, Step, Enabled;
    EndingSettles(states, actions, n, t);
    SettlerSteps(states[n], actions[n], t);
  }

  /** Fetch `g` of `k` returned `v`. */
  predicate Returns<K(==), V(==)>(futures: seq<Future<K, V>>, g: nat, k: K, v: V) {
    g < |futures| && futures[g].key == k && futures[g].outcome == Landed(v)
  }

  ghost predicate ReturnedSince<K(!new), V(!new)>(futures: seq<Future<K, V>>, f: nat, k: K, v: V) {
    exists g: nat :: f <= g && Returns(futures, g, k, v)
  }

  /** Every fetch in flight at its call that returned a value is in the result, even one an `invalidate` kept out of the
      store: its key maps to that value, or to the value of a later fetch of the key. */
  lemma InFlightAtEntryReturned<K(!new), V(!new)>(states: seq<World<K, V>>, actions: seq<Action<K, V>>, n: nat, t: nat,
                                                  f: nat)
    requires EndsSettler(states, actions, n, t) && f in states[n + 1].tasks[t].last.entry
    ensures Done(states[n + 1].futures, f)
    ensures states[n + 1].futures[f].outcome.Landed? ==>
              var (k, result) := (states[n + 1].futures[f].key, states[n + 1].tasks[t].result);
              k in result && ReturnedSince(states[n + 1].futures, f, k, result[k])
  {
    hide Inv, SettlersParked, Step, Enabled, AsMap;
    EndingSettles(states, actions, n, t);
    SettlerSteps(states[n], actions[n], t);
    var last := states[n + 1].tasks[t].last;
    assert Behind(last, f);
    if states[n + 1].futures[f].outcome.Landed? {
      var k := states[n + 1].futures[f].key;
      assert Returns(states[n + 1].futures, last.givenBy[k], k, last.landed[k]);
    }
  }

  // ------------------------------------------------------------------------------------------------------
  // What it returns from a cache without a bound that nobody else writes or invalidates
  // ------------------------------------------------------------------------------------------------------

  predicate Disturbs<K, V>(e: Event<K, V>) { e.Written? || e.Erased? || e.ErasedAll? }

  ghost predicate Quiet<K(!new), V(!new)>(log: seq<Event<K, V>>, start: nat) {
    forall j :: start <= j < |log| ==> !Disturbs(log[j])
  }

  /** `k` is settled with `v`, and no fetch will change that. */
  predicate Here<K(==), V(==)>(c: Cache<K, V>, k: K, v: V) {
    Get(c.store, k) == Some(v) && k !in c.inflight
  }

  /** What the settler has, and what its queue will give it, is in the store. */
  ghost predicate Steady<K(!new), V(!new)>(c: Cache<K, V>, futures: seq<Future<K, V>>, s: Settle<K, V>) {
    && c.stale == {}
    && (forall k :: k in s.held ==> Get(c.store, k).Some?)
    && (forall k :: k in s.landed ==> Here(c, k, s.landed[k]))
    && (forall f :: f in s.todo && f < |futures| && futures[f].outcome.Landed? ==>
          Here(c, futures[f].key, futures[f].outcome.value))
  }

  ghost predicate Calm<K(!new), V(!new)>(w: World<K, V>, s: Settle<K, V>) { s.clean && Quiet(w.log, s.start) }

  ghost predicate SettlersSteady<K(!new), V(!new)>(w: World<K, V>) {
    forall t :: t in w.tasks && w.tasks[t].Settling? ==>
      w.tasks[t].wait.start <= |w.log|
      && (Calm(w, w.tasks[t].wait) ==> Steady(w.cache, w.futures, w.tasks[t].wait))
  }

  /** What an undisturbed step leaves of the settled entries. */
  ghost predicate EntriesStay<K(!new), V(!new)>(c: Cache<K, V>, futures: seq<Future<K, V>>, c': Cache<K, V>,
                                                futures': seq<Future<K, V>>) {
    && c'.stale == {}
    && (forall k, v :: Here(c, k, v) ==> Here(c', k, v))
    && (forall k :: Get(c.store, k).Some? ==> Get(c'.store, k).Some?)
    && (forall f :: 0 <= f < |futures| && f < |futures'| && futures[f].outcome.Pending? && futures'[f].outcome.Landed? ==>
          Here(c', futures'[f].key, futures'[f].outcome.value))
  }

  lemma SteadyStays<K(!new), V(!new)>(c: Cache<K, V>, futures: seq<Future<K, V>>, c': Cache<K, V>,
                                      futures': seq<Future<K, V>>, s: Settle<K, V>)
    requires Steady(c, futures, s) && EntriesStay(c, futures, c', futures') && FuturesGrow(futures, futures')
    requires QueueOk(futures, s.todo)
    ensures Steady(c', futures', s)
  {
    hide Here, Get;
    forall f | f in s.todo && f < |futures'| && futures'[f].outcome.Landed?
      ensures Here(c', futures'[f].key, futures'[f].outcome.value)
    {
      assert f < |futures|;
    }
  }

  lemma TouchGets<K(!new), V(!new)>(s: Store<K, V>, k: K, v: V, j: K)
    requires DistinctKeys(s)
    ensures Get(Touch(s, k, v), j) == if j == k then Some(v) else Get(s, j)
  {
    hide Get, Touch;
    TouchKeeps(s, k, v);
    GetFinds(s, j);
    GetFinds(Touch(s, k, v), j);
    if j == k {
      assert Entry(k, v) in Touch(s, k, v);
    } else if Get(s, j).Some? {
      assert Entry(j, Get(s, j).value) in Touch(s, k, v);
    }
  }

  lemma ServedStays<K(!new), V(!new)>(c: Cache<K, V>, futures: seq<Future<K, V>>, k: K)
    requires DistinctKeys(c.store) && c.stale == {} && Get(c.store, k).Some?
    ensures EntriesStay(c, futures, Serve(c, k), futures)
  {
    hide Get, Touch;
    forall j ensures Get(Serve(c, k).store, j) == Get(c.store, j) {
      TouchGets(c.store, k, Get(c.store, k).value, j);
    }
  }

  lemma EnterStays<K(!new), V(!new)>(w: World<K, V>, t: nat, k: K, canFetch: bool)
    requires DistinctKeys(w.cache.store) && w.cache.stale == {}
    ensures var w' := Enter(w, t, k, canFetch); EntriesStay(w.cache, w.futures, w'.cache, w'.futures)
  {
    hide Get, Touch, Serve;
    if Get(w.cache.store, k).Some? { ServedStays(w.cache, w.futures, k); }
  }

  lemma FinishStays<K(!new), V(!new)>(w: World<K, V>, t: nat, f: nat, v: V)
    requires Inv(w) && w.cache.stale == {} && w.cache.maxsize.None?
    requires Owns(w.tasks, t, f) && f < |w.futures|
    ensures var w' := Finish(w, t, f, v); EntriesStay(w.cache, w.futures, w'.cache, w'.futures)
  {
    hide Latest, TasksMatch, StaleMeansErased, LogTold, Get, Touch;
    var k := w.futures[f].key;
    OwnedKey(w.cache.inflight, w.futures, w.tasks, t, f);
    forall j ensures Get(Touch(w.cache.store, k, v), j) == if j == k then Some(v) else Get(w.cache.store, j) {
      TouchGets(w.cache.store, k, v, j);
    }
  }

  /** A step without a put or an `invalidate` keeps every settled entry of an unbounded cache. */
  lemma StepStays<K(!new), V(!new)>(w: World<K, V>, a: Action<K, V>)
    requires Inv(w) && Enabled(w, a) && w.cache.stale == {} && w.cache.maxsize.None?
    requires !a.InvalidateKey? && !a.InvalidateAll? && !a.CallPut? && !a.CallPutMany?
    ensures var w' := Step(w, a); EntriesStay(w.cache, w.futures, w'.cache, w'.futures)
  {
    hide OneFlight, Latest, StaleMeansErased, LogTold, Get, Touch, Serve, Enter, Finish, Advance, NotAwaited, AsMap;
    match a
    case CallResolve(t, k, canFetch) => EnterStays(w, t, k, canFetch);
    case FetchReturns(t, v) => FinishStays(w, t, w.tasks[t].f, v);
    case JoinerResumes(t) =>
      if w.futures[w.tasks[t].f].outcome.Abandoned? { EnterStays(w, t, w.tasks[t].key, w.tasks[t].canFetch); }
    case CallLookup(k) => if Get(w.cache.store, k).Some? { ServedStays(w.cache, w.futures, k); }
    case _ =>
  }

  lemma {:induction false} AsMapGets<K(!new), V(!new)>(s: Store<K, V>)
    ensures forall k :: k in AsMap(s) <==> Get(s, k).Some?
    ensures forall k :: k in AsMap(s) ==> Get(s, k) == Some(AsMap(s)[k])
  {
    if s != [] { AsMapGets(s[1..]); }
  }

  lemma HeadSteady<K(!new), V(!new)>(c: Cache<K, V>, futures: seq<Future<K, V>>, s: Settle<K, V>, s': Settle<K, V>)
    requires Steady(c, futures, s) && HeadTaken(futures, s, s')
    ensures Steady(c, futures, s')
  {
    hide Here, Get;
    assert s.todo[0] in s.todo;
  }

  lemma {:induction false} AdvanceSteady<K(!new), V(!new)>(c: Cache<K, V>, futures: seq<Future<K, V>>, s: Settle<K, V>)
    requires Gathered(futures, s) && Steady(c, futures, s)
    ensures Steady(c, futures, Advance(futures, s))
    decreases |s.todo|
  {
    hide Gathered, Steady, EntryKept;
    if s.todo != [] {
      var f := s.todo[0];
      InQueue(futures, s);
      var s1 := s.(awaited := s.awaited + {f});
      if futures[f].outcome == Pending {
        AwaitedSteady(c, futures, s, s1);
      } else {
        var s2 := (if futures[f].outcome.Landed? then Take(s1, f, futures[f].key, futures[f].outcome.value) else s1)
                  .(todo := s.todo[1..]);
        HeadGathers(futures, s, s2);
        HeadSteady(c, futures, s, s2);
        AdvanceSteady(c, futures, s2);
      }
    }
  }

  lemma AwaitedSteady<K(!new), V(!new)>(c: Cache<K, V>, futures: seq<Future<K, V>>, s: Settle<K, V>, s': Settle<K, V>)
    requires Steady(c, futures, s) && s' == s.(awaited := s'.awaited)
    ensures Steady(c, futures, s')
  {
  }

  lemma RefillSteady<K(!new), V(!new)>(w: World<K, V>, s: Settle<K, V>)
    requires Inv(w) && Steady(w.cache, w.futures, s)
    ensures var more := NotAwaited(w.cache, w.futures, s.awaited, |w.futures|);
            more != [] ==> Steady(w.cache, w.futures, s.(todo := more, awaited := s.awaited + {more[0]}))
  {
    hide Latest, TasksMatch, StaleMeansErased, LogTold, StoreIsCurrent, Here;
    NotAwaitedIs(w.cache, w.futures, s.awaited, |w.futures|);
  }

  lemma LoopSteady<K(!new), V(!new)>(w: World<K, V>, t: nat, s: Settle<K, V>)
    requires Inv(w) && Gathered(w.futures, s) && Steady(w.cache, w.futures, s)
    ensures match Loop(w, t, s).tasks[t]
            case Settling(s') => Steady(w.cache, w.futures, s')
            case Settled(_, _, last) => Steady(w.cache, w.futures, last)
            case _ => true
  {
    hide Inv, Gathered, Steady, NotAwaited, AsMap, Advance;
    AdvanceSteady(w.cache, w.futures, s);
    RefillSteady(w, Advance(w.futures, s));
  }

  lemma StartSteady<K(!new), V(!new)>(w: World<K, V>)
    requires w.cache.stale == {}
    ensures Steady(w.cache, w.futures, StartSettle(w))
  {
    AsMapGets(w.cache.store);
  }

  /** What the acting settler ends or parks with. */
  lemma SettlerStepSteady<K(!new), V(!new)>(w: World<K, V>, a: Action<K, V>, t: nat)
    requires Inv(w) && SettlersParked(w) && SettlersSteady(w) && Enabled(w, a) && Settles(a, t)
    ensures Step(w, a).log == w.log && Step(w, a).cache == w.cache && Step(w, a).futures == w.futures
    ensures match Step(w, a).tasks[t]
            case Settling(s') => s'.start <= |w.log| && (Calm(w, s') ==> Steady(w.cache, w.futures, s'))
            case Settled(_, _, last) => Calm(w, last) ==> Steady(w.cache, w.futures, last)
            case _ => true
    ensures var s := if a == CallSettle(t) then StartSettle(w) else w.tasks[t].wait;
            match Step(w, a).tasks[t]
            case Settling(s') => s'.start == s.start && s'.clean == s.clean
            case Settled(_, _, last) => last.start == s.start && last.clean == s.clean
            case _ => false
  {
    hide Inv, Gathered, Steady, Loop, AsMap, Quiet, EntryKept;
    StartOrNext(w, a, t);
    var s := if a == CallSettle(t) then StartSettle(w) else Collect(w.futures, w.tasks[t].wait);
    assert EntryKept(s) || (s.todo == [] && s.awaited == {} && s.entry == w.cache.inflight.Values);
    LoopSettles(w, t, s);
    if Calm(w, s) { LoopSteady(w, t, s); }
    LoopMovesOnly(w, a, t);
    LogStays(w, a, t);
  }

  lemma LogStays<K(!new), V(!new)>(w: World<K, V>, a: Action<K, V>, t: nat)
    requires Enabled(w, a) && Settles(a, t)
    ensures Step(w, a).log == w.log
    ensures Step(w, a) == Loop(w, t, if a == CallSettle(t) then StartSettle(w) else Collect(w.futures, w.tasks[t].wait))
  {
    hide Advance, NotAwaited, AsMap, Collect, StartSettle;
  }

  lemma StartOrNext<K(!new), V(!new)>(w: World<K, V>, a: Action<K, V>, t: nat)
    requires Inv(w) && SettlersParked(w) && SettlersSteady(w) && Enabled(w, a) && Settles(a, t)
    ensures var s := if a == CallSettle(t) then StartSettle(w) else Collect(w.futures, w.tasks[t].wait);
            && Gathered(w.futures, s) && s.start <= |w.log|
            && (EntryKept(s) || (s.todo == [] && s.awaited == {} && s.entry == w.cache.inflight.Values))
            && (Calm(w, s) ==> Steady(w.cache, w.futures, s))
  {
    hide Inv, Gathered, Steady, Loop, AsMap, Quiet, EntryKept;
    if a == CallSettle(t) {
      NothingGathered(w);
      if w.cache.stale == {} { StartSteady(w); }
    } else {
      var s := w.tasks[t].wait;
      assert Parked(w.futures, s);
      assert s.awaited + {s.todo[0]} == s.awaited;
      HeadGathers(w.futures, s, Collect(w.futures, s));
      if Calm(w, s) { HeadSteady(w.cache, w.futures, s, Collect(w.futures, s)); }
    }
  }

  /** A step before which a settler is calm and after which it still is neither put nor invalidated. */
  lemma CalmStep<K(!new), V(!new)>(w: World<K, V>, a: Action<K, V>, start: nat)
    requires Enabled(w, a) && start <= |w.log| && Quiet(Step(w, a).log, start)
    ensures |w.log| <= |Step(w, a).log| && Quiet(w.log, start)
    ensures !a.InvalidateKey? && !a.InvalidateAll? && !a.CallPut? && (a.CallPutMany? ==> a.items == [])
  {
    hide Advance, NotAwaited, AsMap, Touch, Land, Drop, Begin, Serve, Write, WriteMany, Erase, EraseAll, Look, Collect;
    hide StartSettle;
    var (log, log') := (w.log, Step(w, a).log);
    assert log <= log';
    assert forall j :: start <= j < |log| ==> log'[j] == log[j];
    assert |log'| > |log| ==> !Disturbs(log'[|log|]);
  }

  lemma NothingPut<K(!new), V(!new)>(w: World<K, V>)
    requires w.cache.maxsize.None? && w.cache.stale == {}
    ensures var w' := Step(w, CallPutMany([])); EntriesStay(w.cache, w.futures, w'.cache, w'.futures)
  {
  }

  lemma SettlersStaySteady<K(!new), V(!new)>(w: World<K, V>, a: Action<K, V>)
    requires Inv(w) && SettlersParked(w) && SettlersSteady(w) && Enabled(w, a) && w.cache.maxsize.None?
    ensures SettlersSteady(Step(w, a))
  {
    hide Inv, Gathered, Steady, FuturesGrow, Step, Enabled, Quiet, EntriesStay;
    StepGrows(w, a);
    var w' := Step(w, a);
    forall t | t in w'.tasks && w'.tasks[t].Settling?
      ensures w'.tasks[t].wait.start <= |w'.log|
      ensures Calm(w', w'.tasks[t].wait) ==> Steady(w'.cache, w'.futures, w'.tasks[t].wait)
    {
      if Settles(a, t) {
        SettlerStepSteady(w, a, t);
      } else {
        var s := w.tasks[t].wait;
        assert Parked(w.futures, s);
        LogGrowsOnly(w, a);
        if Calm(w', s) {
          CalmStep(w, a, s.start);
          NotStale(w, s);
          if a.CallPutMany? { NothingPut(w); } else { StepStays(w, a); }
          assert QueueOk(w.futures, s.todo) by { QueueOfParked(w.futures, s); }
          SteadyStays(w.cache, w.futures, w'.cache, w'.futures, s);
        }
      }
    }
  }

  lemma QueueOfParked<K(!new), V(!new)>(futures: seq<Future<K, V>>, s: Settle<K, V>)
    requires Parked(futures, s)
    ensures QueueOk(futures, s.todo)
  {
  }

  lemma NotStale<K(!new), V(!new)>(w: World<K, V>, s: Settle<K, V>)
    requires Steady(w.cache, w.futures, s)
    ensures w.cache.stale == {}
  {
  }

  lemma LogGrowsOnly<K(!new), V(!new)>(w: World<K, V>, a: Action<K, V>)
    requires Enabled(w, a)
    ensures |w.log| <= |Step(w, a).log|
  {
    hide Advance, NotAwaited, AsMap, Touch, Land, Drop, Begin, Serve, Write, WriteMany, Erase, EraseAll, Look, Collect;
    hide StartSettle;
  }

  ghost predicate NeverResized<K(!new), V(!new)>(states: seq<World<K, V>>, actions: seq<Action<K, V>>) {
    Run(states, actions) && states[0] == Initial(None) && forall i :: 0 <= i < |actions| ==> !actions[i].Resize?
  }

  lemma {:induction false} RunSteady<K(!new), V(!new)>(states: seq<World<K, V>>, actions: seq<Action<K, V>>, n: nat)
    requires NeverResized(states, actions) && n < |states|
    ensures Unbounded(states[n]) && SettlersSteady(states[n])
  {
    hide Inv, SettlersParked, SettlersSteady, Step, Enabled, StoreIsComplete;
    if n == 0 {
      InitialInv<K, V>(None);
      InitialSteady(states[0]);
    } else {
      RunSteady(states, actions, n - 1);
      RunParked(states, actions, n - 1);
      StepKeeps(states[n - 1], actions[n - 1]);
      SettlersStaySteady(states[n - 1], actions[n - 1]);
    }
  }

  lemma InitialSteady<K(!new), V(!new)>(w: World<K, V>)
    requires w == Initial(None)
    ensures SettlersSteady(w)
  {
  }

  lemma StepSettlesStore<K(!new), V(!new)>(w: World<K, V>, a: Action<K, V>, t: nat)
    requires Inv(w) && SettlersParked(w) && SettlersSteady(w) && Enabled(w, a) && Settles(a, t)
    requires t in Step(w, a).tasks && Step(w, a).tasks[t].Settled? && Calm(w, Step(w, a).tasks[t].last)
    ensures Step(w, a).tasks[t].result == AsMap(w.cache.store) && w.cache.inflight == map[]
  {
    hide Inv, SettlersParked, SettlersSteady, Step, Enabled, AsMap, Quiet, Get;
    SettlerSteps(w, a, t);
    SettlerStepSteady(w, a, t);
    var task := Step(w, a).tasks[t];
    var last := task.last;
    AsMapGets(w.cache.store);
    assert last.landed.Keys <= AsMap(w.cache.store).Keys && last.held.Keys <= AsMap(w.cache.store).Keys;
    assert forall k :: k in last.landed ==> Here(w.cache, k, last.landed[k]);
  }

  /** For a cache without a bound, with nothing stale at the call and no put or `invalidate` during it, the result is
      exactly the store at the return: dropping the store then drops exactly what was returned. Without the first of
      these the result may be more than the store: a value that was stale at the call is in it (`StaleIsReturned`), and a
      fetch of the key that the settler did not see would be shadowed by it. */
  lemma SettledIsTheStore<K(!new), V(!new)>(states: seq<World<K, V>>, actions: seq<Action<K, V>>, n: nat, t: nat)
    requires NeverResized(states, actions) && EndsSettler(states, actions, n, t)
    requires states[n + 1].tasks[t].last.clean && Quiet(states[n + 1].log, states[n + 1].tasks[t].last.start)
    ensures states[n + 1].tasks[t].result == AsMap(states[n + 1].cache.store)
  {
    hide Inv, SettlersParked, SettlersSteady, Step, Enabled, AsMap, Quiet, Unbounded;
    EndingSettles(states, actions, n, t);
    RunSteady(states, actions, n);
    SettlerStepSteady(states[n], actions[n], t);
    StepSettlesStore(states[n], actions[n], t);
  }

  lemma ReachNext<K(!new), V(!new)>(w: World<K, V>, a: Action<K, V>) returns (w': World<K, V>)
    requires Reachable(w) && Enabled(w, a)
    ensures w' == Step(w, a) && Reachable(w')
  {
    hide Step, Enabled;
    var states: seq<World<K, V>>, actions: seq<Action<K, V>> :| Run(states, actions) && states[|states| - 1] == w;
    w' := Step(w, a);
    var states', actions' := states + [w'], actions + [a];
    assert states'[0] == states[0];
    assert Run(states', actions') && states'[|states'| - 1] == w';
  }

  lemma ReachInitial<K(!new), V(!new)>(m: Option<nat>)
    ensures Reachable(Initial<K, V>(m))
  {
    var states: seq<World<K, V>> := [Initial(m)];
    var actions: seq<Action<K, V>> := [];
    assert Run(states, actions) && states[|states| - 1] == Initial(m);
  }

  /** Key 1 is being fetched when `settle_all` is called, and key 2 afterwards. */
  const EarlyWait: Settle<nat, nat> := Settle(map[], map[], [], {0}, [0], map[], 1, true, {0})

  lemma TwoFetches() returns (w: World<nat, nat>)
    ensures Reachable(w)
    ensures w == World(Cache(None, [], map[1 := 0, 2 := 1], {}, 0, 2, 0),
                       [Future(1, 0, 0, Pending), Future(2, 1, 1, Pending)],
                       map[0 := Fetching(0), 9 := Settling(EarlyWait), 1 := Fetching(1)],
                       [Began(0, 1), Began(1, 2)])
  {
    hide Reachable;
    w := Initial(None);
    ReachInitial<nat, nat>(None);
    w := ReachNext(w, CallResolve(0, 1, true));
    ghost var was := w;
    w := ReachNext(w, CallSettle(9));
    assert NotAwaited(was.cache, was.futures, {}, 0) == [] && NotAwaited(was.cache, was.futures, {}, 1) == [0];
    assert was.cache.inflight[1] == 0 && was.cache.inflight.Values == {0};
    assert w.tasks[9] == Settling(EarlyWait);
    w := ReachNext(w, CallResolve(1, 2, true));
  }

  /** Otherwise a value can be lost to the caller. Here a fetch of key 2 begins and ends, invalidated, while
      `settle_all` waits for the fetch of key 1: when it returns, that value is neither in its result nor in the
      store. */
  lemma LostWhileWaiting(v: nat, u: nat) returns (w: World<nat, nat>)
    ensures Reachable(w) && 9 in w.tasks && w.tasks[9].Settled? && w.cache.inflight == map[]
    ensures |w.futures| == 2 && w.futures[1].key == 2 && w.futures[1].outcome == Landed(u)
    ensures w.tasks[9].last.start <= w.futures[1].born
    ensures 2 !in w.tasks[9].result && Get(w.cache.store, 2) == None
  {
    hide Reachable, Loop, Collect;
    w := TwoFetches();
    w := BothLand(w, v, u);
    OneLanded(w, v, u);
    ghost var was := w;
    w := ReachNext(w, SettlerResumes(9));
    LogStays(was, SettlerResumes(9), 9);
    LoopMovesOnly(was, SettlerResumes(9), 9);
  }

  lemma BothLand(was: World<nat, nat>, v: nat, u: nat) returns (w: World<nat, nat>)
    requires Reachable(was) && was.cache == Cache(None, [], map[1 := 0, 2 := 1], {}, 0, 2, 0)
    requires was.futures == [Future(1, 0, 0, Pending), Future(2, 1, 1, Pending)]
    requires was.tasks == map[0 := Fetching(0), 9 := Settling(EarlyWait), 1 := Fetching(1)]
    ensures Reachable(w) && w.cache == Cache(None, [Entry(1, v)], map[], {}, 0, 2, 0)
    ensures w.futures == [Future(1, 0, 0, Landed(v)), Future(2, 1, 1, Landed(u))]
    ensures 9 in w.tasks && w.tasks[9] == Settling(EarlyWait)
  {
    hide Reachable;
    w := ReachNext(was, InvalidateKey(2));
    w := ReachNext(w, FetchReturns(1, u));
    assert w.cache == Cache(None, [], map[1 := 0], {}, 0, 2, 0);
    w := ReachNext(w, FetchReturns(0, v));
  }

  lemma OneLanded(w: World<nat, nat>, v: nat, u: nat)
    requires w.cache == Cache(None, [Entry(1, v)], map[], {}, 0, 2, 0)
    requires w.futures == [Future(1, 0, 0, Landed(v)), Future(2, 1, 1, Landed(u))]
    ensures 9 in Loop(w, 9, Collect(w.futures, EarlyWait)).tasks
    ensures var task := Loop(w, 9, Collect(w.futures, EarlyWait)).tasks[9];
            task.Settled? && 2 !in task.result && task.last.start == 1
  {
    assert NotAwaited(w.cache, w.futures, {0}, 0) == [];
    assert NotAwaited(w.cache, w.futures, {0}, 1) == [];
    assert NotAwaited(w.cache, w.futures, {0}, 2) == [];
    AsMapGets(w.cache.store);
    assert Get(w.cache.store[1..], 2) == None;
  }

  /** A fetch of `k` that begins and returns `v`, nothing between. */
  lemma FetchAtOnce<K(!new), V(!new)>(was: World<K, V>, t: nat, k: K, v: V) returns (w: World<K, V>)
    requires Reachable(was) && t !in was.tasks
    requires Get(was.cache.store, k).None? && k !in was.cache.inflight && k !in was.cache.stale
    ensures Reachable(w)
    ensures w.cache.store == Truncate(Touch(was.cache.store, k, v), was.cache.maxsize)
    ensures w.cache.maxsize == was.cache.maxsize && w.cache.inflight == was.cache.inflight && w.cache.stale == was.cache.stale
    ensures w.futures == was.futures + [Future(k, t, |was.log|, Landed(v))]
    ensures w.tasks == was.tasks[t := Returned(v, Some(|was.futures|))]
    ensures w.log == was.log + [Began(|was.futures|, k), Stored(|was.futures|, k, v)]
  {
    hide Reachable, Touch, Truncate, Get;
    w := ReachNext(was, CallResolve(t, k, true));
    assert w.futures[|was.futures|] == Future(k, t, |was.log|, Pending);
    w := ReachNext(w, FetchReturns(t, v));
  }

  /** A settler that has taken `v` for key 1, with the fetch of key 3 still to come. */
  const LateWait: Settle<nat, nat> := Settle(map[], map[], [], {0}, [0, 1], map[], 2, true, {0, 1})

  function HasOne(v: nat): Settle<nat, nat> {
    Settle(map[], map[1 := v], [], {0, 1}, [1], map[1 := 0], 2, true, {0, 1})
  }

  lemma FirstTaken(v: nat) returns (w: World<nat, nat>)
    ensures Reachable(w) && w.cache.maxsize == Some(2) && w.cache.store == [Entry(1, v)]
    ensures w.cache.inflight == map[3 := 1] && w.cache.stale == {}
    ensures w.futures == [Future(1, 0, 0, Landed(v)), Future(3, 1, 1, Pending)]
    ensures w.tasks.Keys == {0, 1, 9} && w.tasks[1] == Fetching(1) && w.tasks[9] == Settling(HasOne(v))
    ensures w.log == [Began(0, 1), Began(1, 3), Stored(0, 1, v)]
  {
    hide Reachable, Get, NotAwaited, Loop, Collect, Advance;
    w := BothBegun();
    w := ReachNext(w, FetchReturns(0, v));
    assert w.cache.store == [Entry(1, v)] && w.cache.inflight == map[3 := 1];
    assert w.futures == [Future(1, 0, 0, Landed(v)), Future(3, 1, 1, Pending)];
    TakesFirst(w, v);
    ghost var was := w;
    w := ReachNext(w, SettlerResumes(9));
    LogStays(was, SettlerResumes(9), 9);
    LoopMovesOnly(was, SettlerResumes(9), 9);
  }

  lemma TakesFirst(w: World<nat, nat>, v: nat)
    requires w.futures == [Future(1, 0, 0, Landed(v)), Future(3, 1, 1, Pending)]
    ensures Loop(w, 9, Collect(w.futures, LateWait)).tasks == w.tasks[9 := Settling(HasOne(v))]
  {
    assert Advance(w.futures, Collect(w.futures, LateWait)) == HasOne(v);
  }

  lemma BothBegun() returns (w: World<nat, nat>)
    ensures Reachable(w)
    ensures w == World(Cache(Some(2), [], map[1 := 0, 3 := 1], {}, 0, 2, 0),
                       [Future(1, 0, 0, Pending), Future(3, 1, 1, Pending)],
                       map[0 := Fetching(0), 1 := Fetching(1), 9 := Settling(LateWait)],
                       [Began(0, 1), Began(1, 3)])
  {
    hide Reachable;
    w := Initial(Some(2));
    ReachInitial<nat, nat>(Some(2));
    w := ReachNext(w, CallResolve(0, 1, true));
    w := ReachNext(w, CallResolve(1, 3, true));
    ghost var was := w;
    w := ReachNext(w, CallSettle(9));
    assert NotAwaited(was.cache, was.futures, {}, 0) == [] && NotAwaited(was.cache, was.futures, {}, 1) == [0];
    assert NotAwaited(was.cache, was.futures, {}, 2) == [0, 1];
    assert was.cache.inflight[1] == 0 && was.cache.inflight[3] == 1;
    assert was.cache.inflight.Values == {0, 1};
    assert w.tasks[9] == Settling(LateWait);
  }

  /** Two more fetches evict key 1, and it is fetched again. */
  lemma FetchedAgain(v: nat, u: nat, y: nat, x: nat) returns (w: World<nat, nat>)
    ensures Reachable(w) && w.cache.maxsize == Some(2) && w.cache.store == [Entry(4, y), Entry(1, x)]
    ensures w.cache.inflight == map[3 := 1] && w.cache.stale == {} && Quiet(w.log, 0)
    ensures |w.futures| >= 2 && w.futures[0] == Future(1, 0, 0, Landed(v)) && w.futures[1].key == 3
    ensures {1, 9} <= w.tasks.Keys && w.tasks[1] == Fetching(1) && w.tasks[9] == Settling(HasOne(v))
  {
    hide Reachable, Touch, Truncate, Get;
    w := FirstTaken(v);
    TouchedTwo(1, v, 2, u);
    w := FetchAtOnce(w, 2, 2, u);
    TouchedThree(1, v, 2, u, 4, y);
    w := FetchAtOnce(w, 3, 4, y);
    TouchedThree(2, u, 4, y, 1, x);
    w := FetchAtOnce(w, 4, 1, x);
  }

  /** Nor need a current value be in the result. Here nothing is stale, put, invalidated or resized: the settler takes `v`
      for key 1; two more fetches evict it, key 1 is fetched again, giving `x`, and then the fetch of key 3, which the
      settler waited for, returns. The store has `x` for key 1, and the result `v`. */
  lemma ShadowedWhileWaiting(v: nat, u: nat, y: nat, x: nat, z: nat) returns (w: World<nat, nat>)
    ensures Reachable(w) && 9 in w.tasks && w.tasks[9].Settled? && w.cache.inflight == map[]
    ensures w.tasks[9].last.clean && Quiet(w.log, 0)
    ensures Get(w.cache.store, 1) == Some(x) && w.tasks[9].result == map[1 := v, 3 := z]
  {
    hide Reachable, Loop, Collect, Get;
    w := FetchedAgain(v, u, y, x);
    w := LastLands(w, v, x, y, z);
    ghost var was := w;
    LastSettles(w, v, x, z);
    w := ReachNext(w, SettlerResumes(9));
    LogStays(was, SettlerResumes(9), 9);
    LoopMovesOnly(was, SettlerResumes(9), 9);
  }

  lemma TouchedTwo(a: nat, v: nat, b: nat, u: nat)
    requires a != b
    ensures Get([Entry(a, v)], b) == None
    ensures Truncate(Touch([Entry(a, v)], b, u), Some(2)) == [Entry(a, v), Entry(b, u)]
  {
    assert [Entry(a, v)][1..] == [];
    assert Without([Entry(a, v)], b) == [Entry(a, v)];
  }

  lemma TouchedThree(a: nat, v: nat, b: nat, u: nat, c: nat, y: nat)
    requires a != c && b != c
    ensures Get([Entry(a, v), Entry(b, u)], c) == None
    ensures Truncate(Touch([Entry(a, v), Entry(b, u)], c, y), Some(2)) == [Entry(b, u), Entry(c, y)]
  {
    var s := [Entry(a, v), Entry(b, u)];
    assert s[1..] == [Entry(b, u)] && s[1..][1..] == [];
    TouchedTwo(b, u, c, y);
    assert Without(s[1..][1..], c) == [] && Without(s[1..], c) == [Entry(b, u)];
    assert Without(s, c) == [Entry(a, v)] + Without(s[1..], c);
  }

  /** The fetch of key 3 returns at last. */
  lemma LastLands(was: World<nat, nat>, v: nat, x: nat, y: nat, z: nat) returns (w: World<nat, nat>)
    requires Reachable(was) && was.cache.maxsize == Some(2) && was.cache.store == [Entry(4, y), Entry(1, x)]
    requires was.cache.inflight == map[3 := 1] && was.cache.stale == {} && Quiet(was.log, 0)
    requires |was.futures| >= 2 && was.futures[0] == Future(1, 0, 0, Landed(v)) && was.futures[1].key == 3
    requires {1, 9} <= was.tasks.Keys && was.tasks[1] == Fetching(1) && was.tasks[9] == Settling(HasOne(v))
    ensures Reachable(w) && w.cache.store == [Entry(1, x), Entry(3, z)] && w.cache.inflight == map[] && Quiet(w.log, 0)
    ensures |w.futures| >= 2 && w.futures[1].key == 3 && w.futures[1].outcome == Landed(z)
    ensures 9 in w.tasks && w.tasks[9] == Settling(HasOne(v))
  {
    hide Reachable, Touch, Truncate;
    TouchedThree(4, y, 1, x, 3, z);
    w := ReachNext(was, FetchReturns(1, z));
  }

  lemma LastSettles(w: World<nat, nat>, v: nat, x: nat, z: nat)
    requires w.cache.store == [Entry(1, x), Entry(3, z)] && w.cache.inflight == map[]
    requires |w.futures| >= 2 && w.futures[1].key == 3 && w.futures[1].outcome == Landed(z)
    ensures Get(w.cache.store, 1) == Some(x)
    ensures 9 in Loop(w, 9, Collect(w.futures, HasOne(v))).tasks
    ensures var task := Loop(w, 9, Collect(w.futures, HasOne(v))).tasks[9];
            task.Settled? && task.result == map[1 := v, 3 := z] && task.last.clean
  {
    var s := Collect(w.futures, HasOne(v));
    assert s.todo == [] && Advance(w.futures, s) == s;
    NoneInFlight(w, s.awaited, |w.futures|);
    AsMapGets(w.cache.store);
    assert w.cache.store[1..] == [Entry(3, z)] && w.cache.store[1..][1..] == [];
    assert AsMap(w.cache.store[1..][1..]) == map[] && AsMap(w.cache.store[1..]) == map[3 := z];
    assert AsMap(w.cache.store) == map[3 := z][1 := x];
  }

  lemma {:induction false} NoneInFlight(w: World<nat, nat>, awaited: set<nat>, n: nat)
    requires w.cache.inflight == map[] && n <= |w.futures|
    ensures NotAwaited(w.cache, w.futures, awaited, n) == []
  {
    if n > 0 { NoneInFlight(w, awaited, n - 1); }
  }

  /** What `clean` is for: a fetch that was stale at the call is returned, as documented, though it never reaches the
      store, so that the result is more than the store. */
  lemma StaleIsReturned(v: nat) returns (w: World<nat, nat>)
    ensures Reachable(w) && 9 in w.tasks && w.tasks[9].Settled? && !w.tasks[9].last.clean
    ensures Quiet(w.log, w.tasks[9].last.start) && w.cache.maxsize == None
    ensures w.cache.store == [] && w.tasks[9].result == map[1 := v]
  {
    hide Reachable, Loop, Collect, Touch;
    w := Initial(None);
    ReachInitial<nat, nat>(None);
    w := ReachNext(w, CallResolve(0, 1, true));
    w := ReachNext(w, InvalidateKey(1));
    w := StaleAwaited(w);
    w := ReachNext(w, FetchReturns(0, v));
    ghost var was := w;
    assert w.futures == [Future(1, 0, 0, Landed(v))] && w.cache.store == [] && w.cache.inflight == map[];
    StaleSettles(w, v);
    w := ReachNext(w, SettlerResumes(9));
    LogStays(was, SettlerResumes(9), 9);
    LoopMovesOnly(was, SettlerResumes(9), 9);
  }

  const StaleWait: Settle<nat, nat> := Settle(map[], map[], [], {0}, [0], map[], 2, false, {0})

  lemma StaleAwaited(was: World<nat, nat>) returns (w: World<nat, nat>)
    requires Reachable(was) && was.cache == Cache(None, [], map[1 := 0], {1}, 0, 1, 0)
    requires was.futures == [Future(1, 0, 0, Pending)] && was.tasks == map[0 := Fetching(0)]
    requires was.log == [Began(0, 1), Erased(1)]
    ensures Reachable(w) && w == was.(tasks := map[0 := Fetching(0), 9 := Settling(StaleWait)])
  {
    hide Reachable;
    assert NotAwaited(was.cache, was.futures, {}, 0) == [] && NotAwaited(was.cache, was.futures, {}, 1) == [0];
    assert was.cache.inflight[1] == 0 && was.cache.inflight.Values == {0};
    w := ReachNext(was, CallSettle(9));
    assert w.tasks[9] == Settling(StaleWait);
  }

  lemma StaleSettles(w: World<nat, nat>, v: nat)
    requires w.futures == [Future(1, 0, 0, Landed(v))] && w.cache.store == [] && w.cache.inflight == map[]
    ensures 9 in Loop(w, 9, Collect(w.futures, StaleWait)).tasks
    ensures var task := Loop(w, 9, Collect(w.futures, StaleWait)).tasks[9];
            task.Settled? && task.result == map[1 := v] && !task.last.clean && task.last.start == 2
  {
    var s := Collect(w.futures, StaleWait);
    assert s.todo == [] && Advance(w.futures, s) == s;
    NoneInFlight(w, s.awaited, |w.futures|);
  }
}
