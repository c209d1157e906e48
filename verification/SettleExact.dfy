/** Exactly what `settle_all` (sdk/asynccache.py) returns: for every settler that ends, where each value of its result
    comes from, and when the store it could drop next is in that result. */
module SettleExact {
  import opened Basics
  import opened LruStore
  import opened CacheModel
  import opened CacheInvariant
  import opened CacheSteps
  import opened CacheTheorems
  import opened SettleAll

  // ------------------------------------------------------------------------------------------------------
  // Every fetch that returned is in the log
  // ------------------------------------------------------------------------------------------------------

  /** Event `j` is the return of fetch `f`, stored or withheld. */
  predicate LandsAt<K(==), V(==)>(futures: seq<Future<K, V>>, log: seq<Event<K, V>>, f: nat, j: nat) {
    && f < |futures| && futures[f].outcome.Landed? && j < |log|
    && (log[j] == Stored(f, futures[f].key, futures[f].outcome.value)
        || log[j] == Withheld(f, futures[f].key, futures[f].outcome.value))
  }

  ghost predicate LandingsLogged<K(!new), V(!new)>(futures: seq<Future<K, V>>, log: seq<Event<K, V>>) {
    forall f: nat :: f < |futures| && futures[f].outcome.Landed? ==> HasLanding(futures, log, f)
  }

  ghost predicate HasLanding<K(!new), V(!new)>(futures: seq<Future<K, V>>, log: seq<Event<K, V>>, f: nat) {
    exists j: nat :: LandsAt(futures, log, f, j)
  }

  lemma LandingStays<K(!new), V(!new)>(futures: seq<Future<K, V>>, log: seq<Event<K, V>>, futures': seq<Future<K, V>>,
                                       log': seq<Event<K, V>>, f: nat)
    requires HasLanding(futures, log, f) && FuturesGrow(futures, futures') && log <= log'
    ensures HasLanding(futures', log', f)
  {
    var j: nat :| LandsAt(futures, log, f, j);
    assert LandsAt(futures', log', f, j);
  }

  /** The log only grows, and a fetch that returns in this step is logged by it. */
  lemma StepLogs<K(!new), V(!new)>(w: World<K, V>, a: Action<K, V>)
    requires Inv(w) && Enabled(w, a)
    ensures w.log <= Step(w, a).log
    ensures var w' := Step(w, a);
            forall f: nat :: f < |w'.futures| && w'.futures[f].outcome.Landed?
                             && (f < |w.futures| ==> w.futures[f].outcome.Pending?) ==>
              LandsAt(w'.futures, w'.log, f, |w.log|)
  {
    hide Latest, TasksMatch, StaleMeansErased, LogTold, StoreIsCurrent, Write, WriteMany, Erase, EraseAll, Look, Serve;
    hide Advance, NotAwaited, AsMap, Touch, Land, Drop, Begin, Collect, StartSettle;
  }

  lemma StepLands<K(!new), V(!new)>(w: World<K, V>, a: Action<K, V>)
    requires Inv(w) && Enabled(w, a) && LandingsLogged(w.futures, w.log)
    ensures LandingsLogged(Step(w, a).futures, Step(w, a).log)
  {
    hide Inv, Step, Enabled, FuturesGrow, HasLanding;
    StepGrows(w, a);
    StepLogs(w, a);
    var w' := Step(w, a);
    forall f: nat | f < |w'.futures| && w'.futures[f].outcome.Landed? ensures HasLanding(w'.futures, w'.log, f) {
      if f < |w.futures| && w.futures[f].outcome.Landed? {
        LandingStays(w.futures, w.log, w'.futures, w'.log, f);
      } else {
        OnlyPendingLands(w.futures, w'.futures, f);
        LandedNow(w'.futures, w'.log, f, |w.log|);
      }
    }
  }

  lemma OnlyPendingLands<K(!new), V(!new)>(futures: seq<Future<K, V>>, futures': seq<Future<K, V>>, f: nat)
    requires FuturesGrow(futures, futures') && f < |futures'| && futures'[f].outcome.Landed?
    ensures f < |futures| ==> futures[f].outcome.Pending? || futures[f].outcome.Landed?
  {
  }

  lemma LandedNow<K(!new), V(!new)>(futures: seq<Future<K, V>>, log: seq<Event<K, V>>, f: nat, j: nat)
    requires LandsAt(futures, log, f, j)
    ensures HasLanding(futures, log, f)
  {
  }

  lemma {:induction false} RunLands<K(!new), V(!new)>(states: seq<World<K, V>>, actions: seq<Action<K, V>>, n: nat)
    requires Run(states, actions) && n < |states|
    ensures LandingsLogged(states[n].futures, states[n].log)
  {
    hide Inv, Step, Enabled, LandingsLogged;
    if n == 0 {
      NothingLanded(states[0]);
    } else {
      RunLands(states, actions, n - 1);
      RunKeeps(states, actions, n - 1);
      StepLands(states[n - 1], actions[n - 1]);
    }
  }

  lemma NothingLanded<K(!new), V(!new)>(w: World<K, V>)
    requires exists m :: w == Initial(m)
    ensures LandingsLogged(w.futures, w.log)
  {
  }

  // ------------------------------------------------------------------------------------------------------
  // The last write of a key
  // ------------------------------------------------------------------------------------------------------

  predicate Writes<K(==), V>(e: Event<K, V>, k: K) { (e.Stored? || e.Written?) && e.key == k }

  /** Event `j` wrote what `k` holds: no later one wrote or erased it. */
  ghost predicate IsLastWrite<K(!new), V(!new)>(log: seq<Event<K, V>>, k: K, j: nat) {
    j < |log| && Writes(log[j], k) && forall m :: j < m < |log| ==> !Writes(log[m], k) && !Erases(log[m], k)
  }

  lemma {:induction false} LastWriteIs<K(!new), V(!new)>(log: seq<Event<K, V>>, k: K) returns (j: nat)
    requires LastWrite(log, k).Some?
    ensures IsLastWrite(log, k, j) && LastWrite(log, k) == Some(log[j].value)
  {
    var n := |log| - 1;
    if Writes(log[n], k) {
      j := n;
    } else {
      j := LastWriteIs(log[..n], k);
      assert forall m :: 0 <= m < n ==> log[..n][m] == log[m];
    }
  }

  /** Whether the last write of `k` is of another value than fetch `g` returned and came later than that. */
  ghost predicate Overtaken<K(!new), V(!new)>(futures: seq<Future<K, V>>, log: seq<Event<K, V>>, k: K, g: nat) {
    exists j: nat :: IsLastWrite(log, k, j) && g < |futures| && futures[g].outcome.Landed?
                     && log[j].value != futures[g].outcome.value && CameLater(futures, log, k, g, j)
  }

  /** Event `j` came after fetch `g` returned, or after the `invalidate` for which `g` was withheld. */
  ghost predicate CameLater<K(!new), V(!new)>(futures: seq<Future<K, V>>, log: seq<Event<K, V>>, k: K, g: nat, j: nat)
    requires g < |futures| && j < |log|
  {
    exists l: nat :: LandsAt(futures, log, g, l)
                     && (l < j || (log[l].Withheld? && exists m: nat :: futures[g].born < m < j && Erases(log[m], k)))
  }

  /** An entry of the store whose key a taken fetch returned another value for was written later than that fetch: no older
      value comes back into the store. */
  lemma EntryOvertakes<K(!new), V(!new)>(w: World<K, V>, k: K, g: nat)
    requires Inv(w) && LandingsLogged(w.futures, w.log)
    requires g < |w.futures| && w.futures[g].key == k && w.futures[g].outcome.Landed?
    requires Get(w.cache.store, k).Some?
    ensures Get(w.cache.store, k).value != w.futures[g].outcome.value <==> Overtaken(w.futures, w.log, k, g)
  {
    hide OneFlight, Latest, TasksMatch, StaleMeansErased, Erases, Get, LastWrite;
    GetFinds(w.cache.store, k);
    assert Entry(k, Get(w.cache.store, k).value) in w.cache.store;
    var j := LastWriteIs(w.log, k);
    OneLastWrite(w.log, k);
    if Get(w.cache.store, k).value != w.futures[g].outcome.value {
      assert HasLanding(w.futures, w.log, g);
      var l: nat :| LandsAt(w.futures, w.log, g, l);
      StoredWrites(w.log, l, k);
      if l > j {
        assert w.log[l].Withheld?;
        assert EventTold(w.futures, w.log, l);
        var m: nat :| w.futures[g].born < m < l && Erases(w.log[m], k);
        NoWriteErases(w.log[j], k);
        assert m < j;
      }
      assert CameLater(w.futures, w.log, k, g, j);
    }
  }

  lemma OneLastWrite<K(!new), V(!new)>(log: seq<Event<K, V>>, k: K)
    ensures forall i: nat, j: nat :: IsLastWrite(log, k, i) && IsLastWrite(log, k, j) ==> i == j
  {
  }

  lemma StoredWrites<K(!new), V(!new)>(log: seq<Event<K, V>>, l: nat, k: K)
    requires l < |log|
    ensures log[l].Stored? && log[l].key == k ==> Writes(log[l], k)
  {
  }

  lemma NoWriteErases<K(!new), V(!new)>(e: Event<K, V>, k: K)
    ensures Writes(e, k) ==> !Erases(e, k)
  {
  }

  // ------------------------------------------------------------------------------------------------------
  // What a settler held at its call, and the order of fetches
  // ------------------------------------------------------------------------------------------------------

  /** What a settler held was written before its call. */
  ghost predicate HeldWritten<K(!new), V(!new)>(log: seq<Event<K, V>>, s: Settle<K, V>) {
    s.start <= |log| && forall k :: k in s.held ==> WrittenBefore(log, k, s.held[k], s.start)
  }

  ghost predicate WrittenBefore<K(!new), V(!new)>(log: seq<Event<K, V>>, k: K, v: V, start: nat) {
    exists j: nat :: j < start && WroteAt(log, k, v, j)
  }

  ghost predicate SettlersHeld<K(!new), V(!new)>(w: World<K, V>) {
    forall t :: t in w.tasks && w.tasks[t].Settling? ==> HeldWritten(w.log, w.tasks[t].wait)
  }

  predicate Returned<K, V>(e: Event<K, V>) { e.Stored? || e.Withheld? }

  /** A fetch returned before the next one of its key began. */
  ghost predicate OneByOne<K(!new), V(!new)>(futures: seq<Future<K, V>>, log: seq<Event<K, V>>) {
    forall j: nat, f: nat :: j < |log| && Returned(log[j]) && f < |futures| && log[j].f < f && futures[f].key == log[j].key ==>
      j < futures[f].born
  }

  /** Fetches are numbered in the order they begin. */
  ghost predicate BegunInOrder<K(!new), V(!new)>(futures: seq<Future<K, V>>, log: seq<Event<K, V>>) {
    && (forall f, g :: 0 <= f < g < |futures| ==> futures[f].born < futures[g].born)
    && (forall f :: 0 <= f < |futures| ==> futures[f].born < |log|)
  }

  lemma HeldStays<K(!new), V(!new)>(log: seq<Event<K, V>>, log': seq<Event<K, V>>, s: Settle<K, V>, s': Settle<K, V>)
    requires HeldWritten(log, s) && log <= log' && SameCall(s, s')
    ensures HeldWritten(log', s')
  {
    forall k | k in s.held ensures WrittenBefore(log', k, s.held[k], s.start) {
      assert WrittenBefore(log, k, s.held[k], s.start);
      var j: nat :| j < s.start && WroteAt(log, k, s.held[k], j);
      assert WroteAt(log', k, s.held[k], j);
    }
  }

  lemma CallHolds<K(!new), V(!new)>(w: World<K, V>)
    requires Inv(w)
    ensures HeldWritten(w.log, StartSettle(w))
  {
    hide OneFlight, Latest, TasksMatch, StaleMeansErased, LogTold, AsMap, Get, LastWrite;
    AsMapGets(w.cache.store);
    forall k | k in AsMap(w.cache.store) ensures WrittenBefore(w.log, k, AsMap(w.cache.store)[k], |w.log|) {
      GetFinds(w.cache.store, k);
      assert Entry(k, AsMap(w.cache.store)[k]) in w.cache.store;
      LastWriteAt(w.log, k);
      var j: nat :| WroteAt(w.log, k, AsMap(w.cache.store)[k], j) && Untouched(w.log, k, j, |w.log|);
    }
  }

  lemma SettlerHolds<K(!new), V(!new)>(w: World<K, V>, a: Action<K, V>, t: nat)
    requires Inv(w) && SettlersParked(w) && SettlersHeld(w) && Enabled(w, a) && Settles(a, t)
    ensures match Step(w, a).tasks[t]
            case Settling(s) => HeldWritten(w.log, s)
            case Settled(_, _, last) => HeldWritten(w.log, last)
            case _ => false
  {
    hide Inv, SettlersParked, Step, HeldWritten, Gathered, AsMap;
    SettlerSteps(w, a, t);
    var s := if a == CallSettle(t) then StartSettle(w) else w.tasks[t].wait;
    if a == CallSettle(t) { CallHolds(w); }
    TaskThere(w, a, t);
    match Step(w, a).tasks[t]
    case Settling(s') => HeldStays(w.log, w.log, s, s');
    case Settled(_, _, last) => HeldStays(w.log, w.log, s, last);
    case _ =>
  }

  lemma SettlersStillHold<K(!new), V(!new)>(w: World<K, V>, a: Action<K, V>)
    requires Inv(w) && SettlersParked(w) && SettlersHeld(w) && Enabled(w, a)
    ensures SettlersHeld(Step(w, a))
  {
    hide Inv, SettlersParked, Step, Enabled, HeldWritten, FuturesGrow;
    StepGrows(w, a);
    StepLogs(w, a);
    var w' := Step(w, a);
    forall t | t in w'.tasks && w'.tasks[t].Settling? ensures HeldWritten(w'.log, w'.tasks[t].wait) {
      if Settles(a, t) { SettlerHolds(w, a, t); }
      var s := w'.tasks[t].wait;
      HeldStays(w.log, w'.log, s, s);
    }
  }

  lemma StepBegins<K(!new), V(!new)>(w: World<K, V>, a: Action<K, V>)
    requires Inv(w) && Enabled(w, a) && BegunInOrder(w.futures, w.log)
    ensures BegunInOrder(Step(w, a).futures, Step(w, a).log)
  {
    hide Latest, TasksMatch, StaleMeansErased, LogTold, StoreIsCurrent, Write, WriteMany, Erase, EraseAll, Look, Serve;
    hide Advance, NotAwaited, AsMap, Touch, Land, Drop, Begin, Collect, StartSettle, OneFlight;
  }

  lemma StepOneByOne<K(!new), V(!new)>(w: World<K, V>, a: Action<K, V>)
    requires Inv(w) && Enabled(w, a) && OneByOne(w.futures, w.log)
    ensures OneByOne(Step(w, a).futures, Step(w, a).log)
  {
    hide TasksMatch, StaleMeansErased, LogTold, StoreIsCurrent, Write, WriteMany, Erase, EraseAll, Look, Serve;
    hide Advance, NotAwaited, AsMap, Touch, Land, Drop, Begin, Collect, StartSettle;
  }

  lemma {:induction false} RunHolds<K(!new), V(!new)>(states: seq<World<K, V>>, actions: seq<Action<K, V>>, n: nat)
    requires Run(states, actions) && n < |states|
    ensures SettlersHeld(states[n]) && BegunInOrder(states[n].futures, states[n].log)
    ensures OneByOne(states[n].futures, states[n].log)
  {
    hide Inv, SettlersParked, Step, Enabled, SettlersHeld, BegunInOrder, OneByOne;
    if n == 0 {
      NobodyHolds(states[0]);
    } else {
      RunHolds(states, actions, n - 1);
      RunParked(states, actions, n - 1);
      SettlersStillHold(states[n - 1], actions[n - 1]);
      StepBegins(states[n - 1], actions[n - 1]);
      StepOneByOne(states[n - 1], actions[n - 1]);
    }
  }

  lemma NobodyHolds<K(!new), V(!new)>(w: World<K, V>)
    requires exists m :: w == Initial(m)
    ensures SettlersHeld(w) && BegunInOrder(w.futures, w.log) && OneByOne(w.futures, w.log)
  {
  }

  // ------------------------------------------------------------------------------------------------------
  // The ending of a settler
  // ------------------------------------------------------------------------------------------------------

  /** The state a settler ends in, with what it had gathered and what it returns. */
  ghost predicate Ended<K(!new), V(!new)>(w: World<K, V>, last: Settle<K, V>, result: map<K, V>) {
    && Inv(w) && LandingsLogged(w.futures, w.log) && BegunInOrder(w.futures, w.log) && OneByOne(w.futures, w.log)
    && Gathered(w.futures, last) && last.todo == [] && HeldWritten(w.log, last)
    && result == last.held + AsMap(w.cache.store) + last.landed
  }

  lemma EndingIs<K(!new), V(!new)>(states: seq<World<K, V>>, actions: seq<Action<K, V>>, n: nat, t: nat)
    requires EndsSettler(states, actions, n, t)
    ensures var w := states[n + 1]; Ended(w, w.tasks[t].last, w.tasks[t].result)
  {
    hide Inv, SettlersParked, Step, Enabled, AsMap, Gathered, HeldWritten, LandingsLogged, BegunInOrder, SettlersHeld;
    hide OneByOne;
    EndingSettles(states, actions, n, t);
    RunHolds(states, actions, n);
    RunHolds(states, actions, n + 1);
    RunLands(states, actions, n + 1);
    RunKeeps(states, actions, n + 1);
    SettlerSteps(states[n], actions[n], t);
    SettlerHolds(states[n], actions[n], t);
    LogStays(states[n], actions[n], t);
  }

  /** A fetch of `k` the settler awaited that returned. */
  predicate Taken<K(==), V>(futures: seq<Future<K, V>>, last: Settle<K, V>, k: K, g: nat) {
    g in last.awaited && g < |futures| && futures[g].key == k && futures[g].outcome.Landed?
  }

  /** The latest of them. */
  ghost predicate LastTaken<K(!new), V(!new)>(futures: seq<Future<K, V>>, last: Settle<K, V>, k: K, g: nat) {
    Taken(futures, last, k, g) && forall h: nat :: Taken(futures, last, k, h) ==> h <= g
  }

  lemma LandedIsLastTaken<K(!new), V(!new)>(w: World<K, V>, last: Settle<K, V>, result: map<K, V>, k: K)
    requires Ended(w, last, result)
    ensures k in last.landed ==> k in last.givenBy && LastTaken(w.futures, last, k, last.givenBy[k])
                                 && last.landed[k] == w.futures[last.givenBy[k]].outcome.value
    ensures forall g: nat :: Taken(w.futures, last, k, g) ==> k in last.landed
    ensures forall g: nat :: LastTaken(w.futures, last, k, g) ==> g == last.givenBy[k]
  {
    hide Inv, LandingsLogged, BegunInOrder, OneByOne, HeldWritten, AsMap;
    forall g: nat | Taken(w.futures, last, k, g) ensures k in last.landed && g <= last.givenBy[k] {
      assert Behind(last, g);
    }
  }

  /** Where the result has `k` from: the latest fetch of it that was taken, else the store, else what was held. */
  lemma ResultIs<K(!new), V(!new)>(w: World<K, V>, last: Settle<K, V>, result: map<K, V>, k: K)
    requires Ended(w, last, result)
    ensures k in result <==> k in last.landed || Get(w.cache.store, k).Some? || k in last.held
    ensures k in result ==>
              result[k] == if k in last.landed then last.landed[k]
                           else if Get(w.cache.store, k).Some? then Get(w.cache.store, k).value else last.held[k]
  {
    hide Inv, LandingsLogged, BegunInOrder, OneByOne, HeldWritten, Gathered, AsMap, Get;
    AsMapGets(w.cache.store);
  }

  // ------------------------------------------------------------------------------------------------------
  // The store in the result
  // ------------------------------------------------------------------------------------------------------

  /** Every settled value is in the result: what an `invalidate` would now drop was returned. */
  ghost predicate StoreReturned<K(!new), V(!new)>(w: World<K, V>, result: map<K, V>) {
    forall k :: Get(w.cache.store, k).Some? ==> k in result && result[k] == Get(w.cache.store, k).value
  }

  /** No entry of the store overtook the fetch that the settler last took for its key. */
  ghost predicate NoneOvertaken<K(!new), V(!new)>(w: World<K, V>, last: Settle<K, V>) {
    forall k, g: nat :: LastTaken(w.futures, last, k, g) && Get(w.cache.store, k).Some? ==>
      !Overtaken(w.futures, w.log, k, g)
  }

  lemma EntryReturned<K(!new), V(!new)>(w: World<K, V>, last: Settle<K, V>, result: map<K, V>, k: K)
    requires Ended(w, last, result) && Get(w.cache.store, k).Some?
    ensures (k in result && result[k] == Get(w.cache.store, k).value)
            <==> forall g: nat :: LastTaken(w.futures, last, k, g) ==> !Overtaken(w.futures, w.log, k, g)
  {
    hide Inv, LandingsLogged, BegunInOrder, OneByOne, HeldWritten, Gathered, AsMap, Get, Overtaken;
    ResultIs(w, last, result, k);
    LandedIsLastTaken(w, last, result, k);
    if k in last.landed { EntryOvertakes(w, k, last.givenBy[k]); }
  }

  /** Over every ending settler, whatever happened meanwhile: every settled value is in the result exactly if no key whose
      awaited fetch was taken was then written again, with another value that it still has at the return. */
  lemma StoreReturnedExactly<K(!new), V(!new)>(states: seq<World<K, V>>, actions: seq<Action<K, V>>, n: nat, t: nat)
    requires EndsSettler(states, actions, n, t)
    ensures var w := states[n + 1];
            StoreReturned(w, w.tasks[t].result) <==> NoneOvertaken(w, w.tasks[t].last)
  {
    hide Ended, Get, Overtaken, LastTaken;
    EndingIs(states, actions, n, t);
    var w := states[n + 1];
    var (last, result) := (w.tasks[t].last, w.tasks[t].result);
    forall k | Get(w.cache.store, k).Some?
      ensures (k in result && result[k] == Get(w.cache.store, k).value)
              <==> forall g: nat :: LastTaken(w.futures, last, k, g) ==> !Overtaken(w.futures, w.log, k, g)
    {
      EntryReturned(w, last, result, k);
    }
  }

  /** And the result is the store exactly if moreover every key held at the call or taken is still in the store. */
  lemma ResultIsStoreExactly<K(!new), V(!new)>(states: seq<World<K, V>>, actions: seq<Action<K, V>>, n: nat, t: nat)
    requires EndsSettler(states, actions, n, t)
    ensures var w := states[n + 1];
            var (last, result) := (w.tasks[t].last, w.tasks[t].result);
            result == AsMap(w.cache.store) <==>
            && NoneOvertaken(w, last)
            && (forall k :: k in last.held ==> Get(w.cache.store, k).Some?)
            && (forall k, g: nat :: Taken(w.futures, last, k, g) ==> Get(w.cache.store, k).Some?)
  {
    hide Ended, Get, AsMap, NoneOvertaken, Taken, LastTaken, StoreReturned;
    EndingIs(states, actions, n, t);
    StoreReturnedExactly(states, actions, n, t);
    var w := states[n + 1];
    var (last, result) := (w.tasks[t].last, w.tasks[t].result);
    AsMapGets(w.cache.store);
    forall k ensures InResult(w, last, result, k) { ResultKeys(w, last, result, k); }
    ReturnedIsEqual(w, last, result);
  }

  /** Which keys the result has. */
  ghost predicate InResult<K(!new), V(!new)>(w: World<K, V>, last: Settle<K, V>, result: map<K, V>, k: K) {
    k in result <==> (exists g: nat :: Taken(w.futures, last, k, g)) || Get(w.cache.store, k).Some? || k in last.held
  }

  lemma ResultKeys<K(!new), V(!new)>(w: World<K, V>, last: Settle<K, V>, result: map<K, V>, k: K)
    requires Ended(w, last, result)
    ensures InResult(w, last, result, k)
  {
    hide Ended, Get, LastTaken, Taken;
    ResultIs(w, last, result, k);
    LandedIsLastTaken(w, last, result, k);
    if k in last.landed { LastTakenIsTaken(w.futures, last, k, last.givenBy[k]); }
  }

  lemma ReturnedIsEqual<K(!new), V(!new)>(w: World<K, V>, last: Settle<K, V>, result: map<K, V>)
    requires forall k :: InResult(w, last, result, k)
    ensures result == AsMap(w.cache.store) <==>
            && StoreReturned(w, result)
            && (forall k :: k in last.held ==> Get(w.cache.store, k).Some?)
            && (forall k, g: nat :: Taken(w.futures, last, k, g) ==> Get(w.cache.store, k).Some?)
  {
    hide Get, AsMap, Taken;
    AsMapGets(w.cache.store);
    assert forall k :: k in result ==> InResult(w, last, result, k);
    assert forall k, g: nat :: Taken(w.futures, last, k, g) ==> InResult(w, last, result, k);
    assert forall k :: k in last.held ==> InResult(w, last, result, k);
  }

  lemma LastTakenIsTaken<K(!new), V(!new)>(futures: seq<Future<K, V>>, last: Settle<K, V>, k: K, g: nat)
    requires LastTaken(futures, last, k, g)
    ensures Taken(futures, last, k, g)
  {
  }

  // ------------------------------------------------------------------------------------------------------
  // A fetch in the result
  // ------------------------------------------------------------------------------------------------------

  /** Event `e` brought `v` for `k`: a fetch returned it, or it was put. */
  predicate Brings<K(==), V(==)>(e: Event<K, V>, k: K, v: V) {
    (e.Stored? || e.Withheld? || e.Written?) && e.key == k && e.value == v
  }

  /** `v` is the value of fetch `f` or of a later fetch of the key, or was put after `f` began. */
  ghost predicate BroughtSince<K(!new), V(!new)>(futures: seq<Future<K, V>>, log: seq<Event<K, V>>, f: nat, k: K, v: V)
    requires f < |futures|
  {
    exists j: nat :: j < |log| && Brings(log[j], k, v) && IsSince(futures, log, f, j)
  }

  predicate IsSince<K, V>(futures: seq<Future<K, V>>, log: seq<Event<K, V>>, f: nat, j: nat)
    requires f < |futures| && j < |log|
  {
    if log[j].Written? then futures[f].born < j else Returned(log[j]) && f <= log[j].f
  }

  /** The key's values were all different. */
  ghost predicate DistinctValues<K(!new), V(!new)>(log: seq<Event<K, V>>, k: K) {
    forall i: nat, j: nat, v: V :: i < |log| && j < |log| && Brings(log[i], k, v) && Brings(log[j], k, v) ==> i == j
  }

  /** `f` or a later fetch of its key was in flight when a round looked, and returned; or the key is in the store, and no
      fetch of it was taken. */
  ghost predicate Caught<K(!new), V(!new)>(w: World<K, V>, last: Settle<K, V>, f: nat)
    requires f < |w.futures|
  {
    var k := w.futures[f].key;
    || (exists g: nat :: f <= g && Taken(w.futures, last, k, g))
    || (Get(w.cache.store, k).Some? && forall g: nat :: !Taken(w.futures, last, k, g))
  }

  /** What a returned fetch left of its key was written since it began. */
  lemma StoredSince<K(!new), V(!new)>(w: World<K, V>, f: nat, k: K)
    requires Inv(w) && LandingsLogged(w.futures, w.log) && OneByOne(w.futures, w.log)
    requires f < |w.futures| && w.futures[f].outcome.Landed? && w.futures[f].key == k && Get(w.cache.store, k).Some?
    ensures BroughtSince(w.futures, w.log, f, k, Get(w.cache.store, k).value)
  {
    hide OneFlight, Latest, TasksMatch, StaleMeansErased, Erases, Get, LastWrite;
    GetFinds(w.cache.store, k);
    assert Entry(k, Get(w.cache.store, k).value) in w.cache.store;
    var j := LastWriteIs(w.log, k);
    assert HasLanding(w.futures, w.log, f);
    var l: nat :| LandsAt(w.futures, w.log, f, l);
    StoredWrites(w.log, l, k);
    NoWriteErases(w.log[j], k);
    assert EventTold(w.futures, w.log, l);
    assert w.futures[f].born < j by {
      if w.log[l].Withheld? {
        var m: nat :| w.futures[f].born < m < l && Erases(w.log[m], k);
        assert m < j;
      } else {
        assert l <= j;
      }
    }
    assert Brings(w.log[j], k, Get(w.cache.store, k).value) && IsSince(w.futures, w.log, f, j);
  }

  lemma TakenSince<K(!new), V(!new)>(w: World<K, V>, f: nat, k: K, g: nat)
    requires LandingsLogged(w.futures, w.log) && f <= g < |w.futures|
    requires w.futures[g].key == k && w.futures[g].outcome.Landed?
    ensures BroughtSince(w.futures, w.log, f, k, w.futures[g].outcome.value)
  {
    assert HasLanding(w.futures, w.log, g);
    var l: nat :| LandsAt(w.futures, w.log, g, l);
    assert Brings(w.log[l], k, w.futures[g].outcome.value) && IsSince(w.futures, w.log, f, l);
  }

  /** A value of an earlier fetch is no value since `f`. */
  lemma TakenBefore<K(!new), V(!new)>(w: World<K, V>, f: nat, k: K, g: nat)
    requires LandingsLogged(w.futures, w.log) && g < f < |w.futures| && DistinctValues(w.log, k)
    requires w.futures[g].key == k && w.futures[g].outcome.Landed?
    ensures !BroughtSince(w.futures, w.log, f, k, w.futures[g].outcome.value)
  {
    assert HasLanding(w.futures, w.log, g);
    var l: nat :| LandsAt(w.futures, w.log, g, l);
    assert Brings(w.log[l], k, w.futures[g].outcome.value) && !IsSince(w.futures, w.log, f, l);
  }

  /** Nor is one held at the call of a settler that `f` began after. */
  lemma HeldBefore<K(!new), V(!new)>(w: World<K, V>, last: Settle<K, V>, f: nat, k: K)
    requires LogTold(w.futures, w.log) && BegunInOrder(w.futures, w.log) && HeldWritten(w.log, last)
    requires f < |w.futures| && last.start <= w.futures[f].born && DistinctValues(w.log, k) && k in last.held
    ensures !BroughtSince(w.futures, w.log, f, k, last.held[k])
  {
    hide Untouched;
    assert WrittenBefore(w.log, k, last.held[k], last.start);
    var i: nat :| i < last.start && WroteAt(w.log, k, last.held[k], i);
    assert Brings(w.log[i], k, last.held[k]) && EventTold(w.futures, w.log, i);
    assert !IsSince(w.futures, w.log, f, i);
  }

  lemma CaughtIsReturned<K(!new), V(!new)>(w: World<K, V>, last: Settle<K, V>, result: map<K, V>, f: nat)
    requires Ended(w, last, result) && f < |w.futures| && w.futures[f].outcome.Landed? && Caught(w, last, f)
    ensures var k := w.futures[f].key; k in result && BroughtSince(w.futures, w.log, f, k, result[k])
  {
    hide Inv, LandingsLogged, BegunInOrder, OneByOne, HeldWritten, Gathered, AsMap, Get, BroughtSince;
    var k := w.futures[f].key;
    ResultIs(w, last, result, k);
    LandedIsLastTaken(w, last, result, k);
    if k in last.landed {
      TakenSince(w, f, k, last.givenBy[k]);
    } else {
      StoredSince(w, f, k);
    }
  }

  lemma ReturnedIsCaught<K(!new), V(!new)>(w: World<K, V>, last: Settle<K, V>, result: map<K, V>, f: nat)
    requires Ended(w, last, result) && f < |w.futures| && w.futures[f].outcome.Landed? && !Caught(w, last, f)
    requires last.start <= w.futures[f].born && DistinctValues(w.log, w.futures[f].key)
    ensures var k := w.futures[f].key; k in result ==> !BroughtSince(w.futures, w.log, f, k, result[k])
  {
    hide OneFlight, Latest, TasksMatch, StaleMeansErased, LogTold, StoreIsCurrent;
    hide LandingsLogged, BegunInOrder, OneByOne, HeldWritten, Gathered, AsMap, Get, BroughtSince, DistinctValues;
    var k := w.futures[f].key;
    ResultIs(w, last, result, k);
    LandedIsLastTaken(w, last, result, k);
    if k in last.landed {
      TakenBefore(w, f, k, last.givenBy[k]);
    } else if k in result {
      HeldBefore(w, last, f, k);
    }
  }

  /** Over every ending settler, whatever happened meanwhile: a fetch that began during the wait and returned has its value,
      or a later one of its key, in the result exactly if it or a later fetch of the key was in flight when a round looked
      and returned, or the key is in the store at the return and no earlier fetch of it was taken. (A value counts as its
      own where the key's values were all different; a fetch that was caught is returned in any case.) */
  lemma FetchReturnedExactly<K(!new), V(!new)>(states: seq<World<K, V>>, actions: seq<Action<K, V>>, n: nat, t: nat, f: nat)
    requires EndsSettler(states, actions, n, t)
    requires f < |states[n + 1].futures| && states[n + 1].futures[f].outcome.Landed?
    ensures var w := states[n + 1];
            var (last, result, k) := (w.tasks[t].last, w.tasks[t].result, w.futures[f].key);
            && (Caught(w, last, f) ==> k in result && BroughtSince(w.futures, w.log, f, k, result[k]))
            && (last.start <= w.futures[f].born && DistinctValues(w.log, k) ==>
                  (Caught(w, last, f) <==> k in result && BroughtSince(w.futures, w.log, f, k, result[k])))
  {
    hide Ended, Caught, BroughtSince, DistinctValues;
    EndingIs(states, actions, n, t);
    var w := states[n + 1];
    var (last, result) := (w.tasks[t].last, w.tasks[t].result);
    if Caught(w, last, f) {
      CaughtIsReturned(w, last, result, f);
    } else if last.start <= w.futures[f].born && DistinctValues(w.log, w.futures[f].key) {
      ReturnedIsCaught(w, last, result, f);
    }
  }
}
