/** `AsyncOnce` (sdk/_util/once.py): one lazily opened value on an `AsyncKeyedCache` with a single key. Any number of
    callers of `get` run beside at most one `close` at a time. */
module AsyncOnces {
  import opened Basics
  import opened LruStore
  import opened CacheModel
  import opened CacheInvariant
  import opened CacheSteps
  import opened SettleAll

  /** Where `close` is: not called, in `settle_all` as task `t`, or awaiting `close_value`. */
  datatype Closer = Idle | Waiting(t: nat) | Closing

  /** `produced` and `closed` list the values that opens returned and that `close_value` was called with. */
  datatype Once<V> = Once(w: World<(), V>, closer: Closer, produced: seq<V>, closed: seq<V>)

  datatype OnceAction<V> =
    | CallGet(t: nat)
    | OpenReturns(t: nat, value: V)
    | OpenRaises(t: nat, error: Error)
    | OpenerCancelled(t: nat)
    | GetterResumes(t: nat)
    | GetterCancelled(t: nat)
    | Close(t: nat)
    | CloseResumes
    | CloseCancelled
    | CloseEnds

  /** The cache's step behind one of these, if it takes one. */
  function CacheAction<V>(o: Once<V>, a: OnceAction<V>): Option<Action<(), V>> {
    match a
    case CallGet(t) => Some(CallResolve(t, (), true))
    case OpenReturns(t, v) => Some(FetchReturns(t, v))
    case OpenRaises(t, e) => Some(FetchRaises(t, e))
    case OpenerCancelled(t) => Some(OwnerCancelled(t))
    case GetterResumes(t) => Some(JoinerResumes(t))
    case GetterCancelled(t) => Some(JoinerCancelled(t))
    case Close(t) => Some(CallSettle(t))
    case CloseResumes => if o.closer.Waiting? then Some(SettlerResumes(o.closer.t)) else None
    case CloseCancelled => if o.closer.Waiting? then Some(SettlerCancelled(o.closer.t)) else None
    case CloseEnds => None
  }

  predicate CanStep<V>(o: Once<V>, a: OnceAction<V>) {
    && (a.Close? ==> o.closer.Idle?)
    && (a.CloseResumes? ==> o.closer.Waiting?)
    && (a.CloseCancelled? ==> !o.closer.Idle?)
    && (a.CloseEnds? ==> o.closer.Closing?)
    && (CacheAction(o, a).Some? ==> Enabled(o.w, CacheAction(o, a).value))
  }

  function Values<V>(m: map<(), V>): seq<V> {
    if () in m then [m[()]] else []
  }

  /** `close` in `settle_all`: parked again, or through: the cache dropped and `close_value` called, all before the next
      `await`. */
  function AfterSettle<V>(o: Once<V>, w: World<(), V>, t: nat): Once<V>
    requires t in w.tasks
  {
    if !w.tasks[t].Settled? then o.(w := w, closer := Waiting(t))
    else
      var values := Values(w.tasks[t].result);
      Once(w.(cache := EraseAll(w.cache), log := w.log + [ErasedAll]), if values == [] then Idle else Closing, o.produced,
           o.closed + values)
  }

  function OnceStep<V>(o: Once<V>, a: OnceAction<V>): Once<V>
    requires CanStep(o, a)
  {
    var b := CacheAction(o, a);
    match a
    case OpenReturns(_, v) => o.(w := Step(o.w, b.value), produced := o.produced + [v])
    case Close(t) => AfterSettle(o, Step(o.w, b.value), t)
    case CloseResumes => AfterSettle(o, Step(o.w, b.value), o.closer.t)
    case CloseCancelled => o.(w := if b.Some? then Step(o.w, b.value) else o.w, closer := Idle)
    case CloseEnds => o.(closer := Idle)
    case _ => o.(w := Step(o.w, b.value))
  }

  ghost predicate OnceRun<V(!new)>(states: seq<Once<V>>, actions: seq<OnceAction<V>>) {
    && |states| == |actions| + 1
    && states[0] == Once(Initial(None), Idle, [], [])
    && forall i :: 0 <= i < |actions| ==>
         CanStep(states[i], actions[i]) && states[i + 1] == OnceStep(states[i], actions[i])
  }

  /** What `settle_all` needs to return the store, and the one entry the store may have. */
  ghost predicate Ready<V(!new)>(w: World<(), V>) {
    && Inv(w) && SettlersParked(w) && SettlersSteady(w) && w.cache.maxsize.None?
  }

  ghost predicate Apart<V(!new)>(c: Cache<(), V>) {
    c.stale == {} && (c.store == [] || (c.inflight == map[] && |c.store| == 1))
  }

  /** Every opened value was closed, or is held. */
  ghost predicate Balanced<V(!new)>(store: Store<(), V>, produced: seq<V>, closed: seq<V>) {
    multiset(produced) == multiset(closed) + multiset(Values(AsMap(store)))
  }

  /** Only the running close waits in `settle_all`. */
  ghost predicate OnlyCloserWaits<V(!new)>(w: World<(), V>, closer: Closer) {
    forall t :: t in w.tasks && w.tasks[t].Settling? ==> closer == Waiting(t) && Calm(w, w.tasks[t].wait)
  }

  ghost predicate OnceInv<V(!new)>(o: Once<V>) {
    && Ready(o.w) && Apart(o.w.cache) && Balanced(o.w.cache.store, o.produced, o.closed)
    && OnlyCloserWaits(o.w, o.closer)
  }

  lemma ReadyKept<V(!new)>(w: World<(), V>, a: Action<(), V>)
    requires Ready(w) && Enabled(w, a) && !a.Resize?
    ensures Ready(Step(w, a))
  {
    hide Inv, SettlersParked, SettlersSteady, Enabled, Step;
    StepKeeps(w, a);
    SettlersStayParked(w, a);
    SettlersStaySteady(w, a);
    BoundStays(w, a);
  }

  lemma BoundStays<V(!new)>(w: World<(), V>, a: Action<(), V>)
    requires Enabled(w, a) && !a.Resize?
    ensures Step(w, a).cache.maxsize == w.cache.maxsize
  {
    hide Advance, NotAwaited, AsMap, Touch, Collect, StartSettle, Get;
  }

  predicate FromGetter<V>(a: Action<(), V>) {
    match a
    case CallResolve(_, _, _) => true
    case FetchReturns(_, _) | FetchRaises(_, _) | OwnerCancelled(_) | JoinerResumes(_) | JoinerCancelled(_) => true
    case _ => false
  }

  lemma OneKey<V(!new)>(c: Cache<(), V>)
    requires DistinctKeys(c.store)
    ensures |c.store| <= 1
    ensures Get(c.store, ()).Some? <==> |c.store| == 1
    ensures forall v :: Touch(c.store, (), v) == [Entry((), v)]
    ensures Values(AsMap(c.store)) == if c.store == [] then [] else [c.store[0].value]
  {
    assert forall i :: 0 <= i < |c.store| ==> c.store[i].key == ();
    if |c.store| > 1 { FirstTwoDiffer(c.store); assert false; }
    if c.store != [] {
      assert c.store[1..] == [] && Without(c.store[1..], ()) == [];
    }
    assert Without(c.store, ()) == [];
    assert forall v :: Touch(c.store, (), v) == Without(c.store, ()) + [Entry((), v)];
  }

  lemma EnterApart<V(!new)>(w: World<(), V>, t: nat, canFetch: bool)
    requires DistinctKeys(w.cache.store) && Apart(w.cache)
    ensures var c' := Enter(w, t, (), canFetch).cache;
            Apart(c') && Values(AsMap(c'.store)) == Values(AsMap(w.cache.store))
  {
    hide Touch, AsMap;
    OneKey(w.cache);
    OneKey(Enter(w, t, (), canFetch).cache) by {
      if Get(w.cache.store, ()).Some? { TouchKeeps(w.cache.store, (), Get(w.cache.store, ()).value); }
    }
  }

  lemma FinishApart<V(!new)>(w: World<(), V>, t: nat, f: nat, v: V)
    requires Inv(w) && w.cache.maxsize.None? && Apart(w.cache) && Owns(w.tasks, t, f) && f < |w.futures|
    ensures var c' := Finish(w, t, f, v).cache;
            Apart(c') && Values(AsMap(w.cache.store)) == [] && Values(AsMap(c'.store)) == [v]
  {
    hide OneFlight, Latest, TasksMatch, StaleMeansErased, LogTold, Touch, AsMap;
    OwnedKey(w.cache.inflight, w.futures, w.tasks, t, f);
    OneKey(w.cache);
    assert w.futures[f].key == ();
    var c' := Finish(w, t, f, v).cache;
    assert c'.store == [Entry((), v)];
    OneKey(c');
    assert forall k: () :: k in c'.inflight ==> k == ();
    assert c'.inflight == map[];
  }

  lemma BreakApart<V(!new)>(w: World<(), V>, t: nat, f: nat, outcome: Outcome<V>)
    requires Apart(w.cache) && f < |w.futures|
    ensures Apart(Break(w, t, f, outcome).cache) && Break(w, t, f, outcome).cache.store == w.cache.store
  {
  }

  /** A step of a getter: an open that returned puts its value in the store. */
  lemma GetterStep<V(!new)>(w: World<(), V>, a: Action<(), V>)
    requires Inv(w) && w.cache.maxsize.None? && Apart(w.cache) && FromGetter(a) && Enabled(w, a)
    ensures var c' := Step(w, a).cache;
            Apart(c') && Values(AsMap(c'.store)) == Values(AsMap(w.cache.store)) + if a.FetchReturns? then [a.value] else []
  {
    hide OneFlight, Latest, TasksMatch, StaleMeansErased, LogTold, Enter, Finish, Break, AsMap, Apart;
    match a
    case CallResolve(t, k, canFetch) => assert k == (); EnterApart(w, t, canFetch);
    case FetchReturns(t, v) => FinishApart(w, t, w.tasks[t].f, v);
    case FetchRaises(t, e) => BreakApart(w, t, w.tasks[t].f, Failed(e));
    case OwnerCancelled(t) => BreakApart(w, t, w.tasks[t].f, Abandoned);
    case JoinerResumes(t) => assert w.tasks[t].key == (); EnterApart(w, t, w.tasks[t].canFetch);
    case JoinerCancelled(t) =>
  }

  lemma GetterIsQuiet<V(!new)>(w: World<(), V>, a: Action<(), V>, start: nat)
    requires FromGetter(a) && Enabled(w, a) && start <= |w.log| && Quiet(w.log, start)
    ensures Quiet(Step(w, a).log, start)
  {
    hide Touch, Land, Drop, Begin, Serve;
  }

  lemma GetterWaits<V(!new)>(w: World<(), V>, a: Action<(), V>, closer: Closer)
    requires Inv(w) && SettlersSteady(w) && OnlyCloserWaits(w, closer) && FromGetter(a) && Enabled(w, a)
    ensures OnlyCloserWaits(Step(w, a), closer)
  {
    hide Inv, Enabled, Step, Quiet, FuturesGrow, Steady;
    StepGrows(w, a);
    var w' := Step(w, a);
    forall t | t in w'.tasks && w'.tasks[t].Settling? ensures closer == Waiting(t) && Calm(w', w'.tasks[t].wait) {
      assert w'.tasks[t] == w.tasks[t];
      GetterIsQuiet(w, a, w'.tasks[t].wait.start);
    }
  }

  lemma GetterKeeps<V(!new)>(o: Once<V>, a: OnceAction<V>)
    requires OnceInv(o) && CanStep(o, a) && CacheAction(o, a).Some? && FromGetter(CacheAction(o, a).value)
    ensures OnceInv(OnceStep(o, a))
  {
    hide Inv, SettlersParked, SettlersSteady, Enabled, Step, Apart, AsMap, OnlyCloserWaits, Values;
    var b := CacheAction(o, a).value;
    ReadyKept(o.w, b);
    GetterStep(o.w, b);
    GetterWaits(o.w, b, o.closer);
  }

  /** The closer's step in `settle_all`: parked again with the same start, or through with exactly the held value. */
  lemma CloserSettles<V(!new)>(o: Once<V>, b: Action<(), V>, t: nat)
    requires OnceInv(o) && Enabled(o.w, b) && Settles(b, t) && (b.CallSettle? ==> o.closer.Idle?)
    requires b.SettlerResumes? ==> o.closer == Waiting(t)
    ensures var w' := Step(o.w, b);
            && Ready(w') && w'.cache == o.w.cache && w'.log == o.w.log && t in w'.tasks
            && (forall u :: u in w'.tasks && w'.tasks[u].Settling? ==> u == t && Calm(w', w'.tasks[u].wait))
            && (w'.tasks[t].Settled? ==> w'.tasks[t].result == AsMap(o.w.cache.store) && o.w.cache.inflight == map[])
            && (w'.tasks[t].Settled? || w'.tasks[t].Settling?)
  {
    hide Inv, SettlersParked, Step, AsMap, FuturesGrow, Steady;
    ReadyKept(o.w, b);
    StepGrows(o.w, b);
    SettlerStepSteady(o.w, b, t);
    TaskThere(o.w, b, t);
    var w' := Step(o.w, b);
    if w'.tasks[t].Settled? { StepSettlesStore(o.w, b, t); }
  }

  lemma CloserKeeps<V(!new)>(o: Once<V>, a: OnceAction<V>)
    requires OnceInv(o) && CanStep(o, a) && (a.Close? || a.CloseResumes?)
    ensures OnceInv(OnceStep(o, a))
    ensures !OnceStep(o, a).closer.Waiting? ==>
              multiset(OnceStep(o, a).closed) == multiset(o.produced) == multiset(OnceStep(o, a).produced)
              && OnceStep(o, a).w.cache.store == [] && OnceStep(o, a).w.cache.inflight == map[]
  {
    hide Inv, SettlersParked, Enabled, Step, AsMap, Quiet;
    var b := CacheAction(o, a).value;
    var t := if a.Close? then a.t else o.closer.t;
    CloserSettles(o, b, t);
    var w' := Step(o.w, b);
    if w'.tasks[t].Settled? {
      Cleared(w');
      AllClosed(o, w'.tasks[t].result);
    }
  }

  lemma AllClosed<V(!new)>(o: Once<V>, result: map<(), V>)
    requires Balanced(o.w.cache.store, o.produced, o.closed) && result == AsMap(o.w.cache.store)
    ensures multiset(o.produced) == multiset(o.closed + Values(result))
    ensures Values(AsMap<(), V>([])) == []
  {
  }

  lemma Cleared<V(!new)>(w: World<(), V>)
    requires Ready(w) && w.cache.inflight == map[] && w.cache.stale == {}
    requires forall u :: u in w.tasks ==> !w.tasks[u].Settling?
    ensures var w' := w.(cache := EraseAll(w.cache), log := w.log + [ErasedAll]);
            Ready(w') && Apart(w'.cache) && w'.cache.inflight == map[] && w'.cache.store == []
  {
    hide Inv;
    assert Step(w, InvalidateAll) == w.(cache := EraseAll(w.cache), log := w.log + [ErasedAll]);
    ReadyKept(w, InvalidateAll);
  }

  /** Every step keeps the books. */
  lemma OnceKeeps<V(!new)>(o: Once<V>, a: OnceAction<V>)
    requires OnceInv(o) && CanStep(o, a)
    ensures OnceInv(OnceStep(o, a))
  {
    hide Ready, Enabled, Step, AsMap, Apart, Calm;
    match a
    case Close(_) => CloserKeeps(o, a);
    case CloseResumes => CloserKeeps(o, a);
    case CloseCancelled => if o.closer.Waiting? { CancelKeeps(o, o.closer.t); } else { NobodyWaits(o); }
    case CloseEnds => NobodyWaits(o);
    case _ => GetterKeeps(o, a);
  }

  lemma NobodyWaits<V(!new)>(o: Once<V>)
    requires OnceInv(o) && !o.closer.Waiting?
    ensures OnceInv(o.(closer := Idle))
  {
    hide Ready, AsMap, Apart, Calm;
  }

  lemma CancelKeeps<V(!new)>(o: Once<V>, t: nat)
    requires OnceInv(o) && o.closer == Waiting(t) && Enabled(o.w, SettlerCancelled(t))
    ensures OnceInv(o.(w := Step(o.w, SettlerCancelled(t)), closer := Idle))
  {
    hide Ready, AsMap, Apart, Calm;
    ReadyKept(o.w, SettlerCancelled(t));
  }

  lemma {:induction false} OnceRunKeeps<V(!new)>(states: seq<Once<V>>, actions: seq<OnceAction<V>>, n: nat)
    requires OnceRun(states, actions) && n < |states|
    ensures OnceInv(states[n])
  {
    hide OnceInv, OnceStep, CanStep;
    if n == 0 {
      OnceStart(states[0]);
    } else {
      OnceRunKeeps(states, actions, n - 1);
      OnceKeeps(states[n - 1], actions[n - 1]);
    }
  }

  lemma OnceStart<V(!new)>(o: Once<V>)
    requires o == Once(Initial(None), Idle, [], [])
    ensures OnceInv(o)
  {
    InitialInv<(), V>(None);
    InitialParked(o.w);
    InitialSteady(o.w);
  }

  // ------------------------------------------------------------------------------------------------------
  // What it promises
  // ------------------------------------------------------------------------------------------------------

  /** At every moment each opened value was closed once or is the one still held. */
  lemma OpenedIsClosedOrHeld<V(!new)>(states: seq<Once<V>>, actions: seq<OnceAction<V>>, n: nat)
    requires OnceRun(states, actions) && n < |states|
    ensures var o := states[n];
            && multiset(o.produced) == multiset(o.closed) + multiset(Values(AsMap(o.w.cache.store)))
            && |o.produced| == |o.closed| + |Values(AsMap(o.w.cache.store))|
  {
    hide Ready, AsMap, Apart, Calm;
    OnceRunKeeps(states, actions, n);
    var o := states[n];
    assert |multiset(o.produced)| == |o.produced| && |multiset(o.closed)| == |o.closed|;
  }

  /** Once a `close` is through `settle_all`, every value ever opened was closed exactly once, even one whose open was
      in flight when it was called, and nothing is held or being opened. */
  lemma CloseClosesEverything<V(!new)>(states: seq<Once<V>>, actions: seq<OnceAction<V>>, n: nat)
    requires OnceRun(states, actions) && n < |actions|
    requires (actions[n].Close? || actions[n].CloseResumes?) && !states[n + 1].closer.Waiting?
    ensures multiset(states[n + 1].closed) == multiset(states[n + 1].produced)
    ensures states[n + 1].w.cache.store == [] && states[n + 1].w.cache.inflight == map[]
  {
    hide OnceInv, OnceStep, CanStep;
    OnceRunKeeps(states, actions, n);
    CloserKeeps(states[n], actions[n]);
  }

  /** The values that the opens returned in the first `n` actions, in that order. */
  function Opened<V>(actions: seq<OnceAction<V>>, n: nat): seq<V>
    requires n <= |actions|
  {
    if n == 0 then []
    else Opened(actions, n - 1) + if actions[n - 1].OpenReturns? then [actions[n - 1].value] else []
  }

  lemma StepOpens<V(!new)>(o: Once<V>, a: OnceAction<V>)
    requires CanStep(o, a)
    ensures OnceStep(o, a).produced == o.produced + if a.OpenReturns? then [a.value] else []
  {
    hide Enabled, Step, AsMap;
  }

  /** Told by the calls alone: of the values opened, each was closed once or is the one held. */
  lemma {:induction false} ProducedIsOpened<V(!new)>(states: seq<Once<V>>, actions: seq<OnceAction<V>>, n: nat)
    requires OnceRun(states, actions) && n < |states|
    ensures states[n].produced == Opened(actions, n)
    ensures multiset(Opened(actions, n)) == multiset(states[n].closed) + multiset(Values(AsMap(states[n].w.cache.store)))
  {
    hide OnceStep, CanStep, AsMap;
    OpenedIsClosedOrHeld(states, actions, n);
    if n > 0 {
      ProducedIsOpened(states, actions, n - 1);
      StepOpens(states[n - 1], actions[n - 1]);
    }
  }
}
