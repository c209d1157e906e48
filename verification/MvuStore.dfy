/** `Store` (browser/runtime/store.py): the dispatch loop. A render or a command may dispatch, subscribe, unsubscribe or
    close while it runs, so the loop is a machine whose steps are the stretches between such callbacks. */
module MvuStore {
  import opened Basics

  /** One subscription; `last` is the slice it last saw. */
  datatype Entry<!M, S> = Entry(id: nat, select: M -> S, last: S)

  /** Where `_drain` is: not running, in its queue loop, in `_notify` with the rest of its snapshot, or performing. */
  datatype Phase<!M, C, S> =
    | Idle
    | Updating(commands: seq<C>)
    | Notifying(rest: seq<Entry<M, S>>, commands: seq<C>)
    | Performing(commands: seq<C>)

  /** `accepted` lists the messages queued so far, `rendered` the slices handed to a subscription's `render`, and
      `performed` the commands handed to `perform`. */
  datatype Store<!M, G, C, S> = Store(
    model: M,
    queue: seq<G>,
    phase: Phase<M, C, S>,
    subs: seq<Entry<M, S>>,
    closed: bool,
    accepted: seq<G>,
    rendered: seq<(nat, S)>,
    performed: seq<C>)

  datatype Action<!M, G, S> =
    | Dispatch(msg: G)
    | UpdateOne
    | BeginNotify
    | RenderNext
    | BeginPerform
    | PerformNext
    | EndPass
    | Subscribe(id: nat, select: M -> S)
    | Unsubscribe(id: nat)
    | Close

  type Update<!M, !G, C> = (M, G) -> (M, seq<C>)

  function Initial<M, G, C, S>(model: M): Store<M, G, C, S> { Store(model, [], Idle, [], false, [], [], []) }

  function Ids<M, S>(subs: seq<Entry<M, S>>): seq<nat> {
    seq(|subs|, i requires 0 <= i < |subs| => subs[i].id)
  }

  /** `update` is pure, so callers act only from outside the drain, from a render or from a command. */
  predicate Enabled<M, G(==), C(==), S>(s: Store<M, G, C, S>, a: Action<M, G, S>) {
    match a
    case UpdateOne => s.phase.Updating? && s.queue != []
    case BeginNotify => s.phase.Updating? && s.queue == []
    case RenderNext => s.phase.Notifying? && s.phase.rest != []
    case BeginPerform => s.phase.Notifying? && s.phase.rest == []
    case PerformNext => s.phase.Performing? && s.phase.commands != []
    case EndPass => s.phase.Performing? && s.phase.commands == []
    case Subscribe(id, _) =>
      !s.phase.Updating? && id !in Ids(s.subs) && (s.phase.Notifying? ==> id !in Ids(s.phase.rest))
    case _ => !s.phase.Updating?
  }

  /** The entry `id` shown the model; one unsubscribed meanwhile is not among `subs` any more. */
  function Shown<M, S(==)>(subs: seq<Entry<M, S>>, id: nat, model: M): seq<Entry<M, S>> {
    seq(|subs|, i requires 0 <= i < |subs| =>
      if subs[i].id == id && subs[i].select(model) != subs[i].last then subs[i].(last := subs[i].select(model))
      else subs[i])
  }

  function Dropped<M, S>(subs: seq<Entry<M, S>>, id: nat): seq<Entry<M, S>> {
    if subs == [] then [] else if subs[0].id == id then subs[1..] else [subs[0]] + Dropped(subs[1..], id)
  }

  function Step<M, G, C, S(==)>(update: Update<M, G, C>, s: Store<M, G, C, S>, a: Action<M, G, S>): Store<M, G, C, S>
    requires Enabled(s, a)
  {
    match a
    case Dispatch(msg) =>
      if s.closed then s
      else s.(queue := s.queue + [msg], accepted := s.accepted + [msg],
              phase := if s.phase.Idle? then Updating([]) else s.phase)
    case UpdateOne =>
      var (model, cmds) := update(s.model, s.queue[0]);
      s.(model := model, queue := s.queue[1..], phase := Updating(s.phase.commands + cmds))
    case BeginNotify => s.(phase := Notifying(s.subs, s.phase.commands))
    case RenderNext =>
      var (entry, rest) := (s.phase.rest[0], s.phase.rest[1..]);
      var value := entry.select(s.model);
      s.(subs := Shown(s.subs, entry.id, s.model), phase := Notifying(rest, s.phase.commands),
         rendered := s.rendered + if value != entry.last then [(entry.id, value)] else [])
    case BeginPerform => s.(phase := Performing(s.phase.commands))
    case PerformNext =>
      s.(performed := s.performed + [s.phase.commands[0]], phase := Performing(s.phase.commands[1..]))
    case EndPass => s.(phase := if s.queue == [] then Idle else Updating([]))
    case Subscribe(id, select) => s.(subs := s.subs + [Entry(id, select, select(s.model))])
    case Unsubscribe(id) => s.(subs := Dropped(s.subs, id))
    case Close => s.(closed := true, subs := [])
  }

  // ------------------------------------------------------------------------------------------------------
  // What it promises
  // ------------------------------------------------------------------------------------------------------

  /** The model after the messages, and the commands they return, in order. */
  function Fold<M, G, C>(update: Update<M, G, C>, model: M, msgs: seq<G>): (M, seq<C>) {
    if msgs == [] then (model, [])
    else
      var (before, cmds) := Fold(update, model, msgs[..|msgs| - 1]);
      var (after, more) := update(before, msgs[|msgs| - 1]);
      (after, cmds + more)
  }

  function PendingCommands<M, C, S>(phase: Phase<M, C, S>): seq<C> { if phase.Idle? then [] else phase.commands }

  /** `n` messages went through `update`; their commands were performed or are about to be, in order. */
  ghost predicate Processed<M, G, C, S>(update: Update<M, G, C>, model: M, s: Store<M, G, C, S>, n: nat) {
    && n + |s.queue| == |s.accepted| && s.accepted[n..] == s.queue
    && Fold(update, model, s.accepted[..n]) == (s.model, s.performed + PendingCommands(s.phase))
    && (s.phase.Idle? ==> s.queue == [])
  }

  predicate Apart<M, S>(subs: seq<Entry<M, S>>) { forall i, j :: 0 <= i < j < |subs| ==> subs[i].id != subs[j].id }

  /** Outside the notification, and in it for those it has passed, a subscription last saw its slice of the model. */
  ghost predicate UpToDate<M, G, C, S>(s: Store<M, G, C, S>) {
    && Apart(s.subs)
    && (!s.phase.Updating? ==>
          forall i :: 0 <= i < |s.subs| && !(s.phase.Notifying? && s.subs[i].id in Ids(s.phase.rest)) ==>
            s.subs[i].last == s.subs[i].select(s.model))
    && (s.phase.Notifying? ==>
          Apart(s.phase.rest)
          && forall i, j :: 0 <= i < |s.subs| && 0 <= j < |s.phase.rest| && s.phase.rest[j].id == s.subs[i].id ==>
               s.phase.rest[j] == s.subs[i])
  }

  lemma DispatchProcesses<M, G, C, S>(update: Update<M, G, C>, model: M, s: Store<M, G, C, S>, msg: G, n: nat)
    requires Processed(update, model, s, n) && !s.closed && !s.phase.Updating?
    ensures Processed(update, model, Step(update, s, Dispatch(msg)), n)
  {
    hide Fold;
    var s' := Step(update, s, Dispatch(msg));
    assert s'.accepted[..n] == s.accepted[..n];
    assert s'.accepted[n..] == s.accepted[n..] + [msg];
    assert PendingCommands(s'.phase) == PendingCommands(s.phase);
  }

  lemma FoldMore<M, G, C>(update: Update<M, G, C>, model: M, msgs: seq<G>, n: nat)
    requires n < |msgs|
    ensures var (before, cmds) := Fold(update, model, msgs[..n]);
            Fold(update, model, msgs[..n + 1]) == (update(before, msgs[n]).0, cmds + update(before, msgs[n]).1)
  {
    assert msgs[..n + 1][..n] == msgs[..n];
  }

  lemma UpdateProcesses<M, G, C, S>(update: Update<M, G, C>, model: M, s: Store<M, G, C, S>, n: nat)
    requires Enabled(s, UpdateOne) && Processed(update, model, s, n)
    ensures Processed(update, model, Step(update, s, UpdateOne), n + 1)
  {
    var cmds := update(s.model, s.queue[0]).1;
    FoldMore(update, model, s.accepted, n);
    hide Fold;
    assert s.accepted[n] == s.queue[0];
    assert s.accepted[n + 1..] == s.accepted[n..][1..];
    assert s.performed + (s.phase.commands + cmds) == s.performed + s.phase.commands + cmds;
  }

  lemma PerformProcesses<M, G, C, S>(update: Update<M, G, C>, model: M, s: Store<M, G, C, S>, n: nat)
    requires Enabled(s, PerformNext) && Processed(update, model, s, n)
    ensures Processed(update, model, Step(update, s, PerformNext), n)
  {
    hide Fold;
    assert s.performed + [s.phase.commands[0]] + s.phase.commands[1..] == s.performed + s.phase.commands;
  }

  lemma StepProcesses<M, G, C, S>(update: Update<M, G, C>, model: M, s: Store<M, G, C, S>, a: Action<M, G, S>, n: nat)
    requires Enabled(s, a) && Processed(update, model, s, n)
    ensures Processed(update, model, Step(update, s, a), if a.UpdateOne? then n + 1 else n)
  {
    hide Shown, Dropped, Ids, Fold;
    match a
    case Dispatch(msg) => if !s.closed { DispatchProcesses(update, model, s, msg, n); }
    case UpdateOne => UpdateProcesses(update, model, s, n);
    case PerformNext => PerformProcesses(update, model, s, n);
    case _ =>
  }

  lemma {:induction false} DroppedAre<M, S>(subs: seq<Entry<M, S>>, id: nat)
    ensures forall i :: 0 <= i < |Dropped(subs, id)| ==> Dropped(subs, id)[i] in subs
    ensures Apart(subs) ==> Apart(Dropped(subs, id))
  {
    if subs != [] {
      DroppedAre(subs[1..], id);
      assert subs == [subs[0]] + subs[1..];
    }
  }

  lemma StepUpdates<M, G, C, S>(update: Update<M, G, C>, s: Store<M, G, C, S>, a: Action<M, G, S>)
    requires Enabled(s, a) && UpToDate(s)
    ensures UpToDate(Step(update, s, a))
  {
    match a
    case RenderNext => RenderUpdates(update, s);
    case BeginNotify =>
      assert forall i :: 0 <= i < |s.subs| ==> Ids(s.subs)[i] == s.subs[i].id;
    case Unsubscribe(id) => DroppedAre(s.subs, id);
    case Subscribe(id, select) =>
      assert forall i :: 0 <= i < |s.subs| ==> Ids(s.subs)[i] == s.subs[i].id;
      if s.phase.Notifying? {
        assert forall j :: 0 <= j < |s.phase.rest| ==> Ids(s.phase.rest)[j] == s.phase.rest[j].id;
      }
    case _ =>
  }

  lemma RenderUpdates<M, G, C, S>(update: Update<M, G, C>, s: Store<M, G, C, S>)
    requires Enabled(s, RenderNext) && UpToDate(s)
    ensures UpToDate(Step(update, s, RenderNext))
  {
    var s' := Step(update, s, RenderNext);
    var (rest, rest') := (s.phase.rest, s'.phase.rest);
    assert Ids(rest) == [rest[0].id] + Ids(rest');
    assert forall i :: 0 <= i < |s.subs| ==> s'.subs[i].id == s.subs[i].id && s'.subs[i].select == s.subs[i].select;
    assert forall j :: 0 <= j < |rest'| ==> rest'[j] == rest[j + 1] && rest'[j].id != rest[0].id;
  }

  ghost predicate Run<M, G, C, S>(update: Update<M, G, C>, model: M, states: seq<Store<M, G, C, S>>,
                                  actions: seq<Action<M, G, S>>) {
    && |states| == |actions| + 1 && states[0] == Initial(model)
    && forall i :: 0 <= i < |actions| ==>
         Enabled(states[i], actions[i]) && states[i + 1] == Step(update, states[i], actions[i])
  }

  /** How many messages went through `update`. */
  function Updates<M, G, S>(actions: seq<Action<M, G, S>>, n: nat): nat
    requires n <= |actions|
  {
    if n == 0 then 0 else Updates(actions, n - 1) + if actions[n - 1].UpdateOne? then 1 else 0
  }

  lemma {:induction false} RunKeeps<M, G, C, S>(update: Update<M, G, C>, model: M, states: seq<Store<M, G, C, S>>,
                                                actions: seq<Action<M, G, S>>, n: nat)
    requires Run(update, model, states, actions) && n < |states|
    ensures Processed(update, model, states[n], Updates(actions, n)) && UpToDate(states[n])
  {
    hide Step, Enabled, Processed, UpToDate;
    if n == 0 {
      StartKeeps(update, model, states[0]);
    } else {
      RunKeeps(update, model, states, actions, n - 1);
      StepProcesses(update, model, states[n - 1], actions[n - 1], Updates(actions, n - 1));
      StepUpdates(update, states[n - 1], actions[n - 1]);
    }
  }

  lemma StartKeeps<M, G, C, S>(update: Update<M, G, C>, model: M, s: Store<M, G, C, S>)
    requires s == Initial(model)
    ensures Processed(update, model, s, 0) && UpToDate(s)
  {
    assert s.accepted[..0] == [] && s.performed + PendingCommands(s.phase) == [];
  }

  // ------------------------------------------------------------------------------------------------------
  // What the callers did
  // ------------------------------------------------------------------------------------------------------

  /** Among the first `n` actions the store was closed. */
  predicate ClosedBy<M, G, S>(actions: seq<Action<M, G, S>>, n: nat)
    requires n <= |actions|
  {
    exists i :: 0 <= i < n && actions[i].Close?
  }

  /** The messages dispatched by the first `n` actions, before any `close`, wherever the dispatch came from. */
  function Dispatched<M, G, S>(actions: seq<Action<M, G, S>>, n: nat): seq<G>
    requires n <= |actions|
  {
    if n == 0 then []
    else
      Dispatched(actions, n - 1)
      + if actions[n - 1].Dispatch? && !ClosedBy(actions, n - 1) then [actions[n - 1].msg] else []
  }

  /** Among the first `n` actions, subscription `id` was made with `select`, and neither ended nor cleared since. */
  ghost predicate Subscribed<M, G, S>(actions: seq<Action<M, G, S>>, n: nat, id: nat, select: M -> S)
    requires n <= |actions|
  {
    exists i :: 0 <= i < n && SubscribesAt(actions, i, n, id, select)
  }

  ghost predicate SubscribesAt<M, G, S>(actions: seq<Action<M, G, S>>, i: nat, n: nat, id: nat, select: M -> S)
    requires i < n <= |actions|
  {
    && actions[i].Subscribe? && actions[i].id == id && actions[i].select == select
    && forall j :: i < j < n ==> !actions[j].Close? && !(actions[j].Unsubscribe? && actions[j].id == id)
  }

  ghost predicate Lists<M, S>(subs: seq<Entry<M, S>>, id: nat, select: M -> S) {
    exists i :: 0 <= i < |subs| && subs[i].id == id && subs[i].select == select
  }

  /** What subscription `id` saw last: what it was rendered, or the slice of the model it began with. */
  function LastSeen<M, G, C, S(==)>(states: seq<Store<M, G, C, S>>, actions: seq<Action<M, G, S>>, n: nat, id: nat): Option<S>
    requires n <= |actions| < |states|
  {
    if n == 0 then None
    else if actions[n - 1].Subscribe? && actions[n - 1].id == id then Some(actions[n - 1].select(states[n - 1].model))
    else
      var (before, after) := (states[n - 1].rendered, states[n].rendered);
      if |after| > |before| && after[|after| - 1].0 == id then Some(after[|after| - 1].1)
      else LastSeen(states, actions, n - 1, id)
  }

  lemma StepTells<M, G, C, S>(update: Update<M, G, C>, s: Store<M, G, C, S>, a: Action<M, G, S>)
    requires Enabled(s, a)
    ensures var s' := Step(update, s, a);
            && s'.accepted == s.accepted + (if a.Dispatch? && !s.closed then [a.msg] else [])
            && s'.closed == (s.closed || a.Close?)
  {
    hide Shown, Dropped;
  }

  /** The messages the store takes are those dispatched, until it is closed. */
  lemma {:induction false} AcceptedIsDispatched<M, G, C, S>(update: Update<M, G, C>, model: M,
                                                            states: seq<Store<M, G, C, S>>,
                                                            actions: seq<Action<M, G, S>>, n: nat)
    requires Run(update, model, states, actions) && n < |states|
    ensures states[n].accepted == Dispatched(actions, n) && states[n].closed == ClosedBy(actions, n)
  {
    hide Step, Enabled;
    if n > 0 {
      AcceptedIsDispatched(update, model, states, actions, n - 1);
      StepTells(update, states[n - 1], actions[n - 1]);
      assert Dispatched(actions, n - 1) + [] == Dispatched(actions, n - 1);
    }
  }

  lemma {:induction false} DroppedLists<M, S>(subs: seq<Entry<M, S>>, id: nat, other: nat, select: M -> S)
    requires Apart(subs)
    ensures Lists(Dropped(subs, id), other, select) <==> other != id && Lists(subs, other, select)
  {
    if subs != [] {
      assert subs == [subs[0]] + subs[1..];
      ListsMore(subs[0], subs[1..], other, select);
      if subs[0].id == id {
        assert forall i :: 0 <= i < |subs[1..]| ==> subs[1..][i] == subs[i + 1];
      } else {
        DroppedLists(subs[1..], id, other, select);
        ListsMore(subs[0], Dropped(subs[1..], id), other, select);
      }
    }
  }

  lemma ListsMore<M, S>(first: Entry<M, S>, rest: seq<Entry<M, S>>, id: nat, select: M -> S)
    ensures Lists([first] + rest, id, select) <==> (first.id == id && first.select == select) || Lists(rest, id, select)
  {
    var all := [first] + rest;
    if Lists(all, id, select) && !(first.id == id && first.select == select) {
      var i :| 0 <= i < |all| && all[i].id == id && all[i].select == select;
      assert rest[i - 1] == all[i];
    }
    if Lists(rest, id, select) {
      var i :| 0 <= i < |rest| && rest[i].id == id && rest[i].select == select;
      assert all[i + 1] == rest[i];
    }
    if first.id == id && first.select == select { assert all[0] == first; }
  }

  lemma StepLists<M, G, C, S>(update: Update<M, G, C>, s: Store<M, G, C, S>, a: Action<M, G, S>, id: nat, select: M -> S)
    requires Enabled(s, a) && UpToDate(s)
    ensures Lists(Step(update, s, a).subs, id, select)
            <==> (a.Subscribe? && a.id == id && a.select == select)
                 || (Lists(s.subs, id, select) && !a.Close? && !(a.Unsubscribe? && a.id == id))
  {
    match a
    case Subscribe(i, f) =>
      var subs' := s.subs + [Entry(i, f, f(s.model))];
      assert subs'[|s.subs|].id == i && subs'[|s.subs|].select == f;
      assert forall j :: 0 <= j < |s.subs| ==> subs'[j] == s.subs[j];
    case Unsubscribe(i) => DroppedLists(s.subs, i, id, select);
    case RenderNext =>
      var subs' := Step(update, s, a).subs;
      assert forall i :: 0 <= i < |s.subs| ==> subs'[i].id == s.subs[i].id && subs'[i].select == s.subs[i].select;
    case _ =>
  }

  lemma SubscribedMore<M, G, S>(actions: seq<Action<M, G, S>>, n: nat, id: nat, select: M -> S)
    requires n < |actions|
    ensures var a := actions[n];
            Subscribed(actions, n + 1, id, select)
            <==> (a.Subscribe? && a.id == id && a.select == select)
                 || (Subscribed(actions, n, id, select) && !a.Close? && !(a.Unsubscribe? && a.id == id))
  {
    var a := actions[n];
    if Subscribed(actions, n, id, select) && !a.Close? && !(a.Unsubscribe? && a.id == id) {
      var i :| 0 <= i < n && SubscribesAt(actions, i, n, id, select);
      assert SubscribesAt(actions, i, n + 1, id, select);
    }
    if a.Subscribe? && a.id == id && a.select == select { assert SubscribesAt(actions, n, n + 1, id, select); }
    if Subscribed(actions, n + 1, id, select) && !(a.Subscribe? && a.id == id && a.select == select) {
      var i :| 0 <= i < n + 1 && SubscribesAt(actions, i, n + 1, id, select);
      assert SubscribesAt(actions, i, n, id, select);
    }
  }

  /** The subscriptions listed are those made and not ended since. */
  lemma {:induction false} SubscriptionsAreTheCallers<M, G, C, S>(update: Update<M, G, C>, model: M,
                                                                  states: seq<Store<M, G, C, S>>,
                                                                  actions: seq<Action<M, G, S>>, n: nat, id: nat,
                                                                  select: M -> S)
    requires Run(update, model, states, actions) && n < |states|
    ensures Lists(states[n].subs, id, select) <==> Subscribed(actions, n, id, select)
  {
    hide Step, Enabled, Processed, Lists, Subscribed, UpToDate;
    if n == 0 {
      NobodySubscribed(states[0], actions, id, select);
    } else {
      SubscriptionsAreTheCallers(update, model, states, actions, n - 1, id, select);
      RunKeeps(update, model, states, actions, n - 1);
      StepLists(update, states[n - 1], actions[n - 1], id, select);
      SubscribedMore(actions, n - 1, id, select);
    }
  }

  lemma NobodySubscribed<M, G, C, S>(s: Store<M, G, C, S>, actions: seq<Action<M, G, S>>, id: nat, select: M -> S)
    requires s.subs == []
    ensures !Lists(s.subs, id, select) && !Subscribed(actions, 0, id, select)
  {
  }

  /** Subscription `id` last saw `v`. */
  ghost predicate Saw<M, S>(subs: seq<Entry<M, S>>, id: nat, v: S) {
    exists j :: 0 <= j < |subs| && subs[j].id == id && subs[j].last == v
  }

  lemma SawThat<M, S>(subs: seq<Entry<M, S>>, j: nat)
    requires j < |subs|
    ensures Saw(subs, subs[j].id, subs[j].last)
  {
  }

  /** A step renders at most one subscription, one whose slice it changes what it last saw to. */
  lemma StepRenders<M, G, C, S>(update: Update<M, G, C>, s: Store<M, G, C, S>, a: Action<M, G, S>)
    requires Enabled(s, a) && UpToDate(s)
    ensures var s' := Step(update, s, a);
            && s.rendered <= s'.rendered && |s'.rendered| <= |s.rendered| + 1
            && forall i :: 0 <= i < |s'.subs| ==>
                 if a.Subscribe? && a.id == s'.subs[i].id then s'.subs[i].last == a.select(s.model)
                 else if |s'.rendered| > |s.rendered| && s'.rendered[|s.rendered|].0 == s'.subs[i].id then
                   s'.subs[i].last == s'.rendered[|s.rendered|].1 && !Saw(s.subs, s'.subs[i].id, s'.subs[i].last)
                 else Saw(s.subs, s'.subs[i].id, s'.subs[i].last)
  {
    match a
    case RenderNext =>
      var (e, s') := (s.phase.rest[0], Step(update, s, a));
      forall i | 0 <= i < |s'.subs|
        ensures s'.subs[i].id == e.id ==> s.subs[i] == e
        ensures Saw(s.subs, s'.subs[i].id, s.subs[i].last)
      {
        SawThat(s.subs, i);
      }
    case Unsubscribe(id) =>
      DroppedAre(s.subs, id);
      forall e | e in Dropped(s.subs, id) ensures Saw(s.subs, e.id, e.last) { }
    case Subscribe(id, f) =>
      var s' := Step(update, s, a);
      forall i | 0 <= i < |s.subs|
        ensures s'.subs[i] == s.subs[i] && s.subs[i].id != id && Saw(s.subs, s'.subs[i].id, s'.subs[i].last)
      {
        SawThat(s.subs, i);
        assert Ids(s.subs)[i] == s.subs[i].id;
      }
    case _ =>
      var s' := Step(update, s, a);
      assert s'.subs == s.subs || s'.subs == [];
      forall i | 0 <= i < |s.subs| ensures Saw(s.subs, s.subs[i].id, s.subs[i].last) { SawThat(s.subs, i); }
  }

  ghost predicate SeenTold<M, G, C, S>(states: seq<Store<M, G, C, S>>, actions: seq<Action<M, G, S>>, n: nat)
    requires n <= |actions| < |states|
  {
    forall i :: 0 <= i < |states[n].subs| ==>
      LastSeen(states, actions, n, states[n].subs[i].id) == Some(states[n].subs[i].last)
  }

  lemma {:induction false} RunTellsSeen<M, G, C, S>(update: Update<M, G, C>, model: M, states: seq<Store<M, G, C, S>>,
                                                    actions: seq<Action<M, G, S>>, n: nat)
    requires Run(update, model, states, actions) && n < |states|
    ensures SeenTold(states, actions, n)
  {
    hide Step, Enabled, Processed, UpToDate;
    if n > 0 {
      RunTellsSeen(update, model, states, actions, n - 1);
      RunKeeps(update, model, states, actions, n - 1);
      StepRenders(update, states[n - 1], actions[n - 1]);
      forall i | 0 <= i < |states[n].subs|
        ensures LastSeen(states, actions, n, states[n].subs[i].id) == Some(states[n].subs[i].last)
      {
        SeenMore(states, actions, n, states[n].subs[i].id);
      }
    }
  }

  lemma SeenMore<M, G, C, S>(states: seq<Store<M, G, C, S>>, actions: seq<Action<M, G, S>>, n: nat, id: nat)
    requires 0 < n <= |actions| < |states|
    ensures var (a, before, after) := (actions[n - 1], states[n - 1].rendered, states[n].rendered);
            LastSeen(states, actions, n, id)
            == if a.Subscribe? && a.id == id then Some(a.select(states[n - 1].model))
               else if |after| > |before| && after[|after| - 1].0 == id then Some(after[|after| - 1].1)
               else LastSeen(states, actions, n - 1, id)
  {
  }

  /** When the outermost dispatch has returned, the model is the fold of `update` over every message dispatched before a
      `close`, in the order of the dispatches, each command it returned was performed once in that order, and each
      subscription made and not ended last saw its slice of that model: whatever renders and commands dispatched
      meanwhile. */
  lemma IdleIsSettled<M, G, C, S>(update: Update<M, G, C>, model: M, states: seq<Store<M, G, C, S>>,
                                  actions: seq<Action<M, G, S>>, n: nat)
    requires Run(update, model, states, actions) && n < |states| && states[n].phase.Idle?
    ensures Fold(update, model, Dispatched(actions, n)) == (states[n].model, states[n].performed)
    ensures states[n].queue == []
    ensures forall id: nat, select :: Subscribed(actions, n, id, select) ==>
              LastSeen(states, actions, n, id) == Some(select(states[n].model))
  {
    hide Step, Enabled, Subscribed, LastSeen;
    RunKeeps(update, model, states, actions, n);
    AcceptedIsDispatched(update, model, states, actions, n);
    RunTellsSeen(update, model, states, actions, n);
    var s := states[n];
    forall id: nat, select | Subscribed(actions, n, id, select)
      ensures LastSeen(states, actions, n, id) == Some(select(s.model))
    {
      SubscriptionsAreTheCallers(update, model, states, actions, n, id, select);
    }
    assert s.accepted[..|s.accepted|] == s.accepted;
    assert s.performed + [] == s.performed;
  }

  /** A command is performed only once every subscription has seen the model that its message, and all of its batch, led
      to. */
  lemma ShownBeforePerformed<M, G, C, S>(update: Update<M, G, C>, model: M, states: seq<Store<M, G, C, S>>,
                                         actions: seq<Action<M, G, S>>, n: nat, id: nat, select: M -> S)
    requires Run(update, model, states, actions) && n < |actions| && actions[n].PerformNext?
    requires Subscribed(actions, n, id, select)
    ensures LastSeen(states, actions, n, id) == Some(select(states[n].model))
    ensures |states[n + 1].performed| == |states[n].performed| + 1
  {
    hide Step, Subscribed, LastSeen;
    RunKeeps(update, model, states, actions, n);
    RunTellsSeen(update, model, states, actions, n);
    SubscriptionsAreTheCallers(update, model, states, actions, n, id, select);
    Performs(update, states[n], states[n + 1], actions[n]);
  }

  lemma Performs<M, G, C, S>(update: Update<M, G, C>, s: Store<M, G, C, S>, s': Store<M, G, C, S>, a: Action<M, G, S>)
    requires Enabled(s, a) && s' == Step(update, s, a) && a.PerformNext?
    ensures |s'.performed| == |s.performed| + 1
  {
  }

  /** The queue loop of `_drain`, with nobody to interrupt it: every queued message goes through `update`. */
  method DrainQueue<M, G, C>(update: Update<M, G, C>, model: M, queue: seq<G>) returns (after: M, commands: seq<C>)
    ensures (after, commands) == Fold(update, model, queue)
  {
    after, commands := model, [];
    for i := 0 to |queue|
      invariant (after, commands) == Fold(update, model, queue[..i])
    {
      var (next, cmds) := update(after, queue[i]);
      assert queue[..i + 1][..i] == queue[..i];
      after, commands := next, commands + cmds;
    }
    assert queue[..|queue|] == queue;
  }
}
