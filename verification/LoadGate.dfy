/** `LoadGate` (browser/runtime/load_gate.py): loads share it, an invalidation holds it alone. Any number of tasks
    enter, wait, are cancelled, hold and leave; each step runs from one `await` to the next. */
module LoadGates {
  import opened Sorting

  datatype Kind = Shared | Exclusive

  /** A task that waits is `woken` once its future is resolved. */
  datatype Task = Waiting(kind: Kind, woken: bool) | Holding(kind: Kind)

  /** The gate's fields; a waiter stands for the task whose future it is. */
  datatype Gate = Gate(shared: nat, pending: nat, running: bool, waiters: seq<nat>)

  type Tasks = map<nat, Task>

  datatype World = World(gate: Gate, tasks: Tasks)

  /** What `shared` and `exclusive` wait for. */
  predicate Ready(g: Gate, kind: Kind) {
    if kind == Shared then g.pending == 0 else g.shared == 0 && !g.running
  }

  /** `_wake` */
  function Wake(w: World): World {
    World(w.gate.(waiters := []),
          map t | t in w.tasks :: if w.tasks[t].Waiting? && t in w.gate.waiters then Waiting(w.tasks[t].kind, true)
                                  else w.tasks[t])
  }

  /** One turn of `_wait_until`: hold the gate, or wait (again). */
  function Try(w: World, t: nat, kind: Kind): World {
    var g := w.gate;
    if !Ready(g, kind) then World(g.(waiters := g.waiters + [t]), w.tasks[t := Waiting(kind, false)])
    else if kind == Shared then World(g.(shared := g.shared + 1), w.tasks[t := Holding(Shared)])
    else World(g.(running := true), w.tasks[t := Holding(Exclusive)])
  }

  datatype Action = Enter(t: nat, kind: Kind) | Resume(t: nat) | Cancel(t: nat) | Leave(t: nat)

  predicate Enabled(w: World, a: Action) {
    match a
    case Enter(t, _) => t !in w.tasks
    case Resume(t) => t in w.tasks && w.tasks[t].Waiting? && w.tasks[t].woken
    case Cancel(t) => t in w.tasks && w.tasks[t].Waiting?
    case Leave(t) => t in w.tasks && w.tasks[t].Holding?
                     && if w.tasks[t].kind == Shared then w.gate.shared > 0 else w.gate.pending > 0
  }

  function Claimed(g: Gate, kind: Kind): Gate {
    if kind == Exclusive then g.(pending := g.pending + 1) else g
  }

  function Step(w: World, a: Action): World
    requires Enabled(w, a)
  {
    var g := w.gate;
    match a
    case Enter(t, kind) => Try(w.(gate := Claimed(g, kind)), t, kind)
    case Resume(t) => Try(w, t, w.tasks[t].kind)
    case Cancel(t) =>
      var gone := World(g.(waiters := Removed(g.waiters, t)), w.tasks - {t});
      if w.tasks[t].kind == Shared then gone
      else Wake(gone.(gate := gone.gate.(pending := if g.pending > 0 then g.pending - 1 else 0)))
    case Leave(t) =>
      Wake(World(if w.tasks[t].kind == Shared then g.(shared := g.shared - 1)
                 else g.(running := false, pending := g.pending - 1), w.tasks - {t}))
  }

  // ------------------------------------------------------------------------------------------------------
  // The invariant
  // ------------------------------------------------------------------------------------------------------

  ghost function Holders(tasks: Tasks): set<nat> { set t | t in tasks && tasks[t] == Holding(Shared) }

  ghost function Excluders(tasks: Tasks): set<nat> { set t | t in tasks && tasks[t].kind == Exclusive }

  ghost function Sole(tasks: Tasks): set<nat> { set t | t in tasks && tasks[t] == Holding(Exclusive) }

  /** The counters count the tasks, and an exclusive holder is alone. */
  ghost predicate Counted(g: Gate, tasks: Tasks) {
    && g.shared == |Holders(tasks)| && g.pending == |Excluders(tasks)|
    && |Sole(tasks)| == (if g.running then 1 else 0)
    && (g.running ==> g.shared == 0)
  }

  /** What a task with an unresolved future waits for is not so. */
  ghost predicate NoneForgotten(g: Gate, tasks: Tasks) {
    && Listed(g, tasks)
    && (forall t :: t in g.waiters && t in tasks ==> !Ready(g, tasks[t].kind))
  }

  /** The waiters are the tasks whose future is unresolved. */
  ghost predicate Listed(g: Gate, tasks: Tasks) {
    Distinct(g.waiters) && forall t :: t in g.waiters <==> t in tasks && tasks[t].Waiting? && !tasks[t].woken
  }

  ghost predicate Inv(w: World) { Counted(w.gate, w.tasks) && NoneForgotten(w.gate, w.tasks) }

  lemma WakeKeeps(w: World)
    requires Counted(w.gate, w.tasks) && Listed(w.gate, w.tasks)
    ensures Inv(Wake(w))
  {
    var w' := Wake(w);
    assert Holders(w'.tasks) == Holders(w.tasks) && Excluders(w'.tasks) == Excluders(w.tasks)
           && Sole(w'.tasks) == Sole(w.tasks);
  }

  /** The sets of a world with one task changed. */
  lemma TaskSets(tasks: Tasks, t: nat, task: Task)
    ensures var tasks' := tasks[t := task];
            && Holders(tasks') == Holders(tasks) - {t} + (if task == Holding(Shared) then {t} else {})
            && Excluders(tasks') == Excluders(tasks) - {t} + (if task.kind == Exclusive then {t} else {})
            && Sole(tasks') == Sole(tasks) - {t} + (if task == Holding(Exclusive) then {t} else {})
    ensures var tasks' := tasks - {t};
            Holders(tasks') == Holders(tasks) - {t} && Excluders(tasks') == Excluders(tasks) - {t}
            && Sole(tasks') == Sole(tasks) - {t}
  {
  }

  /** A gate and tasks but for one task, `t`, that asks for `kind`. */
  ghost predicate Asks(g: Gate, others: Tasks, t: nat, kind: Kind) {
    && NoneForgotten(g, others) && t !in others
    && g.shared == |Holders(others)| && |Sole(others)| == (if g.running then 1 else 0)
    && g.pending == |Excluders(others)| + (if kind == Exclusive then 1 else 0)
    && (g.running ==> g.shared == 0 && Excluders(others) != {})
  }

  lemma HoldersWith(others: Tasks, t: nat, task: Task)
    requires t !in others
    ensures |Holders(others[t := task])| == |Holders(others)| + if task == Holding(Shared) then 1 else 0
  {
    assert Holders(others[t := task]) == Holders(others) + if task == Holding(Shared) then {t} else {};
    assert t !in Holders(others);
  }

  lemma ExcludersWith(others: Tasks, t: nat, task: Task)
    requires t !in others
    ensures |Excluders(others[t := task])| == |Excluders(others)| + if task.kind == Exclusive then 1 else 0
  {
    assert Excluders(others[t := task]) == Excluders(others) + if task.kind == Exclusive then {t} else {};
    assert t !in Excluders(others);
  }

  lemma SoleWith(others: Tasks, t: nat, task: Task)
    requires t !in others
    ensures |Sole(others[t := task])| == |Sole(others)| + if task == Holding(Exclusive) then 1 else 0
  {
    assert Sole(others[t := task]) == Sole(others) + if task == Holding(Exclusive) then {t} else {};
    assert t !in Sole(others);
  }

  /** The counts with one more task. */
  lemma CountsWith(others: Tasks, t: nat, task: Task)
    requires t !in others
    ensures |Holders(others[t := task])| == |Holders(others)| + if task == Holding(Shared) then 1 else 0
    ensures |Excluders(others[t := task])| == |Excluders(others)| + if task.kind == Exclusive then 1 else 0
    ensures |Sole(others[t := task])| == |Sole(others)| + if task == Holding(Exclusive) then 1 else 0
  {
    hide Holders, Excluders, Sole;
    HoldersWith(others, t, task);
    ExcludersWith(others, t, task);
    SoleWith(others, t, task);
  }

  lemma TryCounts(g: Gate, others: Tasks, t: nat, kind: Kind)
    requires Asks(g, others, t, kind)
    ensures var w' := Try(World(g, others), t, kind); Counted(w'.gate, w'.tasks)
  {
    hide NoneForgotten, Holders, Excluders, Sole;
    CountsWith(others, t, Try(World(g, others), t, kind).tasks[t]);
  }

  lemma TryForgetsNone(g: Gate, others: Tasks, t: nat, kind: Kind)
    requires NoneForgotten(g, others) && t !in others
    ensures var w' := Try(World(g, others), t, kind); NoneForgotten(w'.gate, w'.tasks)
  {
    assert t !in g.waiters;
  }

  lemma TryKeeps(w: World, t: nat, kind: Kind)
    requires Asks(w.gate, w.tasks - {t}, t, kind)
    ensures Inv(Try(w, t, kind))
  {
    hide Counted, NoneForgotten;
    var others := w.tasks - {t};
    TryCounts(w.gate, others, t, kind);
    TryForgetsNone(w.gate, others, t, kind) by { hide Holders, Excluders, Sole; AsksForgetsNone(w.gate, others, t, kind); }
    var task := Try(w, t, kind).tasks[t];
    assert w.tasks[t := task] == others[t := task];
  }

  lemma AsksForgetsNone(g: Gate, others: Tasks, t: nat, kind: Kind)
    requires Asks(g, others, t, kind)
    ensures NoneForgotten(g, others) && t !in others
  {
  }

  lemma EnterAsks(w: World, t: nat, kind: Kind)
    requires Inv(w) && t !in w.tasks
    ensures Asks(Claimed(w.gate, kind), w.tasks - {t}, t, kind)
  {
    assert w.tasks - {t} == w.tasks;
    SoleIsExcluder(w);
  }

  lemma ResumeAsks(w: World, t: nat)
    requires Inv(w) && t in w.tasks && w.tasks[t].Waiting? && w.tasks[t].woken
    ensures Asks(w.gate, w.tasks - {t}, t, w.tasks[t].kind)
  {
    hide NoneForgotten;
    ResumeForgetsNone(w, t);
    ResumeCounts(w.tasks, t);
    if w.gate.running { ResumeLeaves(w, t); }
    hide Holders, Excluders, Sole;
  }

  lemma ResumeCounts(tasks: Tasks, t: nat)
    requires t in tasks && tasks[t].Waiting?
    ensures Holders(tasks - {t}) == Holders(tasks) && Sole(tasks - {t}) == Sole(tasks)
    ensures |Excluders(tasks)| == |Excluders(tasks - {t})| + if tasks[t].kind == Exclusive then 1 else 0
  {
    ResumeHolds(tasks, t);
    hide Holders, Sole, Excluders;
    var others := tasks - {t};
    assert tasks == others[t := tasks[t]];
    ExcludersWith(others, t, tasks[t]);
  }

  lemma ResumeHolds(tasks: Tasks, t: nat)
    requires t in tasks && tasks[t].Waiting?
    ensures Holders(tasks - {t}) == Holders(tasks) && Sole(tasks - {t}) == Sole(tasks)
  {
    hide Excluders;
    var others := tasks - {t};
    assert forall u :: u in others <==> u in tasks && u != t;
    assert forall u :: u in others ==> others[u] == tasks[u];
  }

  lemma ResumeLeaves(w: World, t: nat)
    requires Counted(w.gate, w.tasks) && w.gate.running && t in w.tasks && w.tasks[t].Waiting?
    ensures Excluders(w.tasks - {t}) != {}
  {
    assert |Sole(w.tasks)| == 1;
    var u :| u in Sole(w.tasks);
    assert u in Excluders(w.tasks - {t});
  }

  lemma ResumeForgetsNone(w: World, t: nat)
    requires NoneForgotten(w.gate, w.tasks) && t in w.tasks && w.tasks[t].Waiting? && w.tasks[t].woken
    ensures NoneForgotten(w.gate, w.tasks - {t})
  {
  }

  lemma SoleIsExcluder(w: World)
    requires Counted(w.gate, w.tasks)
    ensures w.gate.running ==> w.gate.pending > 0 && Excluders(w.tasks) != {}
  {
    if w.gate.running {
      assert Sole(w.tasks) != {};
      var t :| t in Sole(w.tasks);
      assert t in Excluders(w.tasks);
    }
  }

  /** The gate once `t` is gone: what `finally` and `except` put back. */
  function PutBack(g: Gate, task: Task): Gate {
    if task == Holding(Shared) then g.(shared := if g.shared > 0 then g.shared - 1 else 0)
    else if task.kind == Shared then g
    else g.(running := g.running && task.Waiting?, pending := if g.pending > 0 then g.pending - 1 else 0)
  }

  lemma GoneCounts(g: Gate, tasks: Tasks, t: nat)
    requires Counted(g, tasks) && t in tasks
    ensures Counted(PutBack(g, tasks[t]), tasks - {t})
    ensures tasks[t] == Holding(Shared) ==> g.shared > 0
    ensures tasks[t].kind == Exclusive ==> g.pending > 0
  {
    hide Holders, Excluders, Sole;
    CountsWith(tasks - {t}, t, tasks[t]);
    assert (tasks - {t})[t := tasks[t]] == tasks;
  }

  lemma GoneLists(g: Gate, tasks: Tasks, t: nat, waiters: seq<nat>)
    requires Listed(g, tasks) && t in tasks
    requires waiters == if tasks[t].Waiting? then Removed(g.waiters, t) else g.waiters
    ensures Listed(PutBack(g, tasks[t]).(waiters := waiters), tasks - {t})
  {
    RemovedAre(g.waiters, t);
  }

  lemma CancelKeeps(w: World, t: nat)
    requires Inv(w) && Enabled(w, Cancel(t))
    ensures Inv(Step(w, Cancel(t)))
  {
    hide Wake, Counted;
    var g := w.gate;
    GoneCounts(g, w.tasks, t);
    GoneLists(g, w.tasks, t, Removed(g.waiters, t));
    CountsIgnoreWaiters(PutBack(g, w.tasks[t]), w.tasks - {t}, Removed(g.waiters, t));
    if w.tasks[t].kind == Exclusive {
      WakeKeeps(World(PutBack(g, w.tasks[t]).(waiters := Removed(g.waiters, t)), w.tasks - {t}));
    } else {
      RemovedAre(g.waiters, t);
    }
  }

  lemma CountsIgnoreWaiters(g: Gate, tasks: Tasks, waiters: seq<nat>)
    requires Counted(g, tasks)
    ensures Counted(g.(waiters := waiters), tasks)
  {
  }

  lemma LeaveKeeps(w: World, t: nat)
    requires Inv(w) && Enabled(w, Leave(t))
    ensures Inv(Step(w, Leave(t)))
  {
    hide Wake, Counted, Listed;
    GoneCounts(w.gate, w.tasks, t);
    GoneLists(w.gate, w.tasks, t, w.gate.waiters);
    WakeKeeps(World(PutBack(w.gate, w.tasks[t]), w.tasks - {t}));
  }

  /** Every step keeps the invariant. */
  lemma StepKeeps(w: World, a: Action)
    requires Inv(w) && Enabled(w, a)
    ensures Inv(Step(w, a))
  {
    hide Inv, Try, Asks;
    match a
    case Enter(t, kind) =>
      EnterAsks(w, t, kind);
      TryKeeps(w.(gate := Claimed(w.gate, kind)), t, kind);
    case Resume(t) =>
      ResumeAsks(w, t);
      TryKeeps(w, t, w.tasks[t].kind);
    case Cancel(t) => CancelKeeps(w, t);
    case Leave(t) => LeaveKeeps(w, t);
  }

  // ------------------------------------------------------------------------------------------------------
  // What it promises
  // ------------------------------------------------------------------------------------------------------

  ghost predicate Run(states: seq<World>, actions: seq<Action>) {
    && |states| == |actions| + 1 && states[0] == World(Gate(0, 0, false, []), map[])
    && forall i :: 0 <= i < |actions| ==> Enabled(states[i], actions[i]) && states[i + 1] == Step(states[i], actions[i])
  }

  lemma {:induction false} RunKeeps(states: seq<World>, actions: seq<Action>, n: nat)
    requires Run(states, actions) && n < |states|
    ensures Inv(states[n])
  {
    hide Inv, Step, Enabled;
    if n == 0 {
      EmptyKeeps();
    } else {
      RunKeeps(states, actions, n - 1);
      StepKeeps(states[n - 1], actions[n - 1]);
    }
  }

  lemma EmptyKeeps()
    ensures Inv(World(Gate(0, 0, false, []), map[]))
  {
  }

  /** In every state `_exclusive_pending` counts the tasks that wait for the gate exclusively or hold it so, `_shared`
      those that hold it with others, and `_exclusive_running` says whether one holds it alone. */
  lemma CountersCount(states: seq<World>, actions: seq<Action>, n: nat)
    requires Run(states, actions) && n < |states|
    ensures var (g, tasks) := (states[n].gate, states[n].tasks);
            && g.pending == |set t | t in tasks && tasks[t].kind == Exclusive|
            && g.shared == |set t | t in tasks && tasks[t] == Holding(Shared)|
            && (g.running <==> exists t :: t in tasks && tasks[t] == Holding(Exclusive))
  {
    hide NoneForgotten, Run;
    RunKeeps(states, actions, n);
    var tasks := states[n].tasks;
    assert Excluders(tasks) == set t | t in tasks && tasks[t].kind == Exclusive;
    assert Holders(tasks) == set t | t in tasks && tasks[t] == Holding(Shared);
    if states[n].gate.running {
      assert Sole(tasks) != {};
      var t :| t in Sole(tasks);
    } else {
      assert forall t :: t in tasks && tasks[t] == Holding(Exclusive) ==> t in Sole(tasks);
    }
  }

  /** While a task holds the gate exclusively no other holds it, and `_exclusive_pending` counts the tasks that wait for
      it or hold it exclusively. */
  lemma ExclusiveIsAlone(states: seq<World>, actions: seq<Action>, n: nat, t: nat, u: nat)
    requires Run(states, actions) && n < |states|
    requires t in states[n].tasks && states[n].tasks[t] == Holding(Exclusive)
    requires u in states[n].tasks && states[n].tasks[u].Holding?
    ensures t == u && states[n].gate.pending == |set x | x in states[n].tasks && states[n].tasks[x].kind == Exclusive|
  {
    hide NoneForgotten, Run;
    RunKeeps(states, actions, n);
    var w := states[n];
    assert t in Sole(w.tasks);
    assert Excluders(w.tasks) == set x | x in w.tasks && w.tasks[x].kind == Exclusive;
    if u in Sole(w.tasks) && u != t {
      TwoOf(Sole(w.tasks), t, u);
    }
    assert w.tasks[u] == Holding(Shared) ==> u in Holders(w.tasks);
  }

  lemma TwoOf(s: set<nat>, t: nat, u: nat)
    requires t in s && u in s && t != u
    ensures |s| >= 2
  {
    assert |s - {t} - {u}| == |s| - 2;
  }

  /** No load starts while an invalidation waits for the gate or holds it. */
  lemma PendingKeepsLoadsOut(states: seq<World>, actions: seq<Action>, n: nat, t: nat)
    requires Run(states, actions) && n < |actions|
    requires t in states[n + 1].tasks && states[n + 1].tasks[t] == Holding(Shared)
    requires t in states[n].tasks ==> states[n].tasks[t] != Holding(Shared)
    ensures forall u :: u in states[n].tasks ==> states[n].tasks[u].kind == Shared
  {
    hide NoneForgotten;
    RunKeeps(states, actions, n);
    var w := states[n];
    assert actions[n].t == t && w.gate.pending == 0;
    assert forall u :: u in w.tasks && w.tasks[u].kind == Exclusive ==> u in Excluders(w.tasks);
  }

  /** No wake-up is lost: a task whose future is unresolved could not go on, and a gate that nobody holds and somebody
      waits for has a waiter that can. */
  lemma NoLostWakeUp(states: seq<World>, actions: seq<Action>, n: nat, t: nat)
    requires Run(states, actions) && n < |states|
    requires t in states[n].tasks && states[n].tasks[t].Waiting?
    ensures !states[n].tasks[t].woken ==> !Ready(states[n].gate, states[n].tasks[t].kind)
    ensures (forall u :: u in states[n].tasks ==> states[n].tasks[u].Waiting?) ==>
              exists u :: u in states[n].tasks && Enabled(states[n], Resume(u))
  {
    hide Run;
    RunKeeps(states, actions, n);
    var w := states[n];
    if forall u :: u in w.tasks ==> w.tasks[u].Waiting? {
      assert Holders(w.tasks) == {} && Sole(w.tasks) == {};
      if w.tasks[t].woken {
        assert Enabled(w, Resume(t));
      } else if w.tasks[t].kind == Shared {
        assert Excluders(w.tasks) != {};
        var u :| u in Excluders(w.tasks);
        assert Enabled(w, Resume(u));
      }
    }
  }

  // ------------------------------------------------------------------------------------------------------
  // What the callers did
  // ------------------------------------------------------------------------------------------------------

  /** Among the first `n` actions, `t` entered for `kind`, and has neither left nor been cancelled since. */
  predicate Entered(actions: seq<Action>, n: nat, t: nat, kind: Kind)
    requires n <= |actions|
  {
    exists i :: 0 <= i < n && EntersAt(actions, i, n, t, kind)
  }

  predicate EntersAt(actions: seq<Action>, i: nat, n: nat, t: nat, kind: Kind)
    requires i < n <= |actions|
  {
    actions[i] == Enter(t, kind) && forall j :: i < j < n ==> actions[j] != Leave(t) && actions[j] != Cancel(t)
  }

  lemma EnteredMore(actions: seq<Action>, n: nat, t: nat, kind: Kind)
    requires n < |actions|
    ensures Entered(actions, n + 1, t, kind)
            <==> actions[n] == Enter(t, kind)
                 || (Entered(actions, n, t, kind) && actions[n] != Leave(t) && actions[n] != Cancel(t))
  {
    if Entered(actions, n, t, kind) && actions[n] != Leave(t) && actions[n] != Cancel(t) {
      var i :| 0 <= i < n && EntersAt(actions, i, n, t, kind);
      assert EntersAt(actions, i, n + 1, t, kind);
    }
    if actions[n] == Enter(t, kind) { assert EntersAt(actions, n, n + 1, t, kind); }
    if Entered(actions, n + 1, t, kind) && actions[n] != Enter(t, kind) {
      var i :| 0 <= i < n + 1 && EntersAt(actions, i, n + 1, t, kind);
      assert EntersAt(actions, i, n, t, kind);
    }
  }

  lemma StepTasks(w: World, a: Action, t: nat, kind: Kind)
    requires Enabled(w, a)
    ensures (t in Step(w, a).tasks && Step(w, a).tasks[t].kind == kind)
            <==> a == Enter(t, kind) || (t in w.tasks && w.tasks[t].kind == kind && a != Leave(t) && a != Cancel(t))
  {
  }

  /** The tasks the gate counts are those that entered and have not gone. */
  lemma {:induction false} TasksAreTheCallers(states: seq<World>, actions: seq<Action>, n: nat, t: nat, kind: Kind)
    requires Run(states, actions) && n < |states|
    ensures (t in states[n].tasks && states[n].tasks[t].kind == kind) <==> Entered(actions, n, t, kind)
  {
    hide Step, Enabled, Entered;
    if n == 0 {
      NobodyEntered(states[0], actions, t, kind);
    } else {
      TasksAreTheCallers(states, actions, n - 1, t, kind);
      StepTasks(states[n - 1], actions[n - 1], t, kind);
      EnteredMore(actions, n - 1, t, kind);
    }
  }

  lemma NobodyEntered(w: World, actions: seq<Action>, t: nat, kind: Kind)
    requires w.tasks == map[]
    ensures t !in w.tasks && !Entered(actions, 0, t, kind)
  {
  }

  /** A task that asks for the gate holds it at once exactly if it may: a load if no invalidation waits or holds, an
      invalidation if nobody holds. */
  lemma AskingTakes(states: seq<World>, actions: seq<Action>, n: nat, t: nat)
    requires Run(states, actions) && n < |actions|
    requires actions[n] == Resume(t) || actions[n] == Enter(t, Shared) || actions[n] == Enter(t, Exclusive)
    ensures var (before, after) := (states[n].tasks, states[n + 1].tasks);
            && t in after
            && (after[t].Holding? <==>
                  if after[t].kind == Shared then forall u :: u in before && u != t ==> before[u].kind == Shared
                  else forall u :: u in before && u != t ==> before[u].Waiting?)
  {
    hide Run, NoneForgotten;
    RunSteps(states, actions, n);
    RunKeeps(states, actions, n);
    var w := states[n];
    Alone(w);
    if t in w.tasks { assert w.tasks[t].Waiting?; }
  }

  /** What the counters say of the tasks. */
  lemma Alone(w: World)
    requires Counted(w.gate, w.tasks)
    ensures w.gate.pending == 0 <==> forall u :: u in w.tasks ==> w.tasks[u].kind == Shared
    ensures w.gate.shared == 0 && !w.gate.running <==> forall u :: u in w.tasks ==> w.tasks[u].Waiting?
  {
    if u :| u in w.tasks && w.tasks[u].kind != Shared { assert u in Excluders(w.tasks); }
    if u :| u in w.tasks && w.tasks[u].Holding? {
      assert u in if w.tasks[u].kind == Shared then Holders(w.tasks) else Sole(w.tasks);
    }
    if w.gate.pending != 0 { var u :| u in Excluders(w.tasks); }
    if w.gate.shared != 0 { var u :| u in Holders(w.tasks); }
    if w.gate.running {
      assert |Sole(w.tasks)| == 1;
      var u :| u in Sole(w.tasks);
    }
  }

  lemma RunSteps(states: seq<World>, actions: seq<Action>, n: nat)
    requires Run(states, actions) && n < |actions|
    ensures |states| == |actions| + 1
    ensures Enabled(states[n], actions[n]) && states[n + 1] == Step(states[n], actions[n])
  {
  }

  // ------------------------------------------------------------------------------------------------------
  // The gate itself
  // ------------------------------------------------------------------------------------------------------

  class LoadGate {
    var shared: nat
    var exclusivePending: nat
    var exclusiveRunning: bool
    var waiters: seq<nat>
    ghost var tasks: Tasks

    ghost function View(): World
      reads this
    {
      World(Gate(shared, exclusivePending, exclusiveRunning, waiters), tasks)
    }

    constructor ()
      ensures View() == World(Gate(0, 0, false, []), map[]) && Inv(View())
    {
      shared, exclusivePending, exclusiveRunning, waiters, tasks := 0, 0, false, [], map[];
      new;
      EmptyKeeps();
    }

    /** `_wake` */
    method WakeAll()
      modifies this`waiters, this`tasks
      ensures View() == Wake(old(View()))
    {
      tasks := Wake(View()).tasks;
      waiters := [];
    }

    /** `_wait_until`, up to its next wait or its end, and what the caller does once it ends. */
    method WaitOrHold(t: nat, kind: Kind) returns (holds: bool)
      modifies this
      ensures View() == Try(old(View()), t, kind)
      ensures holds == Ready(old(View()).gate, kind)
    {
      holds := if kind == Shared then exclusivePending == 0 else shared == 0 && !exclusiveRunning;
      if !holds {
        waiters := waiters + [t];
        tasks := tasks[t := Waiting(kind, false)];
      } else {
        if kind == Shared {
          shared := shared + 1;
        } else {
          exclusiveRunning := true;
        }
        tasks := tasks[t := Holding(kind)];
      }
    }

    method EnterGate(t: nat, kind: Kind) returns (holds: bool)
      requires Inv(View()) && Enabled(View(), Enter(t, kind))
      modifies this
      ensures View() == Step(old(View()), Enter(t, kind)) && Inv(View())
      ensures t in tasks && (holds <==> tasks[t].Holding?)
    {
      StepKeeps(View(), Enter(t, kind));
      if kind == Exclusive {
        exclusivePending := exclusivePending + 1;
      }
      holds := WaitOrHold(t, kind);
    }

    method ResumeWait(t: nat, kind: Kind) returns (holds: bool)
      requires Inv(View()) && Enabled(View(), Resume(t)) && tasks[t].kind == kind
      modifies this
      ensures View() == Step(old(View()), Resume(t)) && Inv(View())
      ensures t in tasks && (holds <==> tasks[t].Holding?)
    {
      StepKeeps(View(), Resume(t));
      holds := WaitOrHold(t, kind);
    }

    method RemoveWaiter(t: nat)
      modifies this`waiters
      ensures waiters == Removed(old(waiters), t)
    {
      var i := 0;
      while i < |waiters| && waiters[i] != t
        invariant 0 <= i <= |waiters| && forall j :: 0 <= j < i ==> waiters[j] != t
      {
        i := i + 1;
      }
      RemovedFirst(waiters, t, i);
      if i < |waiters| {
        waiters := waiters[..i] + waiters[i + 1..];
      }
    }

    /** A cancelled wait. */
    method CancelWait(t: nat, kind: Kind)
      requires Inv(View()) && Enabled(View(), Cancel(t)) && tasks[t].kind == kind
      modifies this
      ensures View() == Step(old(View()), Cancel(t)) && Inv(View())
    {
      StepKeeps(View(), Cancel(t));
      assert kind == Exclusive ==> exclusivePending > 0 by { GoneCounts(View().gate, tasks, t); }
      RemoveWaiter(t);
      tasks := tasks - {t};
      if kind == Exclusive {
        exclusivePending := exclusivePending - 1;
        WakeAll();
      }
    }

    /** A holder is done, or cancelled. */
    method LeaveGate(t: nat, kind: Kind)
      requires Inv(View()) && Enabled(View(), Leave(t)) && tasks[t].kind == kind
      modifies this
      ensures View() == Step(old(View()), Leave(t)) && Inv(View())
    {
      StepKeeps(View(), Leave(t));
      tasks := tasks - {t};
      if kind == Shared {
        shared := shared - 1;
      } else {
        exclusiveRunning := false;
        exclusivePending := exclusivePending - 1;
      }
      WakeAll();
    }
  }
}
