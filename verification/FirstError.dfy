/** `bounded_gather_first_error` on `bounded_gather` (sdk/concurrency.py): any schedule that keeps to the bound ends
    as a serial loop over the items would. */
module FirstError {
  import opened Basics

  datatype Error = Error(code: nat)

  /** What becomes of the items: the bound, and the error each item's worker raises, if any. */
  datatype Job = Job(bound: nat, outcomes: seq<Option<Error>>)

  datatype Item = NotStarted | Running | Completed | Failed | Skipped

  /** The items' tasks, and `failures`. */
  datatype Gather = Gather(items: seq<Item>, failures: map<nat, Error>)

  function Start(job: Job): Gather { Gather(seq(|job.outcomes|, _ => NotStarted), map[]) }

  function RunningCount(items: seq<Item>): nat {
    if items == [] then 0 else RunningCount(items[..|items| - 1]) + if items[|items| - 1] == Running then 1 else 0
  }

  datatype Action = Acquire(i: nat) | End(i: nat)

  predicate Enabled(job: Job, g: Gather, a: Action) {
    && a.i < |g.items| == |job.outcomes|
    && match a
       case Acquire(i) => g.items[i] == NotStarted && RunningCount(g.items) < job.bound
       case End(i) => g.items[i] == Running
  }

  /** An item that gets a slot runs, unless an earlier one has failed; a worker that raises records its error. */
  function Step(job: Job, g: Gather, a: Action): Gather
    requires Enabled(job, g, a)
  {
    match a
    case Acquire(i) => g.(items := g.items[i := if exists j :: j in g.failures && j < i then Skipped else Running])
    case End(i) =>
      if job.outcomes[i].None? then g.(items := g.items[i := Completed])
      else Gather(g.items[i := Failed], g.failures[i := job.outcomes[i].value])
  }

  predicate Over(g: Gather) { forall i :: 0 <= i < |g.items| ==> g.items[i] !in {NotStarted, Running} }

  /** `min(failures)` */
  ghost predicate IsFirst(failures: map<nat, Error>, m: nat) {
    m in failures && forall j :: j in failures ==> m <= j
  }

  /** What the call raises once every task is over. */
  ghost predicate Raises(g: Gather, error: Option<Error>) {
    if error.None? then g.failures == map[] else exists m :: IsFirst(g.failures, m) && g.failures[m] == error.value
  }

  ghost predicate Inv(job: Job, g: Gather) {
    && |g.items| == |job.outcomes|
    && (forall i :: i in g.failures <==> 0 <= i < |g.items| && g.items[i] == Failed)
    && (forall i :: i in g.failures && i < |job.outcomes| ==> job.outcomes[i] == Some(g.failures[i]))
    && (forall i :: 0 <= i < |g.items| && g.items[i] == Completed ==> job.outcomes[i] == None)
    && (forall i :: 0 <= i < |g.items| && g.items[i] == Skipped ==> exists j :: j in g.failures && j < i)
  }

  ghost predicate Run(job: Job, states: seq<Gather>, actions: seq<Action>) {
    && |states| == |actions| + 1 && states[0] == Start(job)
    && forall n :: 0 <= n < |actions| ==>
         Enabled(job, states[n], actions[n]) && states[n + 1] == Step(job, states[n], actions[n])
  }

  lemma StepKeeps(job: Job, g: Gather, a: Action)
    requires Inv(job, g) && Enabled(job, g, a)
    ensures Inv(job, Step(job, g, a))
  {
    var g' := Step(job, g, a);
    forall i | 0 <= i < |g'.items| && g'.items[i] == Skipped ensures exists j :: j in g'.failures && j < i {
      if i != a.i || a.End? {
        var j :| j in g.failures && j < i;
        assert j in g'.failures;
      }
    }
  }

  lemma {:induction false} RunKeeps(job: Job, states: seq<Gather>, actions: seq<Action>, n: nat)
    requires Run(job, states, actions) && n < |states|
    ensures Inv(job, states[n])
  {
    if n > 0 {
      RunKeeps(job, states, actions, n - 1);
      StepKeeps(job, states[n - 1], actions[n - 1]);
    }
  }

  lemma {:induction false} CountStep(items: seq<Item>, i: nat, item: Item)
    requires i < |items|
    ensures RunningCount(items[i := item])
            == RunningCount(items) - (if items[i] == Running then 1 else 0) + if item == Running then 1 else 0
  {
    var n := |items| - 1;
    if i == n {
      assert items[i := item][..n] == items[..n];
    } else {
      assert items[i := item][..n] == items[..n][i := item];
      CountStep(items[..n], i, item);
    }
  }

  /** At most `bound` workers run at once. */
  lemma {:induction false} BoundHolds(job: Job, states: seq<Gather>, actions: seq<Action>, n: nat)
    requires Run(job, states, actions) && n < |states|
    ensures RunningCount(states[n].items) <= job.bound
  {
    if n == 0 {
      NoneRunning(|job.outcomes|);
    } else {
      BoundHolds(job, states, actions, n - 1);
      var (g, a) := (states[n - 1], actions[n - 1]);
      CountStep(g.items, a.i, states[n].items[a.i]);
    }
  }

  lemma {:induction false} NoneRunning(n: nat)
    ensures RunningCount(seq(n, _ => NotStarted)) == 0
  {
    if n > 0 {
      assert seq(n, _ => NotStarted)[..n - 1] == seq(n - 1, _ => NotStarted);
      NoneRunning(n - 1);
    }
  }

  /** Until every task is over some step is possible. */
  lemma NeverStuck(job: Job, g: Gather)
    requires Inv(job, g) && job.bound >= 1 && !Over(g)
    ensures exists a :: Enabled(job, g, a)
  {
    var i :| 0 <= i < |g.items| && g.items[i] in {NotStarted, Running};
    if g.items[i] == Running {
      assert Enabled(job, g, End(i));
    } else if j :| 0 <= j < |g.items| && g.items[j] == Running {
      assert Enabled(job, g, End(j));
    } else {
      NoRunningCounts(g.items);
      assert Enabled(job, g, Acquire(i));
    }
  }

  lemma {:induction false} NoRunningCounts(items: seq<Item>)
    requires forall i :: 0 <= i < |items| ==> items[i] != Running
    ensures RunningCount(items) == 0
  {
    if items != [] { NoRunningCounts(items[..|items| - 1]); }
  }

  /** Items that are not over, twice those not started: each step lessens it, so every schedule ends. */
  function Left(items: seq<Item>): nat {
    if items == [] then 0
    else
      Left(items[..|items| - 1])
      + match items[|items| - 1] case NotStarted => 2 case Running => 1 case _ => 0
  }

  lemma {:induction false} LeftStep(items: seq<Item>, i: nat, item: Item)
    requires i < |items|
    requires (items[i] == NotStarted && item in {Running, Skipped}) || (items[i] == Running && item in {Completed, Failed})
    ensures Left(items[i := item]) < Left(items)
  {
    var n := |items| - 1;
    if i == n {
      assert items[i := item][..n] == items[..n];
    } else {
      assert items[i := item][..n] == items[..n][i := item];
      LeftStep(items[..n], i, item);
    }
  }

  lemma StepsAreFew(job: Job, g: Gather, a: Action)
    requires Enabled(job, g, a)
    ensures Left(Step(job, g, a).items) < Left(g.items)
  {
    LeftStep(g.items, a.i, Step(job, g, a).items[a.i]);
  }

  /** What a serial loop does: it runs the items in order up to the first that raises. */
  function Serial(outcomes: seq<Option<Error>>, i: nat): (r: (nat, Option<Error>))
    requires i <= |outcomes|
    ensures i <= r.0 <= |outcomes|
    ensures forall j :: i <= j < r.0 ==> outcomes[j] == None
    ensures if r.0 < |outcomes| then r.1.Some? && r.1 == outcomes[r.0] else r.1 == None
    decreases |outcomes| - i
  {
    if i == |outcomes| then (i, None)
    else if outcomes[i].Some? then (i, outcomes[i])
    else Serial(outcomes, i + 1)
  }

  /** However the tasks were scheduled, the call raises exactly what the serial loop raises, and the items the loop
      would have completed all ran to completion. */
  lemma FailsAsSerially(job: Job, states: seq<Gather>, actions: seq<Action>, n: nat, error: Option<Error>)
    requires Run(job, states, actions) && n < |states| && Over(states[n])
    ensures Raises(states[n], error) <==> error == Serial(job.outcomes, 0).1
    ensures forall i :: 0 <= i < Serial(job.outcomes, 0).0 ==> i < |states[n].items| && states[n].items[i] == Completed
  {
    RunKeeps(job, states, actions, n);
    var (g, m) := (states[n], Serial(job.outcomes, 0).0);
    forall i | 0 <= i < m ensures g.items[i] == Completed {
      assert g.items[i] !in {NotStarted, Running};
    }
    if m < |job.outcomes| {
      assert g.items[m] !in {NotStarted, Running};
      assert g.items[m] == Failed;
      assert IsFirst(g.failures, m);
    } else {
      assert forall i :: i in g.failures ==> i < m;
    }
  }

  /** Item `i` stays out of the run, or has not had its turn. */
  predicate StaysOut(g: Gather, i: nat) { i < |g.items| && g.items[i] in {NotStarted, Skipped} }

  /** An item that has not started when an earlier one has failed never does. */
  lemma {:induction false} SkippedAfterFailure(job: Job, states: seq<Gather>, actions: seq<Action>, n: nat, m: nat,
                                               i: nat, j: nat)
    requires Run(job, states, actions) && n <= m < |states|
    requires j < i < |job.outcomes| && j < |states[n].items| && states[n].items[j] == Failed && StaysOut(states[n], i)
    ensures StaysOut(states[m], i) && j < |states[m].items| && states[m].items[j] == Failed
  {
    if n < m {
      SkippedAfterFailure(job, states, actions, n, m - 1, i, j);
      RunKeeps(job, states, actions, m - 1);
    }
  }

  /** And no other is skipped: an item that gets its turn before any earlier one has failed runs. */
  lemma TurnRuns(job: Job, states: seq<Gather>, actions: seq<Action>, n: nat)
    requires Run(job, states, actions) && n < |actions| && actions[n].Acquire?
    ensures var (g, g', i) := (states[n], states[n + 1], actions[n].i);
            i < |g'.items| && (g'.items[i] == Running <==> forall j :: 0 <= j < i && j < |g.items| ==> g.items[j] != Failed)
  {
    RunKeeps(job, states, actions, n);
  }
}
