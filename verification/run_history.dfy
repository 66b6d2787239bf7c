/** Safety over whole runs: what the history of steps says about each task record,
    how many attempts a run can make, and in which order tasks are done. */
module RunHistory {
  import opened DependencyGraph
  import opened Scheduler

  // ----- Histories -----

  predicate IsFailure(e: Event, t: Id) {
    match e
    case Spawned(_, _, _) => false
    case SpawnFailed(u, _, _) => u == t
    case Exited(u, _, code, _) => u == t && code != 0
  }

  /** A spawn attempt of `t`, whether the process started or not. */
  predicate IsAttempt(e: Event, t: Id) {
    !e.Exited? && e.t == t
  }

  function FailedAt(e: Event): real {
    match e
    case Spawned(_, _, readAt) => readAt
    case SpawnFailed(_, _, failedAt) => failedAt
    case Exited(_, _, _, at) => at
  }

  function Failures(es: seq<Event>, t: Id): nat {
    if es == [] then 0
    else Failures(es[..|es| - 1], t) + if IsFailure(es[|es| - 1], t) then 1 else 0
  }

  function Attempts(es: seq<Event>, t: Id): nat {
    if es == [] then 0
    else Attempts(es[..|es| - 1], t) + if IsAttempt(es[|es| - 1], t) then 1 else 0
  }

  /** When `t` last failed. */
  function LastFailure(es: seq<Event>, t: Id): real
    requires Failures(es, t) > 0
  {
    if IsFailure(es[|es| - 1], t) then FailedAt(es[|es| - 1]) else LastFailure(es[..|es| - 1], t)
  }

  lemma TakeTake<T>(s: seq<T>, m: nat, n: nat)
    requires n <= m <= |s|
    ensures s[..m][..n] == s[..n]
  {
  }

  /** A history determines the state it leads to. */
  lemma {:induction false} RunUnique(cfg: Config, p: Plan, es: seq<Event>, s: State, s': State)
    requires Run(cfg, p, es, s) && Run(cfg, p, es, s')
    ensures s == s'
  {
    if es != [] {
      var a := RunPop(cfg, p, es, s);
      var b := RunPop(cfg, p, es, s');
      RunUnique(cfg, p, es[..|es| - 1], a, b);
    }
  }

  lemma RunPrefix(cfg: Config, p: Plan, es: seq<Event>, s: State, n: nat) returns (s0: State)
    requires Run(cfg, p, es, s) && n <= |es|
    ensures Run(cfg, p, es[..n], s0)
  {
    var k := |es|;
    assert es[..k] == es;
    s0 := s;
    while k > n
      invariant n <= k <= |es| && Run(cfg, p, es[..k], s0)
    {
      s0 := RunPop(cfg, p, es[..k], s0);
      TakeTake(es, k, k - 1);
      k := k - 1;
    }
  }

  // ----- The record of a task is determined by its history -----

  ghost predicate Accounted(cfg: Config, es: seq<Event>, k: Task, t: Id) {
    && Failures(es, t) == k.retries + (if k.status == Terminal then 1 else 0)
    && Attempts(es, t) == k.retries + (if k.status == Pending then 0 else 1)
    && (k.status == Pending && k.retries > 0 ==> k.retryAt == LastFailure(es, t) + Wait(cfg, k.retries))
  }

  lemma AccountedActor(cfg: Config, es: seq<Event>, maxRetries: nat, k: Task)
    requires es != [] && k.retries <= maxRetries
    requires k.status == if es[|es| - 1].Exited? then Running else Pending
    requires Accounted(cfg, es[..|es| - 1], k, es[|es| - 1].t)
    ensures Accounted(cfg, es, TaskStep(cfg, maxRetries, k, es[|es| - 1]), es[|es| - 1].t)
  {
  }

  lemma AccountedStep(cfg: Config, p: Plan, es: seq<Event>, s: State, t: Id)
    requires es != [] && Inv(cfg, p, s) && Enabled(cfg, p, s, es[|es| - 1]) && t in s.tasks
    requires Accounted(cfg, es[..|es| - 1], s.tasks[t], t)
    ensures Accounted(cfg, es, Apply(cfg, p, s, es[|es| - 1]).tasks[t], t)
  {
    var e := es[|es| - 1];
    ActorStatus(cfg, p, s, e);
    if e.t == t {
      AccountedActor(cfg, es, p.specs[t].maxRetries, s.tasks[t]);
    }
  }

  /** In every run: the failures, the attempts and the retry time of a task follow from
      the history alone, and no task is attempted more than `max_retries + 1` times. */
  lemma {:induction false} RunAccounts(cfg: Config, p: Plan, es: seq<Event>, s: State, t: Id)
    requires Run(cfg, p, es, s) && t in p.specs
    ensures t in s.tasks && Accounted(cfg, es, s.tasks[t], t)
    ensures Attempts(es, t) <= p.specs[t].maxRetries + 1
  {
    if es != [] {
      var s0 := RunPop(cfg, p, es, s);
      RunAccounts(cfg, p, es[..|es| - 1], s0, t);
      RunInv(cfg, p, es[..|es| - 1], s0);
      AccountedStep(cfg, p, es, s0, t);
    }
    RunInv(cfg, p, es, s);
    assert TaskOk(p, s, t);
  }

  // ----- Backoff -----

  lemma {:induction false} PowerAtLeastOne(x: real, n: nat)
    requires x >= 1.0
    ensures Power(x, n) >= 1.0 && Power(x, n) <= Power(x, n + 1)
  {
    if n > 0 {
      PowerAtLeastOne(x, n - 1);
      var y := Power(x, n - 1);
      assert Power(x, n) == x * y;
      assert x * y >= y by { Scale(x, y); }
    }
    Scale(x, Power(x, n));
  }

  lemma Scale(x: real, y: real)
    requires x >= 1.0 && y >= 0.0
    ensures x * y >= y
  {
    assert (x - 1.0) * y >= 0.0;
  }

  /** With a factor of at least 1, successive waits never shrink and never exceed the cap. */
  lemma WaitsGrow(cfg: Config, k: nat)
    requires cfg.backoffFactor >= 1.0 && cfg.backoffBase >= 0.0 && k > 0
    ensures Wait(cfg, k) <= Wait(cfg, k + 1) <= cfg.backoffCap
  {
    PowerAtLeastOne(cfg.backoffFactor, k - 1);
    var x, y, b := Power(cfg.backoffFactor, k - 1), Power(cfg.backoffFactor, k), cfg.backoffBase;
    assert b * y - b * x == b * (y - x);
    assert b * (y - x) >= 0.0;
  }

  /** The wait after the first failure is the base, after each further failure it is the last
      wait times the factor, and none exceeds the cap. */
  lemma WaitsAre(cfg: Config, k: nat)
    requires k > 0
    ensures Wait(cfg, 1) == Smaller(cfg.backoffBase, cfg.backoffCap)
    ensures Wait(cfg, k) < cfg.backoffCap ==>
      Wait(cfg, k + 1) == Smaller(cfg.backoffFactor * Wait(cfg, k), cfg.backoffCap)
    ensures cfg.backoffBase >= 0.0 && cfg.backoffFactor >= 1.0 && cfg.backoffCap >= 0.0 ==>
      Wait(cfg, k + 1) == Smaller(cfg.backoffFactor * Wait(cfg, k), cfg.backoffCap)
  {
    var b, f, cap := cfg.backoffBase, cfg.backoffFactor, cfg.backoffCap;
    var w := b * Power(f, k - 1);
    assert b * Power(f, k) == f * w by { Regroup(b, f, Power(f, k - 1)); }
    assert Power(f, 0) == 1.0;
    if b >= 0.0 && f >= 1.0 && cap >= 0.0 && w > cap {
      Scale(f, w);
      Scale(f, cap);
    }
  }

  lemma Regroup(b: real, f: real, x: real)
    ensures b * (f * x) == f * (b * x)
  {
  }

  function Smaller(x: real, y: real): real {
    if x <= y then x else y
  }

  /** In every run an attempt that follows `k` failures of the task passes a ready check
      no earlier than the last of them plus the k-th wait. */
  lemma BackoffSpacing(cfg: Config, p: Plan, es: seq<Event>, s: State, i: nat, t: Id)
    requires Run(cfg, p, es, s) && i < |es| && IsAttempt(es[i], t)
    ensures var k := Failures(es[..i], t);
      && (k > 0 ==> es[i].readAt >= LastFailure(es[..i], t) + Wait(cfg, k))
      && (k == 1 ==> es[i].readAt >= LastFailure(es[..i], t) + Smaller(cfg.backoffBase, cfg.backoffCap))
  {
    WaitsAre(cfg, 1);
    var s1 := RunPrefix(cfg, p, es, s, i + 1);
    var s0 := RunPop(cfg, p, es[..i + 1], s1);
    TakeTake(es, i + 1, i);
    RunAccounts(cfg, p, es[..i], s0, t);
  }

  // ----- Termination measure -----

  /** The total weight of the tasks in `order`. */
  ghost function Weigh(p: Plan, tasks: map<Id, Task>, order: seq<Id>, weight: (nat, Task) -> nat): nat
    requires forall t | t in order :: t in p.specs && t in tasks
  {
    if order == [] then 0
    else
      var t := order[0];
      weight(p.specs[t].maxRetries, tasks[t]) + Weigh(p, tasks, order[1..], weight)
  }

  lemma {:induction false} WeighElsewhere(p: Plan, a: map<Id, Task>, b: map<Id, Task>, order: seq<Id>,
                                          weight: (nat, Task) -> nat)
    requires forall t | t in order :: t in p.specs && t in a && t in b && a[t] == b[t]
    ensures Weigh(p, a, order, weight) == Weigh(p, b, order, weight)
  {
    if order != [] {
      WeighElsewhere(p, a, b, order[1..], weight);
    }
  }

  lemma {:induction false} WeighChange(p: Plan, a: map<Id, Task>, b: map<Id, Task>, order: seq<Id>,
                                       weight: (nat, Task) -> nat, t: Id)
    requires forall u | u in order :: u in p.specs && u in a && u in b
    requires forall u | u in order && u != t :: a[u] == b[u]
    requires Distinct(order) && t in order
    ensures Weigh(p, b, order, weight) + weight(p.specs[t].maxRetries, a[t])
         == Weigh(p, a, order, weight) + weight(p.specs[t].maxRetries, b[t])
  {
    if order[0] == t {
      assert forall i | 0 < i < |order| :: order[i] != order[0];
      WeighElsewhere(p, a, b, order[1..], weight);
    } else {
      WeighChange(p, a, b, order[1..], weight, t);
    }
  }

  /** Steps that a task may still take. */
  function StepsLeft(maxRetries: nat, k: Task): nat {
    if k.retries > maxRetries || k.status == Done || k.status == Terminal then 0
    else 2 * (maxRetries - k.retries) + if k.status == Pending then 2 else 1
  }

  /** Spawn attempts that a task may still make. */
  function AttemptsLeft(maxRetries: nat, k: Task): nat {
    if k.retries > maxRetries || k.status == Done || k.status == Terminal then 0
    else maxRetries - k.retries + if k.status == Pending then 1 else 0
  }

  ghost function Measure(p: Plan, s: State): nat
    requires WellFormed(p) && s.tasks.Keys == p.specs.Keys
  {
    OrderKnown(p);
    Weigh(p, s.tasks, p.order, StepsLeft)
  }

  ghost function Budget(p: Plan, s: State): nat
    requires WellFormed(p) && s.tasks.Keys == p.specs.Keys
  {
    OrderKnown(p);
    Weigh(p, s.tasks, p.order, AttemptsLeft)
  }

  lemma OrderKnown(p: Plan)
    requires WellFormed(p)
    ensures forall t :: t in p.order <==> t in p.specs
  {
    forall t ensures t in p.order <==> t in p.specs {
      assert t in Elements(p.order) <==> t in p.specs.Keys;
    }
  }

  lemma StepLowersOwn(cfg: Config, maxRetries: nat, k: Task, e: Event)
    requires k.retries <= maxRetries && k.status == if e.Exited? then Running else Pending
    ensures StepsLeft(maxRetries, TaskStep(cfg, maxRetries, k, e)) < StepsLeft(maxRetries, k)
    ensures AttemptsLeft(maxRetries, TaskStep(cfg, maxRetries, k, e)) + (if e.Exited? then 0 else 1) <= AttemptsLeft(maxRetries, k)
  {
  }

  /** Every step lowers the measure, and every attempt uses up one unit of the budget. */
  lemma StepLowersMeasure(cfg: Config, p: Plan, s: State, e: Event)
    requires WellFormed(p) && Inv(cfg, p, s) && Enabled(cfg, p, s, e)
    ensures var s' := Apply(cfg, p, s, e);
      && s'.tasks.Keys == p.specs.Keys
      && Measure(p, s') < Measure(p, s)
      && Budget(p, s') + (if e.Exited? then 0 else 1) <= Budget(p, s)
  {
    var s' := Apply(cfg, p, s, e);
    StepFrame(cfg, p, s, e);
    OrderKnown(p);
    ActorStatus(cfg, p, s, e);
    StepLowersOwn(cfg, p.specs[e.t].maxRetries, s.tasks[e.t], e);
    WeighChange(p, s.tasks, s'.tasks, p.order, StepsLeft, e.t);
    WeighChange(p, s.tasks, s'.tasks, p.order, AttemptsLeft, e.t);
  }

  function TotalAttempts(es: seq<Event>): nat {
    if es == [] then 0
    else TotalAttempts(es[..|es| - 1]) + if es[|es| - 1].Exited? then 0 else 1
  }

  /** The sum of `max_retries + 1` over the plan. */
  ghost function AttemptLimit(p: Plan): nat
    requires WellFormed(p)
  {
    Budget(p, Init(p))
  }

  lemma {:induction false} MeasureOfFreshTasks(p: Plan, tasks: map<Id, Task>, order: seq<Id>)
    requires forall t | t in order :: t in p.specs && t in tasks && tasks[t] == FRESH_TASK
    ensures Weigh(p, tasks, order, StepsLeft) == 2 * Weigh(p, tasks, order, AttemptsLeft)
  {
    if order != [] {
      MeasureOfFreshTasks(p, tasks, order[1..]);
    }
  }

  /** No run is longer than twice the attempt limit, and it spends at most the limit on attempts. */
  lemma {:induction false} RunsAreBounded(cfg: Config, p: Plan, es: seq<Event>, s: State)
    requires WellFormed(p) && Run(cfg, p, es, s)
    ensures s.tasks.Keys == p.specs.Keys
    ensures |es| + Measure(p, s) <= 2 * AttemptLimit(p)
    ensures TotalAttempts(es) + Budget(p, s) <= AttemptLimit(p)
  {
    if es == [] {
      OrderKnown(p);
      MeasureOfFreshTasks(p, s.tasks, p.order);
    } else {
      var s0 := RunPop(cfg, p, es, s);
      RunsAreBounded(cfg, p, es[..|es| - 1], s0);
      RunInv(cfg, p, es[..|es| - 1], s0);
      StepLowersMeasure(cfg, p, s0, es[|es| - 1]);
    }
  }

  // ----- Dependency safety -----

  lemma {:induction false} DepsDoneAlong(cfg: Config, p: Plan, s: State, walk: seq<Id>)
    requires Inv(cfg, p, s) && Walk(GraphOf(p), walk) && |walk| >= 2 && Tried(s.tasks[walk[0]])
    ensures s.tasks[walk[|walk| - 1]].status == Done
    decreases |walk|
  {
    var g := GraphOf(p);
    assert TaskOk(p, s, walk[0]);
    assert Edge(g, walk[0], walk[1]);
    if |walk| > 2 {
      WalkSlice(g, walk, 1, |walk|);
      assert walk[1..|walk|] == walk[1..];
      DepsDoneAlong(cfg, p, s, walk[1..]);
    }
  }

  /** In every run a task that was ever attempted has all its transitive dependencies done. */
  lemma TransitiveDepsDone(cfg: Config, p: Plan, es: seq<Event>, s: State, t: Id, u: Id)
    requires Run(cfg, p, es, s) && Reaches(GraphOf(p), t, u)
    ensures t in s.tasks && u in s.tasks
    ensures Attempts(es, t) > 0 ==> s.tasks[u].status == Done
    ensures Tried(s.tasks[t]) ==> s.tasks[u].status == Done
  {
    RunInv(cfg, p, es, s);
    var walk :| WalkBetween(GraphOf(p), walk, t, u);
    RunAccounts(cfg, p, es, s, t);
    if Tried(s.tasks[t]) {
      DepsDoneAlong(cfg, p, s, walk);
    }
  }

  lemma FinishedKept(cfg: Config, p: Plan, s: State, e: Event, t: Id)
    requires Inv(cfg, p, s) && Enabled(cfg, p, s, e)
    requires t in s.tasks && s.tasks[t].status in {Done, Terminal}
    ensures t in Apply(cfg, p, s, e).tasks && Apply(cfg, p, s, e).tasks[t] == s.tasks[t]
  {
    StepFrame(cfg, p, s, e);
    ActorStatus(cfg, p, s, e);
  }

  lemma PrefixOfInit<T>(a: seq<T>, b: seq<T>)
    requires a <= b && |a| < |b|
    ensures a <= b[..|b| - 1]
  {
  }

  /** `done` and `terminal` are absorbing. */
  lemma {:induction false} FinishedIsFinal(cfg: Config, p: Plan, es: seq<Event>, s: State, es': seq<Event>, s': State, t: Id)
    requires Run(cfg, p, es, s) && Run(cfg, p, es', s') && es <= es'
    requires t in s.tasks && s.tasks[t].status in {Done, Terminal}
    ensures t in s'.tasks && s'.tasks[t] == s.tasks[t]
    decreases |es'|
  {
    if |es| == |es'| {
      assert es == es';
      RunUnique(cfg, p, es, s, s');
    } else {
      var s1 := RunPop(cfg, p, es', s');
      PrefixOfInit(es, es');
      FinishedIsFinal(cfg, p, es, s, es'[..|es'| - 1], s1, t);
      RunInv(cfg, p, es'[..|es'| - 1], s1);
      FinishedKept(cfg, p, s1, es'[|es'| - 1], t);
    }
  }

  /** Once a task is terminal, nothing that depends on it, directly or not, was or will be attempted. */
  lemma DependentsOfTerminalNeverAttempted(cfg: Config, p: Plan, es: seq<Event>, s: State,
                                          es': seq<Event>, s': State, t: Id, u: Id)
    requires Run(cfg, p, es, s) && Run(cfg, p, es', s') && es <= es'
    requires Reaches(GraphOf(p), t, u) && u in s.tasks && s.tasks[u].status == Terminal
    ensures Attempts(es', t) == 0 && t in s'.tasks && s'.tasks[t].status == Pending
  {
    FinishedIsFinal(cfg, p, es, s, es', s', u);
    TransitiveDepsDone(cfg, p, es', s', t, u);
  }

  /** The tasks in the order in which their workers exited with code 0. */
  function DoneOrder(es: seq<Event>): seq<Id> {
    if es == [] then []
    else
      var e := es[|es| - 1];
      var before := DoneOrder(es[..|es| - 1]);
      if e.Exited? && e.code == 0 then before + [e.t] else before
  }

  ghost function DoneTasks(s: State): set<Id> {
    set t | t in s.tasks && s.tasks[t].status == Done
  }

  lemma DoneAfter(cfg: Config, p: Plan, s: State, e: Event)
    requires Inv(cfg, p, s) && Enabled(cfg, p, s, e)
    ensures if e.Exited? && e.code == 0
      then e.t !in DoneTasks(s) && DoneTasks(Apply(cfg, p, s, e)) == DoneTasks(s) + {e.t} && DepsDone(p, s.tasks, e.t)
      else DoneTasks(Apply(cfg, p, s, e)) == DoneTasks(s)
  {
    StepFrame(cfg, p, s, e);
    ActorStatus(cfg, p, s, e);
  }

  /** The order in which tasks become done is a linear extension of `depends_on`. */
  lemma {:induction false} DoneInDependencyOrder(cfg: Config, p: Plan, es: seq<Event>, s: State)
    requires Run(cfg, p, es, s)
    ensures Ordered(GraphOf(p), DoneOrder(es))
    ensures Elements(DoneOrder(es)) == DoneTasks(s)
  {
    if es != [] {
      var n := |es| - 1;
      var s0 := RunPop(cfg, p, es, s);
      DoneInDependencyOrder(cfg, p, es[..n], s0);
      RunInv(cfg, p, es[..n], s0);
      DoneAfter(cfg, p, s0, es[n]);
      if es[n].Exited? && es[n].code == 0 {
        AppendDone(p, DoneOrder(es[..n]), s0, es[n].t);
      }
    }
  }

  lemma AppendDone(p: Plan, o: seq<Id>, s: State, t: Id)
    requires Ordered(GraphOf(p), o) && Elements(o) == DoneTasks(s)
    requires t in p.specs && t !in DoneTasks(s) && DepsDone(p, s.tasks, t)
    ensures Ordered(GraphOf(p), o + [t]) && Elements(o + [t]) == DoneTasks(s) + {t}
  {
    assert (o + [t])[..|o|] == o;
    forall d | d in GraphOf(p)[t] && d in GraphOf(p) ensures d in o {
      assert d in DoneTasks(s);
    }
    assert t !in Elements(o);
  }

  // ----- Worker ids -----

  /** The ids of the workers that were started, in order. */
  function SpawnedIds(es: seq<Event>): seq<WorkerId> {
    if es == [] then []
    else
      var before := SpawnedIds(es[..|es| - 1]);
      if es[|es| - 1].Spawned? then before + [es[|es| - 1].w] else before
  }

  lemma LastIsNew(ids: seq<WorkerId>, w: WorkerId)
    requires Distinct(ids + [w])
    ensures Distinct(ids) && w !in ids
  {
    forall i, j | 0 <= i < j < |ids| ensures ids[i] != ids[j] {
      assert (ids + [w])[i] != (ids + [w])[j];
    }
    forall i | 0 <= i < |ids| ensures ids[i] != w {
      assert (ids + [w])[i] != (ids + [w])[|ids|];
    }
  }

  lemma {:induction false} ActiveWereSpawned(cfg: Config, p: Plan, es: seq<Event>, s: State)
    requires Run(cfg, p, es, s)
    ensures forall w | w in s.active :: w in SpawnedIds(es)
  {
    if es != [] {
      var s0 := RunPop(cfg, p, es, s);
      ActiveWereSpawned(cfg, p, es[..|es| - 1], s0);
    }
  }
}
