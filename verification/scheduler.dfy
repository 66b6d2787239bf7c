/** The supervisor's scheduling state and its steps: a worker is spawned, a spawn fails,
    or a worker exits. Outcomes and clock readings are part of each step. */
module Scheduler {
  import opened DependencyGraph

  /** The 128-bit value behind a worker's printed id. */
  type WorkerId = nat

  /** The statuses of the state schema. The supervisor itself never uses the second and third. */
  datatype Status = Pending | MarkedReady | Assigned | Running | Done | Failed | Terminal

  /** Whom a task record names: no one, a worker of this run, or what its task dict says. */
  datatype Assignee = Nobody | Worker(id: WorkerId) | Named(name: string)

  /** What the plan fixes about a task. */
  datatype Spec = Spec(priority: int, dependsOn: seq<Id>, maxRetries: nat)

  /** The task table in plan order. */
  datatype Plan = Plan(order: seq<Id>, specs: map<Id, Spec>)

  datatype Config = Config(maxParallel: int, backoffBase: real, backoffFactor: real, backoffCap: real)

  /** What the supervisor changes about a task. */
  datatype Task = Task(status: Status, retries: nat, retryAt: real, assignedTo: Assignee)

  datatype State = State(
    tasks: map<Id, Task>,
    active: map<WorkerId, Id>,
    workerOf: map<Id, WorkerId>,
    exitCode: int)

  /** `readAt` is the clock reading of the ready check that led to the attempt. */
  datatype Event =
    | Spawned(t: Id, w: WorkerId, readAt: real)
    | SpawnFailed(t: Id, readAt: real, failedAt: real)
    | Exited(t: Id, w: WorkerId, code: int, at: real)

  ghost function GraphOf(p: Plan): Graph {
    map t | t in p.specs :: p.specs[t].dependsOn
  }

  /** What the orchestrator's constructor checks. */
  ghost predicate WellFormed(p: Plan) {
    && Distinct(p.order)
    && Elements(p.order) == p.specs.Keys
    && Closed(GraphOf(p))
    && Acyclic(GraphOf(p))
  }

  const FRESH_TASK := Task(Pending, 0, 0.0, Nobody)

  ghost function Init(p: Plan): State {
    State(map t | t in p.specs :: FRESH_TASK, map[], map[], 0)
  }

  // ----- Readiness -----

  predicate DepsDone(p: Plan, tasks: map<Id, Task>, t: Id)
    requires t in p.specs
  {
    forall d | d in p.specs[t].dependsOn :: d in tasks && tasks[d].status == Done
  }

  /** Ready but for the backoff. */
  predicate Eligible(p: Plan, s: State, t: Id) {
    && t in p.specs && t in s.tasks
    && s.tasks[t].status == Pending
    && t !in s.workerOf
    && DepsDone(p, s.tasks, t)
  }

  predicate Ready(p: Plan, s: State, t: Id, now: real) {
    Eligible(p, s, t) && now >= s.tasks[t].retryAt
  }

  // ----- Backoff -----

  function Power(x: real, n: nat): real {
    if n == 0 then 1.0 else x * Power(x, n - 1)
  }

  /** The wait after the k-th failure of a task. */
  function Wait(cfg: Config, k: nat): real
    requires k > 0
  {
    var w := cfg.backoffBase * Power(cfg.backoffFactor, k - 1);
    if w <= cfg.backoffCap then w else cfg.backoffCap
  }

  // ----- Steps -----

  function AfterFailure(cfg: Config, maxRetries: nat, k: Task, at: real): Task {
    if k.retries < maxRetries then
      Task(Pending, k.retries + 1, at + Wait(cfg, k.retries + 1), Nobody)
    else
      k.(status := Terminal)
  }

  /** What a step does to the record of its task. */
  function TaskStep(cfg: Config, maxRetries: nat, k: Task, e: Event): Task {
    match e
    case Spawned(_, w, _) => k.(status := Running, assignedTo := Worker(w))
    case SpawnFailed(_, _, failedAt) => AfterFailure(cfg, maxRetries, k, failedAt)
    case Exited(_, _, code, at) =>
      if code == 0 then k.(status := Done) else AfterFailure(cfg, maxRetries, k, at)
  }

  ghost predicate Enabled(cfg: Config, p: Plan, s: State, e: Event) {
    match e
    case Spawned(t, w, readAt) => Ready(p, s, t, readAt) && |s.active| < cfg.maxParallel && w !in s.active
    case SpawnFailed(t, readAt, _) => Ready(p, s, t, readAt) && |s.active| < cfg.maxParallel
    case Exited(t, w, _, _) => t in p.specs && t in s.tasks && w in s.active && s.active[w] == t
  }

  ghost function Apply(cfg: Config, p: Plan, s: State, e: Event): State
    requires Enabled(cfg, p, s, e)
  {
    var k := TaskStep(cfg, p.specs[e.t].maxRetries, s.tasks[e.t], e);
    State(
      s.tasks[e.t := k],
      match e {
        case Spawned(t, w, _) => s.active[w := t]
        case SpawnFailed(_, _, _) => s.active
        case Exited(_, w, _, _) => s.active - {w}
      },
      match e {
        case Spawned(t, w, _) => s.workerOf[t := w]
        case SpawnFailed(_, _, _) => s.workerOf
        case Exited(t, _, _, _) => s.workerOf - {t}
      },
      if k.status == Terminal then 1 else s.exitCode)
  }

  ghost predicate StepAt(cfg: Config, p: Plan, es: seq<Event>, states: seq<State>, i: nat)
    requires i < |es| && |states| == |es| + 1
  {
    Enabled(cfg, p, states[i], es[i]) && states[i + 1] == Apply(cfg, p, states[i], es[i])
  }

  /** The states before, between and after the steps of a history. */
  ghost predicate Trace(cfg: Config, p: Plan, es: seq<Event>, states: seq<State>) {
    && |states| == |es| + 1
    && states[0] == Init(p)
    && (forall i | 0 <= i < |es| :: StepAt(cfg, p, es, states, i))
  }

  /** The history `es` leads from the initial state to `s`. */
  ghost predicate Run(cfg: Config, p: Plan, es: seq<Event>, s: State) {
    exists states :: Trace(cfg, p, es, states) && states[|es|] == s
  }

  lemma FreshIsInit(s: State, p: Plan)
    requires s.tasks.Keys == p.specs.Keys && forall t | t in s.tasks :: s.tasks[t] == FRESH_TASK
    requires s.active == map[] && s.workerOf == map[] && s.exitCode == 0
    ensures s == Init(p)
  {
    assert s.tasks == Init(p).tasks;
  }

  lemma RunStart(cfg: Config, p: Plan)
    ensures Run(cfg, p, [], Init(p))
  {
    assert Trace(cfg, p, [], [Init(p)]);
  }

  lemma RunPush(cfg: Config, p: Plan, es: seq<Event>, s: State, e: Event)
    requires Run(cfg, p, es, s) && Enabled(cfg, p, s, e)
    ensures Run(cfg, p, es + [e], Apply(cfg, p, s, e))
  {
    var states :| Trace(cfg, p, es, states) && states[|es|] == s;
    var states' := states + [Apply(cfg, p, s, e)];
    forall i | 0 <= i < |es + [e]| ensures StepAt(cfg, p, es + [e], states', i) {
      if i < |es| {
        assert StepAt(cfg, p, es, states, i);
      }
    }
    assert Trace(cfg, p, es + [e], states');
  }

  lemma RunPop(cfg: Config, p: Plan, es: seq<Event>, s': State) returns (s: State)
    requires Run(cfg, p, es, s') && es != []
    ensures Run(cfg, p, es[..|es| - 1], s)
    ensures Enabled(cfg, p, s, es[|es| - 1]) && s' == Apply(cfg, p, s, es[|es| - 1])
  {
    var states :| Trace(cfg, p, es, states) && states[|es|] == s';
    var n := |es| - 1;
    s := states[n];
    assert StepAt(cfg, p, es, states, n);
    var before, until := es[..n], states[..n + 1];
    forall i | 0 <= i < n ensures StepAt(cfg, p, before, until, i) {
      assert StepAt(cfg, p, es, states, i);
    }
    assert Trace(cfg, p, before, until);
  }

  // ----- What every loop head keeps -----

  ghost predicate Paired(s: State, w: WorkerId, t: Id) {
    && w in s.active && s.active[w] == t
    && t in s.workerOf && s.workerOf[t] == w
  }

  /** Active handles and the task map are inverse bijections. */
  ghost predicate Bijection(s: State) {
    && (forall w | w in s.active :: Paired(s, w, s.active[w]))
    && (forall t | t in s.workerOf :: Paired(s, s.workerOf[t], t))
  }

  ghost predicate Tried(k: Task) {
    k.status != Pending || k.retries > 0
  }

  ghost predicate TaskOk(p: Plan, s: State, t: Id) {
    && t in p.specs && t in s.tasks
    && var k := s.tasks[t];
    && k.status in {Pending, Running, Done, Terminal}
    && k.retries <= p.specs[t].maxRetries
    && (k.status == Terminal ==> k.retries == p.specs[t].maxRetries)
    && (Tried(k) ==> DepsDone(p, s.tasks, t))
    && (k.status == Running <==> t in s.workerOf)
    && (k.status == Running ==> k.assignedTo == Worker(s.workerOf[t]))
  }

  ghost predicate SomeTerminal(s: State) {
    exists t | t in s.tasks :: s.tasks[t].status == Terminal
  }

  ghost predicate TasksOk(p: Plan, s: State) {
    forall t | t in s.tasks :: TaskOk(p, s, t)
  }

  ghost predicate Inv(cfg: Config, p: Plan, s: State) {
    && s.tasks.Keys == p.specs.Keys
    && Bijection(s)
    && s.workerOf.Keys <= s.tasks.Keys
    && |s.active| <= (if cfg.maxParallel < 0 then 0 else cfg.maxParallel)
    && TasksOk(p, s)
    && s.exitCode == (if SomeTerminal(s) then 1 else 0)
  }

  lemma InitInv(cfg: Config, p: Plan)
    ensures Inv(cfg, p, Init(p))
  {
  }

  /** `s'` differs from `s` at most in the record and the worker of `t`. */
  ghost predicate SameBut(s: State, s': State, t: Id) {
    && t in s.tasks
    && s'.tasks.Keys == s.tasks.Keys
    && (forall u | u in s.tasks && u != t :: s'.tasks[u] == s.tasks[u])
    && s'.workerOf - {t} == s.workerOf - {t}
  }

  /** A step touches one task only. */
  lemma StepFrame(cfg: Config, p: Plan, s: State, e: Event)
    requires Enabled(cfg, p, s, e)
    ensures SameBut(s, Apply(cfg, p, s, e), e.t)
  {
    OthersKept(s.workerOf, e.t, if e.Spawned? then e.w else 0);
  }

  lemma OthersKept<T>(m: map<Id, T>, t: Id, v: T)
    ensures m[t := v] - {t} == m - {t}
    ensures (m - {t}) - {t} == m - {t}
  {
  }

  /** Done tasks stay done when one unfinished task changes. */
  lemma DepsDoneKept(p: Plan, s: State, s': State, t: Id, u: Id)
    requires SameBut(s, s', t) && s.tasks[t].status != Done
    requires u in p.specs && DepsDone(p, s.tasks, u)
    ensures DepsDone(p, s'.tasks, u)
  {
  }

  lemma TasksOkAfter(p: Plan, s: State, s': State, t: Id)
    requires TasksOk(p, s) && SameBut(s, s', t) && s.tasks[t].status != Done
    requires TaskOk(p, s', t)
    ensures TasksOk(p, s')
  {
    forall u | u in s'.tasks ensures TaskOk(p, s', u) {
      if u != t {
        assert TaskOk(p, s, u);
        assert u in s.workerOf - {t} <==> u in s'.workerOf - {t};
        assert u in s.workerOf ==> (s.workerOf - {t})[u] == (s'.workerOf - {t})[u];
        if Tried(s.tasks[u]) {
          DepsDoneKept(p, s, s', t, u);
        }
      }
    }
  }

  lemma TerminalAfter(s: State, s': State, t: Id)
    requires SameBut(s, s', t) && s.tasks[t].status != Terminal
    ensures SomeTerminal(s') <==> SomeTerminal(s) || s'.tasks[t].status == Terminal
  {
    if SomeTerminal(s) {
      var u :| u in s.tasks && s.tasks[u].status == Terminal;
      assert s'.tasks[u].status == Terminal;
    }
  }

  lemma AssignKeepsBijection(s: State, s': State, t: Id, w: WorkerId)
    requires Bijection(s) && w !in s.active && t !in s.workerOf
    requires s'.active == s.active[w := t] && s'.workerOf == s.workerOf[t := w]
    ensures Bijection(s') && |s'.active| == |s.active| + 1
  {
    assert s'.active.Keys == s.active.Keys + {w};
    forall x | x in s'.active ensures Paired(s', x, s'.active[x]) {
      if x != w { assert Paired(s, x, s.active[x]); }
    }
    forall u | u in s'.workerOf ensures Paired(s', s'.workerOf[u], u) {
      if u != t { assert Paired(s, s.workerOf[u], u); }
    }
  }

  lemma ReleaseKeepsBijection(s: State, s': State, t: Id, w: WorkerId)
    requires Bijection(s) && w in s.active && s.active[w] == t
    requires s'.active == s.active - {w} && s'.workerOf == s.workerOf - {t}
    ensures Bijection(s') && |s'.active| == |s.active| - 1
  {
    assert Paired(s, w, t);
    assert s'.active.Keys == s.active.Keys - {w};
    forall x | x in s'.active ensures Paired(s', x, s'.active[x]) {
      assert Paired(s, x, s.active[x]);
    }
    forall u | u in s'.workerOf ensures Paired(s', s'.workerOf[u], u) {
      assert Paired(s, s.workerOf[u], u);
    }
  }

  lemma SpawnedInv(cfg: Config, p: Plan, s: State, t: Id, w: WorkerId, readAt: real)
    requires Inv(cfg, p, s) && Enabled(cfg, p, s, Spawned(t, w, readAt))
    ensures Inv(cfg, p, Apply(cfg, p, s, Spawned(t, w, readAt)))
  {
    var s' := Apply(cfg, p, s, Spawned(t, w, readAt));
    StepFrame(cfg, p, s, Spawned(t, w, readAt));
    AssignKeepsBijection(s, s', t, w);
    assert TaskOk(p, s', t) by {
      assert TaskOk(p, s, t);
      DepsDoneKept(p, s, s', t, t);
    }
    TasksOkAfter(p, s, s', t);
    TerminalAfter(s, s', t);
  }

  lemma FailTaskOk(cfg: Config, p: Plan, s: State, s': State, t: Id, at: real)
    requires TaskOk(p, s, t) && SameBut(s, s', t)
    requires s.tasks[t].status in {Pending, Running} && DepsDone(p, s.tasks, t)
    requires t !in s'.workerOf
    requires s'.tasks[t] == AfterFailure(cfg, p.specs[t].maxRetries, s.tasks[t], at)
    ensures TaskOk(p, s', t)
  {
    DepsDoneKept(p, s, s', t, t);
  }

  lemma SpawnFailedInv(cfg: Config, p: Plan, s: State, t: Id, readAt: real, at: real)
    requires Inv(cfg, p, s) && Enabled(cfg, p, s, SpawnFailed(t, readAt, at))
    ensures Inv(cfg, p, Apply(cfg, p, s, SpawnFailed(t, readAt, at)))
  {
    var s' := Apply(cfg, p, s, SpawnFailed(t, readAt, at));
    StepFrame(cfg, p, s, SpawnFailed(t, readAt, at));
    assert TaskOk(p, s, t);
    FailTaskOk(cfg, p, s, s', t, at);
    TasksOkAfter(p, s, s', t);
    TerminalAfter(s, s', t);
  }

  lemma ExitedInv(cfg: Config, p: Plan, s: State, t: Id, w: WorkerId, code: int, at: real)
    requires Inv(cfg, p, s) && Enabled(cfg, p, s, Exited(t, w, code, at))
    ensures Inv(cfg, p, Apply(cfg, p, s, Exited(t, w, code, at)))
  {
    var s' := Apply(cfg, p, s, Exited(t, w, code, at));
    StepFrame(cfg, p, s, Exited(t, w, code, at));
    assert TaskOk(p, s, t);
    assert Paired(s, w, t);
    ReleaseKeepsBijection(s, s', t, w);
    if code == 0 {
      DepsDoneKept(p, s, s', t, t);
    } else {
      FailTaskOk(cfg, p, s, s', t, at);
    }
    TasksOkAfter(p, s, s', t);
    TerminalAfter(s, s', t);
  }

  lemma StepInv(cfg: Config, p: Plan, s: State, e: Event)
    requires Inv(cfg, p, s) && Enabled(cfg, p, s, e)
    ensures Inv(cfg, p, Apply(cfg, p, s, e))
  {
    match e
    case Spawned(t, w, readAt) =>
      SpawnedInv(cfg, p, s, t, w, readAt);
    case SpawnFailed(t, readAt, failedAt) =>
      SpawnFailedInv(cfg, p, s, t, readAt, failedAt);
    case Exited(t, w, code, at) =>
      ExitedInv(cfg, p, s, t, w, code, at);
  }

  lemma {:induction false} RunInv(cfg: Config, p: Plan, es: seq<Event>, s: State)
    requires Run(cfg, p, es, s)
    ensures Inv(cfg, p, s)
  {
    if es == [] {
      InitInv(cfg, p);
    } else {
      var s0 := RunPop(cfg, p, es, s);
      RunInv(cfg, p, es[..|es| - 1], s0);
      StepInv(cfg, p, s0, es[|es| - 1]);
    }
  }

  /** The task of a step is running if the step is an exit and pending otherwise. */
  lemma ActorStatus(cfg: Config, p: Plan, s: State, e: Event)
    requires Inv(cfg, p, s) && Enabled(cfg, p, s, e)
    ensures e.t in p.specs && e.t in s.tasks && DepsDone(p, s.tasks, e.t)
    ensures s.tasks[e.t].retries <= p.specs[e.t].maxRetries
    ensures s.tasks[e.t].status == if e.Exited? then Running else Pending
  {
    assert TaskOk(p, s, e.t);
    if e.Exited? {
      assert Paired(s, e.w, e.t);
    }
  }
}
