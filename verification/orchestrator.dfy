/** The supervisor: an object that updates task records, active handles and the task map
    in place, and whose every method is a run of scheduler steps. */
module Orchestration {
  import opened DependencyGraph
  import opened Wrappers
  import opened Scheduler
  import opened ReadyQueue
  import opened StateDocument
  import opened SupervisorRuns
  import RunHistory
  import ScheduleIndependence
  import Ulid

  class TaskRecord {
    const id: Id
    const spec: Spec
    var status: Status
    var retries: nat
    var retryAt: real
    var assignedTo: Assignee

    constructor (id: Id, spec: Spec, status: Status, retries: nat, assignedTo: Assignee)
      ensures this.id == id && this.spec == spec && View() == Task(status, retries, 0.0, assignedTo)
    {
      this.id, this.spec, this.status, this.retries, this.assignedTo := id, spec, status, retries, assignedTo;
      retryAt := 0.0;
    }

    ghost function View(): Task
      reads this
    {
      Task(status, retries, retryAt, assignedTo)
    }
  }

  /** The workers were started under growing ids that the generator issued. */
  ghost predicate FromGenerator(spawned: seq<WorkerId>, issued: seq<Ulid.Value>) {
    && (forall i, j | 0 <= i < j < |spawned| :: spawned[i] < spawned[j])
    && forall w | w in spawned :: w in issued
  }

  predicate IsNewest(w: WorkerId, spawned: seq<WorkerId>) {
    forall v | v in spawned :: v < w
  }

  class Orchestrator {
    const cfg: Config
    const plan: Plan
    /** Insertion order of the task table. */
    const order: seq<Id>
    const tasks: map<Id, TaskRecord>
    const ids: Ulid.Generator
    var activeHandles: map<WorkerId, Id>
    var taskWorkerMap: map<Id, WorkerId>
    var exitCode: int
    var runStatus: RunStatus
    ghost var state: State
    /** Every step taken so far. */
    ghost var history: seq<Event>

    /** What the constructor settles for good. */
    ghost predicate Built() {
      && order == plan.order
      && tasks.Keys == plan.specs.Keys
      && (forall t | t in tasks :: tasks[t].id == t && tasks[t].spec == plan.specs[t])
    }

    /** The records and maps hold the state `s`. */
    ghost predicate Holds(s: State)
      reads `activeHandles, `taskWorkerMap, `exitCode, tasks.Values
    {
      && s.tasks.Keys == tasks.Keys
      && (forall t | t in tasks :: s.tasks[t] == tasks[t].View())
      && s.active == activeHandles
      && s.workerOf == taskWorkerMap
      && s.exitCode == exitCode
    }

    /** Every worker ever started has an id from the generator, larger than those before it. */
    ghost predicate IdsOk()
      reads `history, ids
    {
      ids.Valid() && FromGenerator(RunHistory.SpawnedIds(history), ids.issued)
    }

    /** The object holds the state that replaying its history gives. */
    ghost predicate Valid()
      reads this, tasks.Values, ids
    {
      Holds(state) && IdsOk() && Run(cfg, plan, history, state)
    }

    /** The records may start with any status; the runs of this model are those that start
        with fresh records only. */
    constructor (cfg: Config, order: seq<Id>, tasks: map<Id, TaskRecord>, ids: Ulid.Generator, plan: Plan)
      requires WellFormed(plan) && order == plan.order && tasks.Keys == plan.specs.Keys
      requires forall t | t in tasks :: tasks[t].id == t && tasks[t].spec == plan.specs[t]
      requires ids.Valid()
      ensures Built() && WellFormed(plan) && Holds(state) && IdsOk() && history == [] && runStatus == Initializing
      ensures state.active == map[] && state.workerOf == map[] && state.exitCode == 0
      ensures (forall t | t in tasks :: tasks[t].View() == FRESH_TASK) ==> Valid() && state == Scheduler.Init(plan)
      ensures this.cfg == cfg && this.plan == plan && this.ids == ids && this.tasks == tasks
    {
      this.cfg, this.order, this.tasks, this.ids, this.plan := cfg, order, tasks, ids, plan;
      activeHandles, taskWorkerMap := map[], map[];
      exitCode, runStatus := 0, Initializing;
      state, history := State(map t | t in tasks :: tasks[t].View(), map[], map[], 0), [];
      new;
      if forall t | t in tasks :: tasks[t].View() == FRESH_TASK {
        StartsRun();
      }
    }

    lemma StartsRun()
      requires Built() && Holds(state) && IdsOk() && history == []
      requires state.active == map[] && state.workerOf == map[] && state.exitCode == 0
      requires forall t | t in tasks :: tasks[t].View() == FRESH_TASK
      ensures Valid() && state == Scheduler.Init(plan)
    {
      FreshIsInit(state, plan);
      RunStart(cfg, plan);
    }

    /** A failed task with retries left is pending again, assigned to no one, one retry later;
        the first failure delays it by the base or the cap. Without retries left it is terminal,
        which sets the exit code. */
    ghost predicate FailedInto(task: TaskRecord, was: Task, now: real)
      reads task, `exitCode
    {
      if was.retries < task.spec.maxRetries then
        && task.status == Pending && task.retries == was.retries + 1 && task.assignedTo == Nobody
        && (was.retries == 0 ==>
              task.retryAt == now + if cfg.backoffBase <= cfg.backoffCap then cfg.backoffBase else cfg.backoffCap)
      else
        task.status == Terminal && task.retries == was.retries && task.assignedTo == was.assignedTo && exitCode == 1
    }

    /** The task goes back to pending with a later retry time, or becomes terminal. */
    method MaybeRetryTask(task: TaskRecord, now: real)
      modifies task, this`exitCode
      ensures task.View() == AfterFailure(cfg, task.spec.maxRetries, old(task.View()), now)
      ensures exitCode == if task.status == Terminal then 1 else old(exitCode)
      ensures FailedInto(task, old(task.View()), now)
    {
      RunHistory.WaitsAre(cfg, 1);
      if task.retries < task.spec.maxRetries {
        task.retries := task.retries + 1;
        task.status := Pending;
        task.assignedTo := Nobody;
        task.retryAt := now + Wait(cfg, task.retries);
      } else {
        task.status := Terminal;
        exitCode := 1;
      }
    }

    /** The record of a task whose worker has exited. */
    method SettleTask(task: TaskRecord, code: int, now: real)
      modifies task, this`exitCode
      ensures task.View() ==
        if code == 0 then old(task.View()).(status := Done)
        else AfterFailure(cfg, task.spec.maxRetries, old(task.View()), now)
      ensures code == 0 ==> task.status == Done && exitCode == old(exitCode)
      ensures code != 0 ==> FailedInto(task, old(task.View()), now)
      ensures exitCode == if task.status == Terminal then 1 else old(exitCode)
    {
      if code == 0 {
        task.status := Done;
      } else {
        task.status := Failed;
        MaybeRetryTask(task, now);
      }
    }

    /** The ready tasks in plan order. */
    method GetReadyTasks(now: real) returns (ready: seq<Id>)
      requires Built() && Elements(order) == tasks.Keys && Holds(state)
      ensures ready == ReadyAmong(plan, state, now, order)
    {
      var doneIds := set t | t in tasks && tasks[t].status == Done;
      ready := [];
      for i := 0 to |order|
        invariant ready == ReadyAmong(plan, state, now, order[..i])
      {
        var t := order[i];
        assert t in Elements(order);
        var task := tasks[t];
        var depsDone := forall dep | dep in task.spec.dependsOn :: dep in doneIds;
        assert order[..i + 1][..i] == order[..i];
        if task.status == Pending && t !in taskWorkerMap && depsDone && now >= task.retryAt {
          ready := ready + [t];
        }
      }
      assert order[..|order|] == order;
    }

    method NewWorkerId(candidate: Ulid.Value) returns (id: Result<WorkerId, ()>)
      requires IdsOk()
      modifies ids
      ensures IdsOk()
      ensures id.Ok? <==> Ulid.Next(old(ids.last), candidate).Some?
      ensures id.Ok? ==> Some(id.value) == ids.last && id.value in ids.issued
      ensures id.Ok? ==> IsNewest(id.value, RunHistory.SpawnedIds(history))
    {
      var printed := ids.New(candidate);
      id := if printed.Ok? then Ok(ids.last.value) else Err(());
    }

    /** Changing one record, the maps and the exit code moves the object from `s` to `s'`. */
    lemma HoldsAfter(s: State, s': State, t: Id)
      requires t in tasks && s.tasks.Keys == tasks.Keys
      requires forall u | u in tasks && u != t :: s.tasks[u] == tasks[u].View()
      requires s'.tasks == s.tasks[t := tasks[t].View()]
      requires s'.active == activeHandles && s'.workerOf == taskWorkerMap && s'.exitCode == exitCode
      ensures Holds(s')
    {
    }

    /** Append a step whose effect the fields already hold. */
    ghost method Record(e: Event)
      requires IdsOk() && Run(cfg, plan, history, state) && Enabled(cfg, plan, state, e)
      requires e.Spawned? ==> e.w in ids.issued && IsNewest(e.w, RunHistory.SpawnedIds(history))
      requires Holds(Apply(cfg, plan, state, e))
      modifies this`state, this`history
      ensures Valid() && history == old(history) + [e] && SameBut(old(state), state, e.t)
    {
      RunPush(cfg, plan, history, state, e);
      StepFrame(cfg, plan, state, e);
      StaysFromGenerator(history, e, ids.issued);
      state, history := Apply(cfg, plan, state, e), history + [e];
    }

    /** The bookkeeping of a successful spawn. */
    method AssignWorker(t: Id, w: WorkerId, ghost readAt: real)
      requires Built() && Valid() && t in tasks
      requires w in ids.issued && IsNewest(w, RunHistory.SpawnedIds(history))
      requires Enabled(cfg, plan, state, Spawned(t, w, readAt))
      modifies this, tasks[t]
      ensures Valid() && SameBut(old(state), state, t)
      ensures history == old(history) + [Spawned(t, w, readAt)]
      ensures tasks[t].status == Running && tasks[t].assignedTo == Worker(w)
      ensures activeHandles == old(activeHandles)[w := t] && taskWorkerMap == old(taskWorkerMap)[t := w]
      ensures exitCode == old(exitCode)
    {
      ghost var s' := Apply(cfg, plan, state, Spawned(t, w, readAt));
      var task := tasks[t];
      task.status := Running;
      task.assignedTo := Worker(w);
      activeHandles := activeHandles[w := t];
      taskWorkerMap := taskWorkerMap[t := w];
      assert state == old(state) && history == old(history);
      HoldsAfter(state, s', t);
      Record(Spawned(t, w, readAt));
    }

    /** The bookkeeping of a failed spawn. */
    method FailSpawn(t: Id, ghost readAt: real, failedAt: real)
      requires Built() && Valid() && t in tasks
      requires Enabled(cfg, plan, state, SpawnFailed(t, readAt, failedAt))
      modifies this, tasks[t]
      ensures Valid() && SameBut(old(state), state, t)
      ensures history == old(history) + [SpawnFailed(t, readAt, failedAt)]
      ensures FailedInto(tasks[t], old(tasks[t].View()), failedAt)
      ensures unchanged(`activeHandles, `taskWorkerMap)
    {
      ghost var s' := Apply(cfg, plan, state, SpawnFailed(t, readAt, failedAt));
      var task := tasks[t];
      task.status := Failed;
      MaybeRetryTask(task, failedAt);
      assert state == old(state) && history == old(history);
      HoldsAfter(state, s', t);
      Record(SpawnFailed(t, readAt, failedAt));
    }

    /** The bookkeeping of a worker's exit. */
    method ReleaseWorker(t: Id, w: WorkerId, code: int, now: real)
      requires Built() && Valid() && t in tasks
      requires Enabled(cfg, plan, state, Exited(t, w, code, now))
      modifies this, tasks[t]
      ensures Valid() && SameBut(old(state), state, t)
      ensures history == old(history) + [Exited(t, w, code, now)]
      ensures activeHandles == old(activeHandles) - {w} && taskWorkerMap == old(taskWorkerMap) - {t}
      ensures code == 0 ==> tasks[t].status == Done && exitCode == old(exitCode)
      ensures code != 0 ==> FailedInto(tasks[t], old(tasks[t].View()), now)
    {
      ghost var s' := Apply(cfg, plan, state, Exited(t, w, code, now));
      activeHandles := activeHandles - {w};
      taskWorkerMap := taskWorkerMap - {t};
      SettleTask(tasks[t], code, now);
      assert state == old(state) && history == old(history);
      HoldsAfter(state, s', t);
      Record(Exited(t, w, code, now));
    }

    /** One spawn attempt of a ready task. It raises only if no worker id is left, or for an
        exception that is not caught. */
    method TrySpawn(t: Id, now: real, input: SpawnInput) returns (id: Result<WorkerId, ()>)
      requires Built() && Valid() && Ready(plan, state, t, now) && |activeHandles| < cfg.maxParallel
      modifies this, tasks[t], ids
      ensures Valid()
      ensures id.Ok? <==> Ulid.Next(old(ids.last), input.candidate).Some? && !input.outcome.Propagates?
      ensures id.Err? ==> history == old(history)
      ensures id.Ok? ==> SameBut(old(state), state, t)
      ensures id.Ok? ==> history == old(history) + [
          if input.outcome.Starts? then Spawned(t, id.value, now) else SpawnFailed(t, now, input.outcome.at)]
    {
      id := NewWorkerId(input.candidate);
      if id.Ok? {
        match input.outcome
        case Starts =>
          RunHistory.ActiveWereSpawned(cfg, plan, history, state);
          AssignWorker(t, id.value, now);
        case Fails(at) =>
          FailSpawn(t, now, at);
        case Propagates =>
          return Err(());
      }
    }

    /** The loop of a spawn pass over a queue of ready tasks. */
    method AttemptInTurn(queue: seq<Id>, now: real, env: Id -> SpawnInput) returns (raised: bool, ghost attempted: seq<Id>)
      requires Built() && Valid() && Distinct(queue)
      requires forall t | t in queue :: Ready(plan, state, t, now)
      modifies this, tasks.Values, ids
      ensures Valid() && attempted <= queue
      ensures old(history) <= history && AttemptedFrom(history, |old(history)|, attempted, now, env)
      ensures !raised ==> |activeHandles| >= cfg.maxParallel || attempted == queue
    {
      attempted := [];
      raised := false;
      var i := 0;
      while i < |queue| && |activeHandles| < cfg.maxParallel
        invariant Valid() && i <= |queue| && attempted == queue[..i]
        invariant old(history) <= history && AttemptedFrom(history, |old(history)|, attempted, now, env)
        invariant forall k | i <= k < |queue| :: Ready(plan, state, queue[k], now)
      {
        ghost var s, h := state, history;
        var id := TrySpawn(queue[i], now, env(queue[i]));
        if id.Err? {
          return true, attempted;
        }
        AttemptsGrow(h, |old(history)|, attempted, now, env, history[|h|], queue[i]);
        ReadyOthersKept(plan, s, state, now, queue, i);
        TakeNext(queue, i);
        attempted := attempted + [queue[i]];
        i := i + 1;
      }
    }

    /** One spawn pass: it attempts a prefix of the queue, and stops early only at the
        parallel limit, whether or not spawns fail on the way. */
    method SpawnReadyWorkers(now: real, env: Id -> SpawnInput) returns (raised: bool, ghost attempted: seq<Id>)
      requires Built() && WellFormed(plan) && Valid()
      modifies this, tasks.Values, ids
      ensures Valid()
      ensures attempted <= Queue(plan, old(state), now)
      ensures old(history) <= history && AttemptedFrom(history, |old(history)|, attempted, now, env)
      ensures !raised ==> |activeHandles| >= cfg.maxParallel || attempted == Queue(plan, old(state), now)
      ensures forall a, u | a in attempted && u !in attempted && Ready(plan, old(state), u, now) ::
        && a in plan.specs && u in plan.specs
        && (plan.specs[a].priority > plan.specs[u].priority
            || (plan.specs[a].priority == plan.specs[u].priority && IndexOf(plan.order, a) < IndexOf(plan.order, u)))
    {
      ghost var s := state;
      if |activeHandles| >= cfg.maxParallel {
        return false, [];
      }
      var ready := GetReadyTasks(now);
      QueueIs(plan, state, now);
      raised, attempted := AttemptInTurn(SortByPriority(plan, ready), now, env);
      PrefixGoesFirst(plan, s, now, attempted);
    }

    /** A worker that has exited: its task is done, pending again or terminal. */
    method ProcessWorkerExit(w: WorkerId, code: int, now: real)
      requires Built() && Valid()
      modifies this, tasks.Values
      ensures Valid()
      ensures activeHandles == old(activeHandles) - {w}
      ensures w !in old(activeHandles) ==> history == old(history)
      ensures w in old(activeHandles) ==> history == old(history) + [Exited(old(activeHandles[w]), w, code, now)]
    {
      if w !in activeHandles {
        return;
      }
      var t := activeHandles[w];
      ExitEnabled(cfg, plan, history, state, w, code, now);
      ReleaseWorker(t, w, code, now);
    }

    method AllTasksTerminal() returns (b: bool)
      requires Holds(state)
      ensures b <==> ScheduleIndependence.AllTerminal(state)
    {
      b := forall t | t in tasks :: tasks[t].status in {Done, Terminal};
    }

    /** Record the final status of the run. */
    method Finalize()
      requires WellFormed(plan) && Valid()
      modifies this`runStatus
      ensures Valid()
      ensures runStatus == if ScheduleIndependence.AllDone(state) then Completed else RunFailed
      ensures ScheduleIndependence.AllTerminal(state) ==> ReportsOutcome(plan, history, runStatus, exitCode)
    {
      var allDone := forall t | t in tasks :: tasks[t].status == Done;
      runStatus := if allDone then Completed else RunFailed;
      assert allDone <==> ScheduleIndependence.AllDone(state);
      if ScheduleIndependence.AllTerminal(state) {
        OutcomeReported(cfg, plan, history, state, runStatus);
      }
    }

    /** The exits found by polling, processed in the order of polling: the handles are held in
        the order of the spawns, and later workers have larger ids. */
    method ProcessExits(exits: WorkerId -> Option<Exit>)
      requires Built() && Valid()
      modifies this, tasks.Values
      ensures Valid() && old(history) <= history
      ensures ExitsFrom(history, |old(history)|, exits)
      ensures |activeHandles| + |history| == |old(activeHandles)| + |old(history)|
      ensures forall w | w in activeHandles :: exits(w).None?
    {
      var completed := set w | w in activeHandles && exits(w).Some?;
      while completed != {}
        invariant Valid() && old(history) <= history
        invariant ExitsFrom(history, |old(history)|, exits)
        invariant |activeHandles| + |history| == |old(activeHandles)| + |old(history)|
        invariant forall w | w in activeHandles :: exits(w).Some? <==> w in completed
        invariant forall w | w in completed :: w in activeHandles
        invariant ExitsBefore(history, |old(history)|, completed)
        decreases completed
      {
        var w := Least(completed);
        ghost var before := history;
        OneLess(activeHandles, w);
        ProcessWorkerExit(w, exits(w).value.code, exits(w).value.at);
        ExitsGrow(before, |old(history)|, exits, history[|before|], completed);
        completed := completed - {w};
      }
    }

    /** One iteration after the exit test: a spawn pass, then the exits found by polling. */
    method RunIteration(input: LoopInput) returns (raised: bool)
      requires Built() && WellFormed(plan) && Valid()
      modifies this, tasks.Values, ids
      ensures Valid() && old(history) <= history
      ensures !raised ==> Iteration(cfg, plan, old(history), history, input)
    {
      ghost var es, s := history, state;
      ghost var attempted;
      raised, attempted := SpawnReadyWorkers(input.now, input.env);
      if raised || input.pollRaises {
        return true;
      }
      ghost var mid := history;
      ProcessExits(input.exits);
      PrefixKept(mid, history, |es|, attempted, input.now, input.env);
      assert IterationOf(cfg, plan, es, s, attempted, history, state, input);
    }

    /** The loop, for as many iterations as the surroundings answer: it goes through all of
        them unless one raises or the exit test is met. */
    method Iterate(inputs: seq<LoopInput>) returns (finished: bool, raised: bool, n: nat, ghost heads: seq<seq<Event>>)
      requires Built() && WellFormed(plan) && Valid()
      modifies this, tasks.Values, ids
      ensures Valid() && old(history) <= history && n <= |inputs|
      ensures !raised ==> Iterations(cfg, plan, old(history), heads, history, inputs[..n])
      ensures finished <==> !raised && ScheduleIndependence.AllTerminal(state)
      ensures !raised && !finished ==> n == |inputs|
    {
      raised, n, heads := false, 0, [history];
      assert inputs[..0] == [];
      finished := AllTasksTerminal();
      while n < |inputs| && !finished && !raised
        invariant Valid() && old(history) <= history && n <= |inputs|
        invariant !raised ==> Iterations(cfg, plan, old(history), heads, history, inputs[..n])
        invariant finished <==> !raised && ScheduleIndependence.AllTerminal(state)
      {
        raised, finished, heads := IterateOnce(inputs, n, old(history), heads);
        n := n + 1;
      }
    }

    /** From one loop head, where the exit test fails, to the next. */
    method IterateOnce(inputs: seq<LoopInput>, i: nat, ghost start: seq<Event>, ghost heads: seq<seq<Event>>)
      returns (raised: bool, finished: bool, ghost heads': seq<seq<Event>>)
      requires Built() && WellFormed(plan) && Valid() && !ScheduleIndependence.AllTerminal(state)
      requires i < |inputs| && Iterations(cfg, plan, start, heads, history, inputs[..i])
      modifies this, tasks.Values, ids
      ensures Valid() && old(history) <= history
      ensures !raised ==> Iterations(cfg, plan, start, heads', history, inputs[..i + 1])
      ensures finished <==> !raised && ScheduleIndependence.AllTerminal(state)
    {
      ghost var mid, s := history, state;
      finished, heads' := false, heads;
      raised := RunIteration(inputs[i]);
      if !raised {
        IterationsPush(cfg, plan, start, heads, mid, s, history, inputs, i);
        heads' := heads + [history];
        finished := AllTasksTerminal();
      }
    }

    /** When the loop finishes, the run status and the exit code are what the outcomes of the
        attempts alone determine. Given enough prompt iterations, it finishes exactly if every
        task that another depends on has an attempt that succeeds. */
    method SupervisorLoop(inputs: seq<LoopInput>)
      returns (finished: bool, raised: bool, n: nat, ghost heads: seq<seq<Event>>)
      requires Built() && WellFormed(plan) && Valid()
      modifies this, tasks.Values, ids
      ensures Valid() && old(history) <= history && n <= |inputs|
      ensures !raised ==> Iterations(cfg, plan, old(history), heads, history, inputs[..n])
      ensures finished <==> !raised && ScheduleIndependence.AllTerminal(state)
      ensures !raised && !finished ==> n == |inputs|
      ensures finished ==> ReportsOutcome(plan, history, runStatus, exitCode)
      ensures !raised && EnoughPrompt(cfg, plan, heads, inputs, n) ==> FinishesExactly(plan, history, finished)
    {
      finished, raised, n, heads := Iterate(inputs);
      if finished {
        Finalize();
      }
      if !raised && EnoughPrompt(cfg, plan, heads, inputs, n) {
        LoopFinishesExactly(cfg, plan, heads, inputs, n, state);
      }
    }
  }

  predicate IsLeast(ids: set<WorkerId>, w: WorkerId) {
    w in ids && forall v | v in ids :: w <= v
  }

  lemma {:induction false} LeastExists(ids: set<WorkerId>)
    requires ids != {}
    ensures exists w :: IsLeast(ids, w)
  {
    var w :| w in ids;
    if forall v | v in ids :: w <= v {
      assert IsLeast(ids, w);
    } else {
      var smaller :| smaller in ids && smaller < w;
      var below := set v | v in ids && v < w;
      assert smaller in below && w !in below;
      LeastExists(below);
      var least :| IsLeast(below, least);
      assert least < w && forall v | v in ids :: v in below || w <= v;
      assert IsLeast(ids, least);
    }
  }

  method Least(ids: set<WorkerId>) returns (w: WorkerId)
    requires ids != {}
    ensures IsLeast(ids, w)
  {
    LeastExists(ids);
    w :| w in ids && IsLeast(ids, w);
  }

  lemma OneLess(active: map<WorkerId, Id>, w: WorkerId)
    requires w in active
    ensures |active - {w}| == |active| - 1
  {
    assert (active - {w}).Keys == active.Keys - {w};
  }

  lemma StaysFromGenerator(es: seq<Event>, e: Event, issued: seq<Ulid.Value>)
    requires FromGenerator(RunHistory.SpawnedIds(es), issued)
    requires e.Spawned? ==> e.w in issued && IsNewest(e.w, RunHistory.SpawnedIds(es))
    ensures FromGenerator(RunHistory.SpawnedIds(es + [e]), issued)
  {
    assert (es + [e])[..|es|] == es;
    var spawned := RunHistory.SpawnedIds(es);
    if e.Spawned? {
      assert forall i | 0 <= i < |spawned| :: spawned[i] in spawned;
    }
  }

  lemma TakeNext(queue: seq<Id>, i: nat)
    requires i < |queue|
    ensures queue[..i] + [queue[i]] == queue[..i + 1]
  {
  }

  lemma ExitEnabled(cfg: Config, p: Plan, es: seq<Event>, s: State, w: WorkerId, code: int, now: real)
    requires Run(cfg, p, es, s) && w in s.active
    ensures Enabled(cfg, p, s, Exited(s.active[w], w, code, now))
  {
    RunInv(cfg, p, es, s);
    assert Paired(s, w, s.active[w]);
  }

  /** An attempt of one queued task leaves the others ready. */
  lemma ReadyOthersKept(p: Plan, s: State, s': State, now: real, queue: seq<Id>, i: nat)
    requires i < |queue| && Distinct(queue) && SameBut(s, s', queue[i])
    requires forall k | i <= k < |queue| :: Ready(p, s, queue[k], now)
    ensures forall k | i < k < |queue| :: Ready(p, s', queue[k], now)
  {
    assert Ready(p, s, queue[i], now);
    forall k | i < k < |queue| ensures Ready(p, s', queue[k], now) {
      assert Ready(p, s, queue[k], now);
      DepsDoneKept(p, s, s', queue[i], queue[k]);
      assert queue[k] !in s.workerOf - {queue[i]};
    }
  }
}
