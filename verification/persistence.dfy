/** What state.json holds after a run whose store updates all commit. A failed spawn is
    not written, so a persisted record can lag behind the supervisor's. */
module Persistence {
  import opened DependencyGraph
  import opened Scheduler
  import opened RunHistory
  import opened StateDocument
  import opened Wrappers

  // ----- The document along a run -----

  /** The record of `t`, from the steps of `t` alone. */
  function TaskAfter(cfg: Config, p: Plan, es: seq<Event>, t: Id): Task
    requires t in p.specs
  {
    if es == [] then FRESH_TASK
    else
      var k := TaskAfter(cfg, p, es[..|es| - 1], t);
      if es[|es| - 1].t == t then TaskStep(cfg, p.specs[t].maxRetries, k, es[|es| - 1]) else k
  }

  function TaskDocOf(p: Plan, t: Id, k: Task): TaskDoc
    requires t in p.specs
  {
    TaskDoc(t, p.specs[t], k.status, k.retries, k.assignedTo)
  }

  function InitialDoc(p: Plan): Doc
    requires forall t | t in p.order :: t in p.specs
  {
    Doc(0, Initializing, 0.0, [],
        seq(|p.order|, i requires 0 <= i < |p.order| => TaskDocOf(p, p.order[i], FRESH_TASK)))
  }

  /** The updates of one step, in order, with the cost total read when a worker exits. */
  function UpdatesOf(p: Plan, e: Event, k: Task, total: real): seq<Update>
    requires e.t in p.specs
  {
    match e
    case Spawned(t, w, _) =>
      [WorkerUpdate(WorkerDoc(w, t, WorkerRunning)), TaskUpdate(TaskDocOf(p, t, k))]
    case SpawnFailed(_, _, _) =>
      []
    case Exited(t, w, code, _) =>
      [TaskUpdate(TaskDocOf(p, t, k)),
       WorkerUpdate(WorkerDoc(w, t, if code == 0 then WorkerDone else WorkerFailed)),
       CostUpdate(total)]
  }

  ghost predicate KnownTasks(p: Plan, es: seq<Event>) {
    (forall t | t in p.order :: t in p.specs) && forall e | e in es :: e.t in p.specs
  }

  /** state.json after the history `es`, before the run is finalised; `total(i)` is the cost
      read at step `i`. */
  ghost function DocDuring(cfg: Config, p: Plan, total: nat -> real, es: seq<Event>): Doc
    requires KnownTasks(p, es)
  {
    if es == [] then AfterUpdate(InitialDoc(p), StatusUpdate(Active))
    else
      var n := |es| - 1;
      assert forall e | e in es[..n] :: e in es;
      AfterUpdates(DocDuring(cfg, p, total, es[..n]), UpdatesOf(p, es[n], TaskAfter(cfg, p, es, es[n].t), total(n)))
  }

  ghost function UpdatesDuring(cfg: Config, p: Plan, total: nat -> real, es: seq<Event>): seq<Update>
    requires KnownTasks(p, es)
  {
    if es == [] then [StatusUpdate(Active)]
    else
      var n := |es| - 1;
      assert forall e | e in es[..n] :: e in es;
      UpdatesDuring(cfg, p, total, es[..n]) + UpdatesOf(p, es[n], TaskAfter(cfg, p, es, es[n].t), total(n))
  }

  lemma {:induction false} DocDuringIs(cfg: Config, p: Plan, total: nat -> real, es: seq<Event>)
    requires KnownTasks(p, es)
    ensures DocDuring(cfg, p, total, es) == AfterUpdates(InitialDoc(p), UpdatesDuring(cfg, p, total, es))
  {
    if es == [] {
      FirstUpdate(InitialDoc(p), StatusUpdate(Active), []);
      assert [StatusUpdate(Active)] + [] == [StatusUpdate(Active)];
    } else {
      var n := |es| - 1;
      assert es[n] in es && forall e | e in es[..n] :: e in es;
      DocDuringIs(cfg, p, total, es[..n]);
      UpdatesAppend(InitialDoc(p), UpdatesDuring(cfg, p, total, es[..n]),
                      UpdatesOf(p, es[n], TaskAfter(cfg, p, es, es[n].t), total(n)));
    }
  }

  lemma {:induction false} UpdatesDuringOk(cfg: Config, p: Plan, total: nat -> real, es: seq<Event>)
    requires KnownTasks(p, es) && PlanInRange(p) && forall i :: total(i) >= 0.0
    ensures forall u | u in UpdatesDuring(cfg, p, total, es) :: UpdateOk(u)
  {
    if es != [] {
      assert es[|es| - 1] in es && forall e | e in es[..|es| - 1] :: e in es;
      UpdatesDuringOk(cfg, p, total, es[..|es| - 1]);
    }
  }

  lemma {:induction false} EventsKnown(cfg: Config, p: Plan, es: seq<Event>, s: State)
    requires Run(cfg, p, es, s)
    ensures forall e | e in es :: e.t in p.specs
  {
    if es != [] {
      var s0 := RunPop(cfg, p, es, s);
      EventsKnown(cfg, p, es[..|es| - 1], s0);
      assert es == es[..|es| - 1] + [es[|es| - 1]];
    }
  }

  lemma {:induction false} TaskAfterIs(cfg: Config, p: Plan, es: seq<Event>, s: State, t: Id)
    requires Run(cfg, p, es, s) && t in p.specs
    ensures t in s.tasks && s.tasks[t] == TaskAfter(cfg, p, es, t)
  {
    if es != [] {
      var s0 := RunPop(cfg, p, es, s);
      TaskAfterIs(cfg, p, es[..|es| - 1], s0, t);
    }
  }

  lemma RunKnown(cfg: Config, p: Plan, es: seq<Event>, s: State)
    requires WellFormed(p) && Run(cfg, p, es, s)
    ensures KnownTasks(p, es)
    ensures forall t | t in p.specs :: t in s.tasks && s.tasks[t] == TaskAfter(cfg, p, es, t)
  {
    OrderKnown(p);
    EventsKnown(cfg, p, es, s);
    forall t | t in p.specs ensures t in s.tasks && s.tasks[t] == TaskAfter(cfg, p, es, t) {
      TaskAfterIs(cfg, p, es, s, t);
    }
  }

  // ----- Committing the updates of one step -----

  lemma AfterSpawnUpdates(d: Doc, w: WorkerDoc, t: TaskDoc)
    ensures AfterUpdates(d, [WorkerUpdate(w), TaskUpdate(t)]) ==
      d.(version := d.version + 2, workers := PutWorker(d.workers, w), tasks := PutTask(d.tasks, t))
  {
    FirstUpdate(d, WorkerUpdate(w), [TaskUpdate(t)]);
    FirstUpdate(AfterUpdate(d, WorkerUpdate(w)), TaskUpdate(t), []);
    assert [WorkerUpdate(w)] + [TaskUpdate(t)] == [WorkerUpdate(w), TaskUpdate(t)] && [TaskUpdate(t)] + [] == [TaskUpdate(t)];
  }

  lemma AfterExitUpdates(d: Doc, t: TaskDoc, w: WorkerDoc, total: real)
    ensures AfterUpdates(d, [TaskUpdate(t), WorkerUpdate(w), CostUpdate(total)]) ==
      d.(version := d.version + 3, costUsd := total, workers := PutWorker(d.workers, w), tasks := PutTask(d.tasks, t))
  {
    var d1 := AfterUpdate(d, TaskUpdate(t));
    FirstUpdate(d, TaskUpdate(t), [WorkerUpdate(w), CostUpdate(total)]);
    FirstUpdate(d1, WorkerUpdate(w), [CostUpdate(total)]);
    FirstUpdate(AfterUpdate(d1, WorkerUpdate(w)), CostUpdate(total), []);
  }

  /** The task and worker lists after the updates of the last step. */
  lemma DocStep(cfg: Config, p: Plan, total: nat -> real, es: seq<Event>)
    requires es != [] && KnownTasks(p, es)
    ensures KnownTasks(p, es[..|es| - 1]) && es[|es| - 1].t in p.specs
    ensures var e := es[|es| - 1]; var d, d' := DocDuring(cfg, p, total, es[..|es| - 1]), DocDuring(cfg, p, total, es);
      && d'.tasks == (if e.SpawnFailed? then d.tasks else PutTask(d.tasks, TaskDocOf(p, e.t, TaskAfter(cfg, p, es, e.t))))
      && d'.workers == match e {
           case Spawned(t, w, _) => PutWorker(d.workers, WorkerDoc(w, t, WorkerRunning))
           case SpawnFailed(_, _, _) => d.workers
           case Exited(t, w, code, _) => PutWorker(d.workers, WorkerDoc(w, t, if code == 0 then WorkerDone else WorkerFailed))
         }
  {
    var n := |es| - 1;
    var e := es[n];
    assert e in es;
    var d, k := DocDuring(cfg, p, total, es[..n]), TaskAfter(cfg, p, es, e.t);
    match e {
      case Spawned(t, w, _) =>
        AfterSpawnUpdates(d, WorkerDoc(w, t, WorkerRunning), TaskDocOf(p, t, k));
      case SpawnFailed(_, _, _) =>
      case Exited(t, w, code, _) =>
        AfterExitUpdates(d, TaskDocOf(p, t, k), WorkerDoc(w, t, if code == 0 then WorkerDone else WorkerFailed), total(n));
    }
  }

  predicate PlanInRange(p: Plan) {
    forall t | t in p.specs :: 0 <= p.specs[t].priority <= 9 && p.specs[t].maxRetries <= 10
  }

  function UpdateCount(es: seq<Event>): nat {
    if es == [] then 1
    else
      UpdateCount(es[..|es| - 1]) +
      match es[|es| - 1]
      case Spawned(_, _, _) => 2
      case SpawnFailed(_, _, _) => 0
      case Exited(_, _, _, _) => 3
  }

  /** From a plan within the schema's ranges and with non-negative costs, no update of a run
      is ever rejected by the schema, and the version counts the updates. */
  lemma {:induction false} DuringKeepsSchema(cfg: Config, p: Plan, total: nat -> real, es: seq<Event>)
    requires KnownTasks(p, es) && PlanInRange(p) && forall i :: total(i) >= 0.0
    ensures SchemaOk(DocDuring(cfg, p, total, es))
    ensures DocDuring(cfg, p, total, es).version == UpdateCount(es)
  {
    if es != [] {
      var n := |es| - 1;
      assert es[n] in es;
      DuringKeepsSchema(cfg, p, total, es[..n]);
      var us := UpdatesOf(p, es[n], TaskAfter(cfg, p, es, es[n].t), total(n));
      UpdatesKeepSchema(DocDuring(cfg, p, total, es[..n]), us);
    }
  }

  // ----- The persisted task list -----

  /** The record of `t` when it was last written. */
  function WrittenTask(cfg: Config, p: Plan, es: seq<Event>, t: Id): Task
    requires t in p.specs
  {
    if es == [] then FRESH_TASK
    else if es[|es| - 1].t == t && !es[|es| - 1].SpawnFailed? then TaskAfter(cfg, p, es, t)
    else WrittenTask(cfg, p, es[..|es| - 1], t)
  }

  ghost predicate TasksAsWritten(cfg: Config, p: Plan, es: seq<Event>, tasks: seq<TaskDoc>)
    requires forall t | t in p.order :: t in p.specs
  {
    && |tasks| == |p.order|
    && forall i | 0 <= i < |tasks| :: tasks[i] == TaskDocOf(p, p.order[i], WrittenTask(cfg, p, es, p.order[i]))
  }

  lemma PutKeepsWritten(cfg: Config, p: Plan, es: seq<Event>, tasks: seq<TaskDoc>)
    requires Distinct(p.order) && (forall t :: t in p.order <==> t in p.specs)
    requires es != [] && es[|es| - 1].t in p.specs && !es[|es| - 1].SpawnFailed?
    requires TasksAsWritten(cfg, p, es[..|es| - 1], tasks)
    ensures TasksAsWritten(cfg, p, es, PutTask(tasks, TaskDocOf(p, es[|es| - 1].t, TaskAfter(cfg, p, es, es[|es| - 1].t))))
  {
    var t := es[|es| - 1].t;
    var i :| 0 <= i < |p.order| && p.order[i] == t;
    assert TaskIds(tasks) == p.order;
    assert forall j | 0 <= j < |tasks| :: TaskIds(tasks)[j] == tasks[j].id;
    PutTaskReplaces(tasks, TaskDocOf(p, t, TaskAfter(cfg, p, es, t)), i);
  }

  /** The persisted list keeps exactly the plan's ids in plan order, each with the record
      of its last successful spawn or exit. */
  lemma {:induction false} PersistedTasks(cfg: Config, p: Plan, total: nat -> real, es: seq<Event>, s: State)
    requires WellFormed(p) && Run(cfg, p, es, s)
    ensures KnownTasks(p, es)
    ensures TaskIds(DocDuring(cfg, p, total, es).tasks) == p.order
    ensures TasksAsWritten(cfg, p, es, DocDuring(cfg, p, total, es).tasks)
  {
    RunKnown(cfg, p, es, s);
    OrderKnown(p);
    if es != [] {
      var n := |es| - 1;
      var s0 := RunPop(cfg, p, es, s);
      PersistedTasks(cfg, p, total, es[..n], s0);
      DocStep(cfg, p, total, es);
      if !es[n].SpawnFailed? {
        PutKeepsWritten(cfg, p, es, DocDuring(cfg, p, total, es[..n]).tasks);
      }
    }
    WrittenIds(cfg, p, es, DocDuring(cfg, p, total, es).tasks);
  }

  lemma WrittenIds(cfg: Config, p: Plan, es: seq<Event>, tasks: seq<TaskDoc>)
    requires (forall t | t in p.order :: t in p.specs) && TasksAsWritten(cfg, p, es, tasks)
    ensures TaskIds(tasks) == p.order
  {
  }

  /** The last step of `t` was a failed spawn, which is not written. */
  predicate Stale(es: seq<Event>, t: Id) {
    es != [] && if es[|es| - 1].t == t then es[|es| - 1].SpawnFailed? else Stale(es[..|es| - 1], t)
  }

  lemma {:induction false} StaleRecords(cfg: Config, p: Plan, es: seq<Event>, s: State, t: Id)
    requires Run(cfg, p, es, s) && t in p.specs
    ensures t in s.tasks
    ensures var k, q := s.tasks[t], WrittenTask(cfg, p, es, t);
      if Stale(es, t) then q.status == Pending && (k.status == Terminal || (k.status == Pending && q.retries < k.retries))
      else q == k
    ensures s.tasks[t] == TaskAfter(cfg, p, es, t)
  {
    if es != [] {
      var n := |es| - 1;
      var s0 := RunPop(cfg, p, es, s);
      StaleRecords(cfg, p, es[..n], s0, t);
      RunInv(cfg, p, es[..n], s0);
      ActorStatus(cfg, p, s0, es[n]);
    }
  }

  /** A persisted record agrees with the supervisor's exactly when the last step of the task,
      if any, was not a failed spawn; a lagging record reads pending. */
  lemma PersistedAgreesExactly(cfg: Config, p: Plan, total: nat -> real, es: seq<Event>, s: State, i: nat)
    requires WellFormed(p) && Run(cfg, p, es, s) && i < |p.order|
    ensures KnownTasks(p, es) && p.order[i] in s.tasks && i < |DocDuring(cfg, p, total, es).tasks|
    ensures DocDuring(cfg, p, total, es).tasks[i].id == p.order[i]
    ensures p.order[i] in p.specs && DocDuring(cfg, p, total, es).tasks[i].spec == p.specs[p.order[i]]
    ensures var d, k := DocDuring(cfg, p, total, es).tasks[i], s.tasks[p.order[i]];
      d.status == k.status && d.retries == k.retries && d.assignedTo == k.assignedTo <==> !Stale(es, p.order[i])
    ensures Stale(es, p.order[i]) ==> DocDuring(cfg, p, total, es).tasks[i].status == Pending
  {
    OrderKnown(p);
    PersistedTasks(cfg, p, total, es, s);
    StaleRecords(cfg, p, es, s, p.order[i]);
  }

  // ----- The persisted worker list -----

  /** The list has one entry per successful spawn, and those that run are the active ones. */
  ghost predicate WorkersMatch(s: State, ids: seq<WorkerId>, workers: seq<WorkerDoc>) {
    && WorkerIds(workers) == ids
    && (forall w | w in s.active :: w in ids)
    && (forall i | 0 <= i < |workers| :: WorkerMatches(s, workers[i]))
  }

  ghost predicate WorkerMatches(s: State, d: WorkerDoc) {
    && (d.status == WorkerRunning <==> d.id in s.active)
    && (d.id in s.active ==> s.active[d.id] == d.taskId)
  }

  lemma SpawnKeepsWorkers(s: State, s': State, ids: seq<WorkerId>, workers: seq<WorkerDoc>, t: Id, w: WorkerId)
    requires WorkersMatch(s, ids, workers) && w !in ids && s'.active == s.active[w := t]
    ensures WorkersMatch(s', ids + [w], PutWorker(workers, WorkerDoc(w, t, WorkerRunning)))
  {
    var d := WorkerDoc(w, t, WorkerRunning);
    PutWorkerAppends(workers, d);
    assert WorkerIds(workers + [d]) == ids + [w];
    forall i | 0 <= i < |workers + [d]| ensures WorkerMatches(s', (workers + [d])[i]) {
      if i < |workers| {
        assert WorkerIds(workers)[i] in ids;
        assert WorkerMatches(s, workers[i]);
      }
    }
  }

  lemma ExitKeepsWorkers(s: State, s': State, ids: seq<WorkerId>, workers: seq<WorkerDoc>,
                         t: Id, w: WorkerId, status: WorkerStatus)
    requires WorkersMatch(s, ids, workers) && Distinct(ids) && w in s.active && s'.active == s.active - {w}
    requires status != WorkerRunning
    ensures WorkersMatch(s', ids, PutWorker(workers, WorkerDoc(w, t, status)))
  {
    var i :| 0 <= i < |ids| && ids[i] == w;
    assert forall j | 0 <= j < |workers| :: WorkerIds(workers)[j] == workers[j].id;
    PutWorkerUpdates(workers, WorkerDoc(w, t, status), i);
    var r := workers[i := workers[i].(status := status)];
    assert WorkerIds(r) == ids;
    forall j | 0 <= j < |r| ensures WorkerMatches(s', r[j]) {
      assert WorkerIds(r)[j] == ids[j];
      assert WorkerMatches(s, workers[j]);
    }
  }

  lemma WorkersStep(s: State, s': State, ids: seq<WorkerId>, workers: seq<WorkerDoc>, e: Event, active: map<WorkerId, Id>)
    requires WorkersMatch(s, ids, workers) && Distinct(ids) && s'.active == active
    requires match e
      case Spawned(t, w, _) => w !in ids && active == s.active[w := t]
      case SpawnFailed(_, _, _) => active == s.active
      case Exited(_, w, _, _) => w in s.active && active == s.active - {w}
    ensures match e
      case Spawned(t, w, _) => WorkersMatch(s', ids + [w], PutWorker(workers, WorkerDoc(w, t, WorkerRunning)))
      case SpawnFailed(_, _, _) => WorkersMatch(s', ids, workers)
      case Exited(t, w, code, _) =>
        WorkersMatch(s', ids, PutWorker(workers, WorkerDoc(w, t, if code == 0 then WorkerDone else WorkerFailed)))
  {
    match e
    case Spawned(t, w, _) => SpawnKeepsWorkers(s, s', ids, workers, t, w);
    case SpawnFailed(_, _, _) =>
      forall i | 0 <= i < |workers| ensures WorkerMatches(s', workers[i]) {
        assert WorkerMatches(s, workers[i]);
      }
    case Exited(t, w, code, _) => ExitKeepsWorkers(s, s', ids, workers, t, w, if code == 0 then WorkerDone else WorkerFailed);
  }

  /** With fresh worker ids the persisted list has unique ids, one per successful spawn in
      order, and marks as running exactly the active workers. */
  lemma {:induction false} PersistedWorkers(cfg: Config, p: Plan, total: nat -> real, es: seq<Event>, s: State)
    requires WellFormed(p) && Run(cfg, p, es, s) && Distinct(SpawnedIds(es))
    ensures KnownTasks(p, es)
    ensures WorkersMatch(s, SpawnedIds(es), DocDuring(cfg, p, total, es).workers)
  {
    RunKnown(cfg, p, es, s);
    if es != [] {
      var n := |es| - 1;
      var e := es[n];
      var s0 := RunPop(cfg, p, es, s);
      var ids := SpawnedIds(es[..n]);
      if e.Spawned? {
        LastIsNew(ids, e.w);
      }
      PersistedWorkers(cfg, p, total, es[..n], s0);
      DocStep(cfg, p, total, es);
      WorkersStep(s0, s, ids, DocDuring(cfg, p, total, es[..n]).workers, e, Apply(cfg, p, s0, e).active);
    }
  }

  ghost predicate ExitAt(es: seq<Event>, d: WorkerDoc, j: int) {
    && 0 <= j < |es| && es[j].Exited? && es[j].w == d.id && es[j].t == d.taskId
    && d.status == if es[j].code == 0 then WorkerDone else WorkerFailed
  }

  /** The worker exited from its task, and its status tells how. */
  ghost predicate ExitRecorded(es: seq<Event>, d: WorkerDoc) {
    exists j :: ExitAt(es, d, j)
  }

  lemma ExitStaysRecorded(es: seq<Event>, d: WorkerDoc)
    requires es != [] && ExitRecorded(es[..|es| - 1], d)
    ensures ExitRecorded(es, d)
  {
    var j :| ExitAt(es[..|es| - 1], d, j);
    assert ExitAt(es, d, j);
  }

  /** Of the others the list says how they exited: done with code 0 and failed otherwise. */
  lemma {:induction false} PersistedExits(cfg: Config, p: Plan, total: nat -> real, es: seq<Event>, s: State)
    requires WellFormed(p) && Run(cfg, p, es, s) && Distinct(SpawnedIds(es))
    ensures KnownTasks(p, es)
    ensures forall d | d in DocDuring(cfg, p, total, es).workers && d.status != WorkerRunning :: ExitRecorded(es, d)
  {
    RunKnown(cfg, p, es, s);
    if es != [] {
      var n := |es| - 1;
      var e := es[n];
      var s0 := RunPop(cfg, p, es, s);
      var ids, workers := SpawnedIds(es[..n]), DocDuring(cfg, p, total, es[..n]).workers;
      if e.Spawned? {
        LastIsNew(ids, e.w);
      }
      PersistedWorkers(cfg, p, total, es[..n], s0);
      PersistedExits(cfg, p, total, es[..n], s0);
      DocStep(cfg, p, total, es);
      forall d | d in workers && d.status != WorkerRunning ensures ExitRecorded(es, d) {
        ExitStaysRecorded(es, d);
      }
      match e {
        case Spawned(t, w, _) => PutWorkerAppends(workers, WorkerDoc(w, t, WorkerRunning));
        case SpawnFailed(_, _, _) =>
        case Exited(t, w, code, _) =>
          ExitIsRecorded(es, s0, ids, workers, if code == 0 then WorkerDone else WorkerFailed);
      }
    }
  }

  lemma ExitIsRecorded(es: seq<Event>, s: State, ids: seq<WorkerId>, workers: seq<WorkerDoc>, status: WorkerStatus)
    requires es != [] && es[|es| - 1].Exited? && WorkersMatch(s, ids, workers) && Distinct(ids)
    requires es[|es| - 1].w in s.active && s.active[es[|es| - 1].w] == es[|es| - 1].t
    requires status == if es[|es| - 1].code == 0 then WorkerDone else WorkerFailed
    requires forall d | d in workers && d.status != WorkerRunning :: ExitRecorded(es, d)
    ensures forall d | d in PutWorker(workers, WorkerDoc(es[|es| - 1].w, es[|es| - 1].t, status)) && d.status != WorkerRunning ::
      ExitRecorded(es, d)
  {
    var e := es[|es| - 1];
    var i :| 0 <= i < |ids| && ids[i] == e.w;
    assert forall j | 0 <= j < |workers| :: WorkerIds(workers)[j] == workers[j].id;
    PutWorkerUpdates(workers, WorkerDoc(e.w, e.t, status), i);
    assert WorkerMatches(s, workers[i]);
    assert ExitAt(es, WorkerDoc(e.w, workers[i].taskId, status), |es| - 1);
  }

  // ----- The persisted cost -----

  /** The step at which the last worker exited. */
  function LastExit(es: seq<Event>): Option<nat> {
    if es == [] then None
    else if es[|es| - 1].Exited? then Some(|es| - 1)
    else LastExit(es[..|es| - 1])
  }

  function LastCost(total: nat -> real, es: seq<Event>): real {
    match LastExit(es)
    case None => 0.0
    case Some(i) => total(i)
  }

  /** The persisted cost is the total read when the last worker exited. */
  lemma {:induction false} PersistedCost(cfg: Config, p: Plan, total: nat -> real, es: seq<Event>)
    requires KnownTasks(p, es)
    ensures DocDuring(cfg, p, total, es).costUsd == LastCost(total, es)
  {
    if es != [] {
      var n := |es| - 1;
      DocStep(cfg, p, total, es);
      PersistedCost(cfg, p, total, es[..n]);
      var d, k := DocDuring(cfg, p, total, es[..n]), TaskAfter(cfg, p, es, es[n].t);
      match es[n] {
        case Spawned(t, w, _) =>
          AfterSpawnUpdates(d, WorkerDoc(w, t, WorkerRunning), TaskDocOf(p, t, k));
        case SpawnFailed(_, _, _) =>
        case Exited(t, w, code, _) =>
          AfterExitUpdates(d, TaskDocOf(p, t, k), WorkerDoc(w, t, if code == 0 then WorkerDone else WorkerFailed), total(n));
      }
    }
  }
}
