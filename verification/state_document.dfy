/** The persisted state document: its schema and the orchestrator's mutators. */
module StateDocument {
  import opened DependencyGraph
  import opened Wrappers
  import opened Scheduler

  datatype RunStatus = Initializing | Active | Halting | Halted | Completed | RunFailed

  datatype WorkerStatus = WorkerRunning | WorkerDone | WorkerFailed

  datatype TaskDoc = TaskDoc(id: Id, spec: Spec, status: Status, retries: int, assignedTo: Assignee)

  datatype WorkerDoc = WorkerDoc(id: WorkerId, taskId: Id, status: WorkerStatus)

  /** A version of -1 stands for an absent one: `update` reads it as such. */
  datatype Doc = Doc(version: int, status: RunStatus, costUsd: real, workers: seq<WorkerDoc>, tasks: seq<TaskDoc>)

  // ----- Schema -----

  predicate TaskDocOk(d: TaskDoc) {
    0 <= d.spec.priority <= 9 && d.spec.maxRetries <= 10 && d.retries >= 0
  }

  predicate SchemaOk(d: Doc) {
    d.version >= 0 && d.costUsd >= 0.0 && forall t | t in d.tasks :: TaskDocOk(t)
  }

  // ----- Mutators -----

  function PutTask(tasks: seq<TaskDoc>, d: TaskDoc): seq<TaskDoc> {
    if tasks == [] then [d]
    else if tasks[0].id == d.id then [d] + tasks[1..]
    else [tasks[0]] + PutTask(tasks[1..], d)
  }

  function PutWorker(workers: seq<WorkerDoc>, d: WorkerDoc): seq<WorkerDoc> {
    if workers == [] then [d]
    else if workers[0].id == d.id then [workers[0].(status := d.status)] + workers[1..]
    else [workers[0]] + PutWorker(workers[1..], d)
  }

  lemma SplitAt<T>(s: seq<T>, i: nat, x: T)
    requires i < |s|
    ensures s[i..][0] == s[i] && s[i..][1..] == s[i + 1..] && s[..i] + [s[i]] == s[..i + 1]
    ensures s[i := x] == s[..i] + ([x] + s[i + 1..])
  {
  }

  lemma Regroup<T>(a: seq<T>, x: T, b: seq<T>)
    ensures a + ([x] + b) == a + [x] + b
  {
  }

  lemma PutTaskAt(tasks: seq<TaskDoc>, i: nat, d: TaskDoc)
    requires i < |tasks|
    ensures tasks[..i] + PutTask(tasks[i..], d) ==
      if tasks[i].id == d.id then tasks[i := d] else tasks[..i + 1] + PutTask(tasks[i + 1..], d)
  {
    SplitAt(tasks, i, d);
    Regroup(tasks[..i], tasks[i], PutTask(tasks[i + 1..], d));
  }

  /** The upsert of a task record: replace the first entry with its id, else append. */
  method UpsertTask(tasks: seq<TaskDoc>, d: TaskDoc) returns (r: seq<TaskDoc>)
    ensures r == PutTask(tasks, d)
  {
    var i := 0;
    assert tasks[..0] + PutTask(tasks[0..], d) == PutTask(tasks, d);
    while i < |tasks|
      invariant i <= |tasks|
      invariant tasks[..i] + PutTask(tasks[i..], d) == PutTask(tasks, d)
    {
      PutTaskAt(tasks, i, d);
      if tasks[i].id == d.id {
        return tasks[i := d];
      }
      i := i + 1;
    }
    assert tasks[..i] == tasks;
    return tasks + [d];
  }

  lemma PutWorkerAt(workers: seq<WorkerDoc>, i: nat, d: WorkerDoc)
    requires i < |workers|
    ensures workers[..i] + PutWorker(workers[i..], d) ==
      if workers[i].id == d.id then workers[i := workers[i].(status := d.status)] else workers[..i + 1] + PutWorker(workers[i + 1..], d)
  {
    SplitAt(workers, i, workers[i].(status := d.status));
    Regroup(workers[..i], workers[i], PutWorker(workers[i + 1..], d));
  }

  /** The upsert of a worker record: change the status of the first entry with its id, else append. */
  method UpsertWorker(workers: seq<WorkerDoc>, d: WorkerDoc) returns (r: seq<WorkerDoc>)
    ensures r == PutWorker(workers, d)
  {
    var i := 0;
    assert workers[..0] + PutWorker(workers[0..], d) == PutWorker(workers, d);
    while i < |workers|
      invariant i <= |workers|
      invariant workers[..i] + PutWorker(workers[i..], d) == PutWorker(workers, d)
    {
      PutWorkerAt(workers, i, d);
      if workers[i].id == d.id {
        return workers[i := workers[i].(status := d.status)];
      }
      i := i + 1;
    }
    assert workers[..i] == workers;
    return workers + [d];
  }

  function SetTask(d: Doc, t: TaskDoc): Doc {
    d.(tasks := PutTask(d.tasks, t))
  }

  function SetWorker(d: Doc, w: WorkerDoc): Doc {
    d.(workers := PutWorker(d.workers, w))
  }

  function SetCost(d: Doc, total: real): Doc {
    d.(costUsd := total)
  }

  function SetStatus(d: Doc, status: RunStatus): Doc {
    d.(status := status)
  }

  // ----- What the mutators keep -----

  function TaskIds(tasks: seq<TaskDoc>): seq<Id> {
    Map((d: TaskDoc) => d.id, tasks)
  }

  function WorkerIds(workers: seq<WorkerDoc>): seq<WorkerId> {
    Map((d: WorkerDoc) => d.id, workers)
  }

  /** The first record with this id. */
  predicate FirstTask(tasks: seq<TaskDoc>, id: Id, i: int) {
    0 <= i < |tasks| && tasks[i].id == id && forall j | 0 <= j < i :: tasks[j].id != id
  }

  predicate FirstWorker(workers: seq<WorkerDoc>, id: WorkerId, i: int) {
    0 <= i < |workers| && workers[i].id == id && forall j | 0 <= j < i :: workers[j].id != id
  }

  /** An upsert under an existing id keeps the ids and their order and changes the first entry
      with the id only. */
  lemma {:induction false} PutTaskReplaces(tasks: seq<TaskDoc>, d: TaskDoc, i: nat)
    requires FirstTask(tasks, d.id, i)
    ensures PutTask(tasks, d) == tasks[i := d]
  {
    if i > 0 {
      assert FirstTask(tasks[1..], d.id, i - 1);
      PutTaskReplaces(tasks[1..], d, i - 1);
    }
  }

  lemma {:induction false} PutTaskAppends(tasks: seq<TaskDoc>, d: TaskDoc)
    requires d.id !in TaskIds(tasks)
    ensures PutTask(tasks, d) == tasks + [d]
  {
    if tasks != [] {
      assert TaskIds(tasks)[0] == tasks[0].id;
      assert TaskIds(tasks[1..]) == TaskIds(tasks)[1..];
      PutTaskAppends(tasks[1..], d);
    }
  }

  lemma {:induction false} PutWorkerAppends(workers: seq<WorkerDoc>, d: WorkerDoc)
    requires d.id !in WorkerIds(workers)
    ensures PutWorker(workers, d) == workers + [d]
  {
    if workers != [] {
      assert WorkerIds(workers)[0] == workers[0].id;
      assert WorkerIds(workers[1..]) == WorkerIds(workers)[1..];
      PutWorkerAppends(workers[1..], d);
    }
  }

  /** An upsert under an existing worker id changes the status of the first such entry only. */
  lemma {:induction false} PutWorkerUpdates(workers: seq<WorkerDoc>, d: WorkerDoc, i: nat)
    requires FirstWorker(workers, d.id, i)
    ensures PutWorker(workers, d) == workers[i := WorkerDoc(d.id, workers[i].taskId, d.status)]
  {
    if i > 0 {
      assert FirstWorker(workers[1..], d.id, i - 1);
      PutWorkerUpdates(workers[1..], d, i - 1);
    }
  }

  lemma {:induction false} PutTaskKeepsSchema(tasks: seq<TaskDoc>, d: TaskDoc)
    requires TaskDocOk(d) && forall t | t in tasks :: TaskDocOk(t)
    ensures forall t | t in PutTask(tasks, d) :: TaskDocOk(t)
  {
    if tasks != [] && tasks[0].id != d.id {
      PutTaskKeepsSchema(tasks[1..], d);
    }
  }

  // ----- Store updates -----

  datatype Update =
    | TaskUpdate(task: TaskDoc)
    | WorkerUpdate(worker: WorkerDoc)
    | CostUpdate(total: real)
    | StatusUpdate(status: RunStatus)

  function Perform(d: Doc, u: Update): Doc {
    match u
    case TaskUpdate(t) => SetTask(d, t)
    case WorkerUpdate(w) => SetWorker(d, w)
    case CostUpdate(total) => SetCost(d, total)
    case StatusUpdate(status) => SetStatus(d, status)
  }

  /** One committed store update: the version grows by one. */
  function AfterUpdate(d: Doc, u: Update): Doc {
    Perform(d, u).(version := d.version + 1)
  }

  predicate UpdateOk(u: Update) {
    match u
    case TaskUpdate(t) => 0 <= t.spec.priority <= 9 && t.spec.maxRetries <= 10 && t.retries >= 0
    case WorkerUpdate(_) => true
    case CostUpdate(total) => total >= 0.0
    case StatusUpdate(_) => true
  }

  lemma UpdateKeepsSchema(d: Doc, u: Update)
    requires SchemaOk(d) && UpdateOk(u)
    ensures SchemaOk(AfterUpdate(d, u))
  {
    if u.TaskUpdate? {
      PutTaskKeepsSchema(d.tasks, u.task);
    }
  }

  function AfterUpdates(d: Doc, us: seq<Update>): Doc
    decreases |us|
  {
    if us == [] then d else AfterUpdates(AfterUpdate(d, us[0]), us[1..])
  }

  lemma {:induction false} UpdatesAppend(d: Doc, us: seq<Update>, more: seq<Update>)
    ensures AfterUpdates(d, us + more) == AfterUpdates(AfterUpdates(d, us), more)
    decreases |us|
  {
    if us == [] {
      assert us + more == more;
    } else {
      assert (us + more)[1..] == us[1..] + more;
      UpdatesAppend(AfterUpdate(d, us[0]), us[1..], more);
    }
  }

  lemma FirstUpdate(d: Doc, u: Update, us: seq<Update>)
    ensures AfterUpdates(d, [u] + us) == AfterUpdates(AfterUpdate(d, u), us)
  {
    assert ([u] + us)[1..] == us;
  }

  lemma {:induction false} UpdatesKeepSchema(d: Doc, us: seq<Update>)
    requires SchemaOk(d) && forall u | u in us :: UpdateOk(u)
    ensures SchemaOk(AfterUpdates(d, us)) && AfterUpdates(d, us).version == d.version + |us|
    decreases |us|
  {
    if us != [] {
      UpdateKeepsSchema(d, us[0]);
      UpdatesKeepSchema(AfterUpdate(d, us[0]), us[1..]);
    }
  }
}
