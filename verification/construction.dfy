/** Building the orchestrator from task dicts. */
module Construction {
  import opened DependencyGraph
  import opened Wrappers
  import opened Scheduler
  import opened Orchestration
  import opened YamlData
  import opened TaskTable
  import CostAccounting
  import CycleCheck
  import Ulid

  datatype BuildError =
    | RetriesNotAnInteger(task: Id)
    | CycleDetected(path: seq<Id>)
    | UnknownTask(task: Id, dep: Id)
    | InvalidCaps
    | SchemaViolation

  /** The spending caps per worker and for all workers. */
  datatype Caps = Caps(perWorker: real, overall: real)

  predicate CapsOk(caps: Caps) {
    caps.perWorker > 0.0 && caps.overall > 0.0
  }

  /** A new orchestrator whose records start as given. */
  ghost predicate HoldsStart(o: Orchestrator, plan: Plan, starts: map<Id, Task>)
    reads o, o.tasks.Values, o.ids
  {
    && o.Built() && o.plan == plan && WellFormed(plan) && o.history == []
    && o.state == State(starts, map[], map[], 0) && o.Holds(o.state)
    && (AllFresh(starts) ==> o.Valid() && o.state == Scheduler.Init(plan))
  }

  /** A new orchestrator for a table. */
  ghost predicate BuiltFrom(o: Orchestrator, tbl: Table)
    reads o, o.tasks.Values, o.ids
  {
    AllInRange(tbl) && HoldsStart(o, PlanOf(tbl), StartsOf(tbl))
  }

  /** The constructor raises exactly when a `retries` value is no integer, a dependency is
      unknown, the graph has a cycle, a cap is not positive or a value violates the schema. Otherwise the records
      start as their dicts say, and if all of them start fresh, the new orchestrator is at
      the start of every run. */
  method Build(cfg: Config, caps: Caps, inputs: seq<TaskInput>, ids: Ulid.Generator)
    returns (r: Result<Orchestrator, BuildError>)
    requires ids.Valid()
    ensures ids.Valid()
    ensures r.Ok? <==> Buildable(inputs) && CapsOk(caps)
    ensures r.Ok? ==> BuiltFrom(r.value, TableOf(inputs))
    ensures r.Ok? && UniqueIds(inputs) ==> PlanLists(r.value.plan, inputs)
    ensures r.Ok? ==> forall i: nat | IsLast(inputs, i) ::
      && inputs[i].id in r.value.plan.specs
      && r.value.plan.specs[inputs[i].id].priority == inputs[i].priority
      && r.value.plan.specs[inputs[i].id].dependsOn == inputs[i].dependsOn
      && r.value.plan.specs[inputs[i].id].maxRetries == inputs[i].maxRetries
    ensures r.Err? ==> Justified(caps, inputs, r.error)
  {
    var tbl := Table([], map[]);
    for i := 0 to |inputs|
      invariant tbl == TableOf(inputs[..i])
      invariant forall k | 0 <= k < i :: IntOf(RawRetries(inputs[k].extra)).Converted?
    {
      if !IntOf(RawRetries(inputs[i].extra)).Converted? {
        return Err(RetriesNotAnInteger(inputs[i].id));
      }
      assert inputs[..i + 1][..i] == inputs[..i];
      tbl := Add(tbl, inputs[i]);
    }
    assert inputs[..|inputs|] == inputs;
    r := BuildTable(cfg, caps, inputs, tbl, ids);
    if r.Ok? && UniqueIds(inputs) {
      PlanOfLists(inputs);
    }
    if r.Ok? {
      forall i: nat | IsLast(inputs, i) ensures SpecIs(r.value.plan, inputs[i]) {
        LastRowWins(inputs, i);
      }
    }
  }

  /** The part of the constructor after the table is filled. */
  method BuildTable(cfg: Config, caps: Caps, inputs: seq<TaskInput>, tbl: Table, ids: Ulid.Generator)
    returns (r: Result<Orchestrator, BuildError>)
    requires ids.Valid() && tbl == TableOf(inputs) && RetriesConvert(inputs)
    ensures ids.Valid()
    ensures r.Ok? <==> Buildable(inputs) && CapsOk(caps)
    ensures r.Ok? ==> BuiltFrom(r.value, tbl)
    ensures r.Err? ==> Justified(caps, inputs, r.error)
  {
    TableIs(inputs);
    var checker := new CycleCheck.Checker(Dependencies(tbl), tbl.order, true);
    var verdict := checker.Check();
    match verdict {
      case CycleFound(path) =>
        CycleRefutesAcyclic(Dependencies(tbl), path);
        return Err(CycleDetected(path));
      case UnknownDependency(task, dep) =>
        return Err(UnknownTask(task, dep));
      case Accepted =>
    }
    var guard := CostAccounting.CostGuard.Create(caps.perWorker, caps.overall);
    if guard.Err? {
      return Err(InvalidCaps);
    }
    if !AllInRange(tbl) {
      return Err(SchemaViolation);
    }
    PlanOfIsWellFormed(tbl);
    var o := Assemble(cfg, PlanOf(tbl), StartsOf(tbl), ids);
    return Ok(o);
  }

  /** What an error says about the input. */
  ghost predicate Justified(caps: Caps, inputs: seq<TaskInput>, e: BuildError) {
    match e
    case RetriesNotAnInteger(task) => exists x | x in inputs :: x.id == task && !IntOf(RawRetries(x.extra)).Converted?
    case CycleDetected(path) => CycleCheck.ReportsCycle(Dependencies(TableOf(inputs)), path)
    case UnknownTask(task, dep) => CycleCheck.ReportsUnknown(Dependencies(TableOf(inputs)), task, dep)
    case InvalidCaps => !CapsOk(caps)
    case SchemaViolation => !AllInRange(TableOf(inputs))
  }

  lemma CycleRefutesAcyclic(g: Graph, path: seq<Id>)
    requires CycleCheck.ReportsCycle(g, path)
    ensures !Acyclic(g)
  {
  }

  method Assemble(cfg: Config, plan: Plan, starts: map<Id, Task>, ids: Ulid.Generator) returns (o: Orchestrator)
    requires ids.Valid() && WellFormed(plan) && starts.Keys == plan.specs.Keys
    requires forall t | t in starts :: starts[t].retryAt == 0.0
    ensures HoldsStart(o, plan, starts)
  {
    var records := AllocateRecords(plan, starts);
    o := new Orchestrator(cfg, plan.order, records, ids, plan);
    assert o.state.tasks == starts;
  }

  method AllocateRecords(plan: Plan, starts: map<Id, Task>) returns (records: map<Id, TaskRecord>)
    requires Elements(plan.order) == plan.specs.Keys == starts.Keys
    requires forall t | t in starts :: starts[t].retryAt == 0.0
    ensures records.Keys == plan.specs.Keys && fresh(records.Values)
    ensures forall t | t in records :: records[t].id == t && records[t].spec == plan.specs[t]
    ensures forall t | t in records :: records[t].View() == starts[t]
  {
    records := map[];
    for i := 0 to |plan.order|
      invariant records.Keys == Elements(plan.order[..i])
      invariant forall t | t in records :: t in plan.specs && fresh(records[t])
      invariant forall t | t in records :: records[t].id == t && records[t].spec == plan.specs[t]
      invariant forall t | t in records :: records[t].View() == starts[t]
    {
      var t := plan.order[i];
      assert t in Elements(plan.order);
      var record := new TaskRecord(t, plan.specs[t], starts[t].status, starts[t].retries, starts[t].assignedTo);
      records := records[t := record];
      assert plan.order[..i + 1] == plan.order[..i] + [t];
    }
    assert plan.order[..|plan.order|] == plan.order;
  }
}
