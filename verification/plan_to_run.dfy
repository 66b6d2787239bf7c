/** From a plan document to its orchestrator, its runs and what they persist. */
module PlanToRun {
  import opened Wrappers
  import opened Scheduler
  import opened YamlData
  import opened PlanParser
  import opened PlanMeaning
  import opened Orchestration
  import Construction
  import CostAccounting
  import FinalDocument
  import Persistence
  import ScheduleIndependence
  import StateDocument
  import StateStorage
  import StoreProtocol
  import StoreSafety
  import SupervisorRuns
  import Ulid

  // ----- Building -----

  datatype LaunchError = ParseFailed(parse: PlanError) | BuildFailed(build: Construction.BuildError)

  /** Parse a document and build its orchestrator. */
  method Launch(data: Yaml, cfg: Config, caps: Construction.Caps, ids: Ulid.Generator)
    returns (r: Result<Orchestrator, LaunchError>)
    requires ids.Valid()
    ensures ids.Valid()
    ensures r.Ok? <==> PlanOk(data) && AllStateKeysOk(RawTasks(data)) && Construction.CapsOk(caps)
    ensures r.Err? && r.error.ParseFailed? <==> !PlanOk(data)
    ensures r.Ok? ==> r.value.Built() && r.value.plan == PlanFor(data) && r.value.history == []
    ensures r.Ok? ==> PlanIsOf(r.value.plan, RawTasks(data))
    ensures r.Ok? && StartsFresh(RawTasks(data)) ==> r.value.Valid() && r.value.state == Scheduler.Init(PlanFor(data))
  {
    var parsed := ParsePlanDict(data);
    if parsed.Err? {
      return Err(ParseFailed(parsed.error));
    }
    var inputs := TaskInputs(parsed.value.tasks);
    AcceptedPlanBuildsExactly(data);
    if AllStateKeysOk(RawTasks(data)) {
      PlanMeansDocument(data);
    }
    if StartsFresh(RawTasks(data)) {
      FreshTable(data);
    }
    var built := Construction.Build(cfg, caps, inputs, ids);
    if built.Err? {
      return Err(BuildFailed(built.error));
    }
    return Ok(built.value);
  }

  // ----- Persisting -----

  /** The cost total that the guard reports at step `i`, when its history is `usage(i)`. */
  function GuardCost(usage: nat -> seq<CostAccounting.Entry>): nat -> real {
    (i: nat) => CostAccounting.Total(usage(i)).usd
  }

  predicate CostsOk(es: seq<CostAccounting.Entry>) {
    forall e | e in es && e.Used? :: CostAccounting.CostOf(e.usage) >= 0.0
  }

  lemma GuardCostsOk(usage: nat -> seq<CostAccounting.Entry>)
    requires forall i: nat :: CostsOk(usage(i))
    ensures forall i: nat :: GuardCost(usage)(i) >= 0.0
  {
    forall i: nat ensures GuardCost(usage)(i) >= 0.0 {
      CostAccounting.TotalNonNegative(usage(i));
    }
  }

  lemma RunPersists(cfg: Config, p: Plan, total: nat -> real, es: seq<Event>, s: State, finalised: bool)
    requires WellFormed(p) && Persistence.PlanInRange(p) && forall i: nat :: total(i) >= 0.0
    requires Run(cfg, p, es, s) && (finalised ==> ScheduleIndependence.AllTerminal(s))
    ensures Persistence.KnownTasks(p, es)
    ensures finalised ==> FinalDocument.AllFinished(cfg, p, es)
    ensures var doc := FinalDocument.DocAfter(cfg, p, total, es, finalised);
      && StateDocument.SchemaOk(doc)
      && doc.version == Persistence.UpdateCount(es) + (if finalised then 1 else 0)
      && StateDocument.TaskIds(doc.tasks) == p.order
      && (!finalised ==> doc.status == StateDocument.Active)
      && (finalised ==> SupervisorRuns.ReportsOutcome(p, es, doc.status, s.exitCode))
  {
    Persistence.PersistedTasks(cfg, p, total, es, s);
    FinalDocument.FinishedIsTerminal(cfg, p, es, s);
    FinalDocument.RunKeepsSchema(cfg, p, total, es, finalised);
    FinalDocument.StatusDuring(cfg, p, total, es);
    if finalised {
      FinalDocument.FinalStatusIs(cfg, p, es, s);
      SupervisorRuns.OutcomeReported(cfg, p, es, s, FinalDocument.FinalStatus(cfg, p, es));
    }
  }

  /** Along every run of an accepted document whose records start fresh, with non-negative
      costs, state.json conforms to the schema, counts its updates in the version and lists
      exactly the document's tasks in order. Its status is running until the run is finalised;
      then it is what the outcomes of the attempts determine. */
  lemma AcceptedPlanPersists(cfg: Config, data: Yaml, usage: nat -> seq<CostAccounting.Entry>,
                             es: seq<Event>, s: State, finalised: bool)
    requires PlanOk(data) && StartsFresh(RawTasks(data))
    requires Run(cfg, PlanFor(data), es, s) && (finalised ==> ScheduleIndependence.AllTerminal(s))
    requires forall i: nat :: CostsOk(usage(i))
    ensures Persistence.KnownTasks(PlanFor(data), es)
    ensures finalised ==> FinalDocument.AllFinished(cfg, PlanFor(data), es)
    ensures var doc := FinalDocument.DocAfter(cfg, PlanFor(data), GuardCost(usage), es, finalised);
      && StateDocument.SchemaOk(doc)
      && doc.version == Persistence.UpdateCount(es) + (if finalised then 1 else 0)
      && StateDocument.TaskIds(doc.tasks) == IdsOf(ParsedOf(data).tasks)
      && (!finalised ==> doc.status == StateDocument.Active)
      && (finalised ==> SupervisorRuns.ReportsOutcome(PlanFor(data), es, doc.status, s.exitCode))
  {
    AcceptedPlanIsWellFormed(data);
    GuardCostsOk(usage);
    RunPersists(cfg, PlanFor(data), GuardCost(usage), es, s, finalised);
  }

  /** The persisted cost is the sum of the guard's accounts when the last worker exited. */
  lemma PersistedCostIsGuards(cfg: Config, p: Plan, usage: nat -> seq<CostAccounting.Entry>, es: seq<Event>, finalised: bool)
    requires Persistence.KnownTasks(p, es) && (finalised ==> FinalDocument.AllFinished(cfg, p, es))
    ensures FinalDocument.DocAfter(cfg, p, GuardCost(usage), es, finalised).costUsd ==
      match Persistence.LastExit(es)
      case None => 0.0
      case Some(i) => CostAccounting.SumOver(CostAccounting.Seen(usage(i)), usage(i)).usd
  {
    Persistence.PersistedCost(cfg, p, GuardCost(usage), es);
    if Persistence.LastExit(es).Some? {
      CostAccounting.TotalIsSum(usage(Persistence.LastExit(es).value));
    }
  }

  // ----- The store -----

  /** Whatever readers, failed updates and crashes the store has seen: if its commit order
      consists of the updates of a run, up to and including the last, then state.json is the
      document of that run. */
  lemma StoreHoldsRun(cfg: Config, p: Plan, total: nat -> real, es: seq<Event>, finalised: bool,
                      store: StoreProtocol.System)
    requires WellFormed(p) && Persistence.PlanInRange(p) && forall i :: total(i) >= 0.0
    requires Persistence.KnownTasks(p, es) && (finalised ==> FinalDocument.AllFinished(cfg, p, es))
    requires StoreProtocol.Reachable(Persistence.InitialDoc(p), store)
    requires StateStorage.LogsUpdates(store.log, FinalDocument.RunUpdates(cfg, p, total, es, finalised))
    ensures store.file == FinalDocument.DocAfter(cfg, p, total, es, finalised)
  {
    FinalDocument.RunUpdatesOk(cfg, p, total, es, finalised);
    FinalDocument.DocAfterIs(cfg, p, total, es, finalised);
    InitialDocOk(p);
    StateStorage.FoldIsAfterUpdates(Persistence.InitialDoc(p), store.log,
                                    FinalDocument.RunUpdates(cfg, p, total, es, finalised));
    StoreSafety.FileIsFold(Persistence.InitialDoc(p), store);
  }

  /** Such a store exists for every run. */
  lemma RunHasStore(cfg: Config, p: Plan, total: nat -> real, es: seq<Event>, finalised: bool)
    returns (store: StoreProtocol.System)
    requires WellFormed(p) && Persistence.PlanInRange(p) && forall i :: total(i) >= 0.0
    requires Persistence.KnownTasks(p, es) && (finalised ==> FinalDocument.AllFinished(cfg, p, es))
    ensures StoreProtocol.Reachable(Persistence.InitialDoc(p), store)
    ensures StateStorage.LogsUpdates(store.log, FinalDocument.RunUpdates(cfg, p, total, es, finalised))
    ensures store.file == FinalDocument.DocAfter(cfg, p, total, es, finalised)
  {
    FinalDocument.RunUpdatesOk(cfg, p, total, es, finalised);
    InitialDocOk(p);
    store := StateStorage.StoreFor(Persistence.InitialDoc(p), FinalDocument.RunUpdates(cfg, p, total, es, finalised));
    StoreHoldsRun(cfg, p, total, es, finalised, store);
  }

  lemma InitialDocOk(p: Plan)
    requires Persistence.PlanInRange(p) && forall t | t in p.order :: t in p.specs
    ensures StateDocument.SchemaOk(Persistence.InitialDoc(p))
  {
  }
}
