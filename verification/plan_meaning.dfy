/** What a plan document means to the scheduler: its plan, and how its records start. */
module PlanMeaning {
  import opened DependencyGraph
  import opened Scheduler
  import opened YamlData
  import opened PlanParser
  import TaskTable
  import Text

  // ----- Building -----

  /** The scheduler's plan for an accepted document that can be built. */
  ghost function PlanFor(data: Yaml): Plan
    requires PlanOk(data) && AllStateKeysOk(RawTasks(data))
  {
    ParserAgreesWithBuild(RawTasks(data));
    TaskTable.PlanOf(TaskTable.TableOf(TaskInputs(ParsedOf(data).tasks)))
  }

  /** An accepted document builds an orchestrator exactly when the keys of its task dicts that
      the parser passes through unchecked are fit to start a record. */
  lemma AcceptedPlanBuildsExactly(data: Yaml)
    requires PlanOk(data)
    ensures TaskTable.Buildable(TaskInputs(ParsedOf(data).tasks)) <==> AllStateKeysOk(RawTasks(data))
  {
    ParserAgreesWithBuild(RawTasks(data));
  }

  /** Then it gives a well-formed plan with the stripped ids in input order and every value
      within the ranges of the state schema. */
  lemma AcceptedPlanIsWellFormed(data: Yaml)
    requires PlanOk(data) && AllStateKeysOk(RawTasks(data))
    ensures WellFormed(PlanFor(data))
    ensures forall t | t in PlanFor(data).specs ::
      0 <= PlanFor(data).specs[t].priority <= 9 && PlanFor(data).specs[t].maxRetries <= 10
    ensures PlanFor(data).order == IdsOf(ParsedOf(data).tasks)
  {
    var tasks := ParsedOf(data).tasks;
    ParserAgreesWithBuild(RawTasks(data));
    ParsedIdsDistinct(RawTasks(data));
    SameGraph(tasks);
    TaskTable.TableIs(TaskInputs(tasks));
    TaskTable.PlanOfIsWellFormed(TaskTable.TableOf(TaskInputs(tasks)));
  }

  /** What a task dict says of its task's entry in the plan: the converted priority and number
      of retries, or their defaults, and the stripped dependencies. */
  ghost predicate SpecSays(raw: Fields, spec: Spec) {
    && (if "priority" in raw then IntOf(raw["priority"]) == Converted(spec.priority) else spec.priority == 5)
    && (if "max_retries" in raw then IntOf(raw["max_retries"]) == Converted(spec.maxRetries) else spec.maxRetries == 2)
    && DependenciesSay(raw, spec.dependsOn)
  }

  /** The plan has one task per task dict, in order, under its stripped id. */
  ghost predicate PlanIsOf(p: Plan, raws: seq<Yaml>) {
    && |p.order| == |raws| && p.specs.Keys == Elements(p.order)
    && forall i | 0 <= i < |raws| :: TaskIsOf(p, raws[i], p.order[i])
  }

  ghost predicate TaskIsOf(p: Plan, raw: Yaml, id: Id) {
    && raw.YMap? && "id" in raw.entries && raw.entries["id"].YStr? && id == Text.Strip(raw.entries["id"].s)
    && id in p.specs && SpecSays(raw.entries, p.specs[id])
  }

  /** The plan of the scheduler is the one that the document describes: same ids, priorities,
      retry limits and dependencies, hence the same graph. */
  lemma PlanMeansDocument(data: Yaml)
    requires PlanOk(data) && AllStateKeysOk(RawTasks(data))
    ensures PlanIsOf(PlanFor(data), RawTasks(data))
    ensures GraphOf(PlanFor(data)) == GraphOfTasks(ParsedOf(data).tasks)
  {
    var raws, tasks := RawTasks(data), ParsedOf(data).tasks;
    var p := PlanFor(data);
    ParserAgreesWithBuild(raws);
    ParsedIdsDistinct(raws);
    ParsedSays(data);
    InputsOf(tasks);
    TaskTable.PlanOfLists(TaskInputs(tasks));
    forall i | 0 <= i < |raws| ensures TaskIsOf(p, raws[i], p.order[i]) {
      EntryIsOf(p, raws[i], tasks[i]);
    }
    PlanGraphIs(p, tasks);
  }

  lemma EntryIsOf(p: Plan, raw: Yaml, t: ParsedTask)
    requires raw.YMap? && TaskSays(raw.entries, t) && TaskTable.SpecIs(p, TaskInputOf(t))
    ensures TaskIsOf(p, raw, t.id)
  {
  }

  lemma PlanGraphIs(p: Plan, tasks: seq<ParsedTask>)
    requires Distinct(IdsOf(tasks)) && TaskTable.PlanLists(p, TaskInputs(tasks))
    ensures GraphOf(p) == GraphOfTasks(tasks)
  {
    var g := GraphOfTasks(tasks);
    forall i | 0 <= i < |tasks| ensures p.order[i] in g && p.order[i] in p.specs && p.specs[p.order[i]].dependsOn == g[p.order[i]] {
      NodeIs(p, tasks, i);
    }
    forall id | id in g ensures id in p.specs {
      var i := RowIndex(tasks, id);
      assert p.order[i] == id;
    }
    forall id | id in p.specs ensures id in g && p.specs[id].dependsOn == g[id] {
      assert id in Elements(p.order);
      var i :| 0 <= i < |p.order| && p.order[i] == id;
    }
  }

  lemma NodeIs(p: Plan, tasks: seq<ParsedTask>, i: nat)
    requires Distinct(IdsOf(tasks)) && TaskTable.PlanLists(p, TaskInputs(tasks)) && i < |tasks|
    ensures var g, id := GraphOfTasks(tasks), p.order[i];
      id in g && id in p.specs && p.specs[id].dependsOn == g[id]
  {
    GraphIs(tasks);
    assert tasks[i] in tasks && TaskTable.SpecIs(p, TaskInputOf(tasks[i]));
  }

  /** Every task dict starts a record that is pending, without retries and assigned to no one. */
  predicate StartsFresh(raws: seq<Yaml>) {
    && AllStateKeysOk(raws)
    && forall i | 0 <= i < |raws| && raws[i].YMap? :: TaskTable.StartOf(raws[i].entries) == FRESH_TASK
  }

  /** Then all records of the table are fresh. */
  lemma FreshTable(data: Yaml)
    requires PlanOk(data) && StartsFresh(RawTasks(data))
    ensures var tbl := TaskTable.TableOf(TaskInputs(ParsedOf(data).tasks));
      TaskTable.AllInRange(tbl) && TaskTable.AllFresh(TaskTable.StartsOf(tbl))
  {
    var raws, tasks := RawTasks(data), ParsedOf(data).tasks;
    var tbl := TaskTable.TableOf(TaskInputs(tasks));
    ParserAgreesWithBuild(raws);
    ParsedIdsDistinct(raws);
    TasksOfExactly(raws);
    forall id | id in tbl.rows ensures TaskTable.StartOf(tbl.rows[id].extra) == FRESH_TASK {
      var i := RowIndex(tasks, id);
      RowOf(tasks, i);
      StateKeysPass(raws[i].entries);
      assert tasks[i] == Normalised(raws[i].entries);
    }
  }

  // ----- Accepted, but not built -----

  /** A plan of one task with one key besides its id and prompt. */
  function OneTask(key: string, value: Yaml): Yaml {
    YMap(map["tasks" := YList([YMap(map["id" := YStr("a"), "prompt" := YStr("p"), key := value])])])
  }

  lemma OneTaskIsAccepted(key: string, value: Yaml)
    requires key !in KNOWN
    ensures PlanOk(OneTask(key, value)) && RawTasks(OneTask(key, value))[0].entries[key] == value
    ensures |RawTasks(OneTask(key, value))| == 1 && RawTasks(OneTask(key, value))[0].YMap?
  {
    var raws := RawTasks(OneTask(key, value));
    var raw := raws[0].entries;
    Text.StripTrims("a");
    Text.StripTrims("p");
    assert raw["id"] == YStr("a") && raw["prompt"] == YStr("p");
    assert "kind" !in raw && "priority" !in raw && "max_retries" !in raw && "depends_on" !in raw;
    assert Acceptable(raw);
    TasksOfExactly(raws);
    ParsedIdsDistinct(raws);
    var tasks := TasksOf(raws).value;
    assert tasks[0] == Normalised(raw) && tasks[0].dependsOn == [];
    assert forall t | t in tasks :: t == tasks[0];
    GraphIs(tasks);
    var g := GraphOfTasks(tasks);
    forall id | id in g ensures id == "a" && g[id] == [] {
      var t :| t in tasks && t.id == id;
    }
    assert ["a"][..0] == [];
    assert Ordered(g, ["a"][..0]);
    assert tasks[0] in tasks;
    assert Ordered(g, ["a"]);
    OrderExcludesCycles(g, ["a"]);
  }

  lemma OneTaskBuilds(key: string, value: Yaml) returns (raw: Fields)
    requires key !in KNOWN
    ensures raw.Keys == {"id", "prompt", key} && raw[key] == value
    ensures var d := OneTask(key, value);
      && PlanOk(d)
      && (TaskTable.Buildable(TaskInputs(ParsedOf(d).tasks)) <==> TaskTable.StateKeysOk(raw))
      && (StartsFresh(RawTasks(d)) <==> TaskTable.StateKeysOk(raw) && TaskTable.StartOf(raw) == FRESH_TASK)
  {
    OneTaskIsAccepted(key, value);
    AcceptedPlanBuildsExactly(OneTask(key, value));
    raw := RawTasks(OneTask(key, value))[0].entries;
  }

  /** The parser accepts any `status`; the constructor only those of the schema, and the
      task is not always pending. */
  lemma StatusIsUnchecked(status: string)
    ensures var d := OneTask("status", YStr(status));
      && PlanOk(d)
      && (TaskTable.Buildable(TaskInputs(ParsedOf(d).tasks)) <==>
            status in {"pending", "ready", "assigned", "running", "done", "failed", "terminal"})
      && (StartsFresh(RawTasks(d)) <==> status == "pending")
  {
    var raw := OneTaskBuilds("status", YStr(status));
    OnlyStatus(raw);
  }

  lemma OnlyStatus(raw: Fields)
    requires raw.Keys == {"id", "prompt", "status"} && raw["status"].YStr?
    ensures TaskTable.StateKeysOk(raw) <==>
      raw["status"].s in {"pending", "ready", "assigned", "running", "done", "failed", "terminal"}
    ensures TaskTable.StateKeysOk(raw) && TaskTable.StartOf(raw) == FRESH_TASK <==> raw["status"].s == "pending"
  {
  }

  /** The parser accepts any `retries`; the constructor only those that become a natural
      number. */
  lemma RetriesIsUnchecked(retries: int)
    ensures var d := OneTask("retries", YInt(retries));
      && PlanOk(d)
      && (TaskTable.Buildable(TaskInputs(ParsedOf(d).tasks)) <==> retries >= 0)
      && (StartsFresh(RawTasks(d)) <==> retries == 0)
  {
    var raw := OneTaskBuilds("retries", YInt(retries));
    OnlyRetries(raw);
  }

  lemma OnlyRetries(raw: Fields)
    requires raw.Keys == {"id", "prompt", "retries"} && raw["retries"].YInt?
    ensures TaskTable.StateKeysOk(raw) <==> raw["retries"].i >= 0
    ensures TaskTable.StateKeysOk(raw) && TaskTable.StartOf(raw) == FRESH_TASK <==> raw["retries"].i == 0
  {
  }

  /** A document that the parser accepts and the constructor rejects. */
  lemma AcceptedButNotBuilt() returns (status: string, d: Yaml)
    ensures status == "bogus" && d == OneTask("status", YStr(status))
    ensures PlanOk(d) && !TaskTable.Buildable(TaskInputs(ParsedOf(d).tasks))
  {
    status := "bogus";
    d := OneTask("status", YStr(status));
    StatusIsUnchecked(status);
  }
}
