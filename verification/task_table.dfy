/** The task table of the orchestrator: what task dicts say of plan and records, and which
    tables pass the DAG check and the schema. */
module TaskTable {
  import opened DependencyGraph
  import opened Wrappers
  import opened Scheduler
  import opened YamlData

  /** A task dict of the parser; `extra` holds its other keys, some of which say how the
      task's record starts. */
  datatype TaskInput = TaskInput(id: Id, priority: int, dependsOn: seq<Id>, maxRetries: int, extra: Fields)

  // ----- The keys that say how a record starts -----

  function RawStatus(extra: Fields): Yaml { WithDefault(extra, "status", YStr("pending")) }
  function RawRetries(extra: Fields): Yaml { WithDefault(extra, "retries", YInt(0)) }
  function RawAssignedTo(extra: Fields): Yaml { Lookup(extra, "assigned_to") }
  function RawLastError(extra: Fields): Yaml { Lookup(extra, "last_error") }

  /** The statuses of the state schema. */
  function StatusOf(name: string): Option<Status> {
    if name == "pending" then Some(Pending)
    else if name == "ready" then Some(MarkedReady)
    else if name == "assigned" then Some(Assigned)
    else if name == "running" then Some(Running)
    else if name == "done" then Some(Done)
    else if name == "failed" then Some(Failed)
    else if name == "terminal" then Some(Terminal)
    else None
  }

  function StatusName(s: Status): string {
    match s
    case Pending => "pending"
    case MarkedReady => "ready"
    case Assigned => "assigned"
    case Running => "running"
    case Done => "done"
    case Failed => "failed"
    case Terminal => "terminal"
  }

  lemma StatusOfExactly(name: string, s: Status)
    ensures StatusOf(name) == Some(s) <==> name == StatusName(s)
  {
  }

  predicate IsNullOrText(y: Yaml) {
    y.YNull? || y.YStr?
  }

  /** What the constructor and the schema demand of these keys. */
  predicate StateKeysOk(extra: Fields) {
    && RawStatus(extra).YStr? && StatusOf(RawStatus(extra).s).Some?
    && IntOf(RawRetries(extra)).Converted? && IntOf(RawRetries(extra)).i >= 0
    && IsNullOrText(RawAssignedTo(extra)) && IsNullOrText(RawLastError(extra))
  }

  function StartOf(extra: Fields): Task
    requires StateKeysOk(extra)
  {
    Task(StatusOf(RawStatus(extra).s).value, IntOf(RawRetries(extra)).i, 0.0,
         if RawAssignedTo(extra).YStr? then Named(RawAssignedTo(extra).s) else Nobody)
  }

  /** A task dict is fit to start a record exactly when each of the four keys is absent or has a
      value of its kind. */
  lemma StateKeysOkExactly(extra: Fields)
    ensures StateKeysOk(extra) <==>
      && ("status" in extra ==>
            extra["status"].YStr?
            && extra["status"].s in {"pending", "ready", "assigned", "running", "done", "failed", "terminal"})
      && ("retries" in extra ==> IntOf(extra["retries"]).Converted? && IntOf(extra["retries"]).i >= 0)
      && ("assigned_to" in extra ==> extra["assigned_to"].YNull? || extra["assigned_to"].YStr?)
      && ("last_error" in extra ==> extra["last_error"].YNull? || extra["last_error"].YStr?)
  {
  }

  /** How the record then starts. */
  lemma StartIs(extra: Fields)
    requires StateKeysOk(extra)
    ensures var k := StartOf(extra);
      && (if "status" in extra then extra["status"] == YStr(StatusName(k.status)) else k.status == Pending)
      && (if "retries" in extra then IntOf(extra["retries"]) == Converted(k.retries) else k.retries == 0)
      && (if "assigned_to" in extra && extra["assigned_to"].YStr? then k.assignedTo == Named(extra["assigned_to"].s)
          else k.assignedTo == Nobody)
      && k.retryAt == 0.0
  {
    StatusOfExactly(RawStatus(extra).s, StartOf(extra).status);
  }

  // ----- The table -----

  /** An insertion-ordered dict: a repeated id keeps its place and takes the new value. */
  datatype Table = Table(order: seq<Id>, rows: map<Id, TaskInput>)

  function Add(tbl: Table, x: TaskInput): Table {
    Table(if x.id in tbl.rows then tbl.order else tbl.order + [x.id], tbl.rows[x.id := x])
  }

  function TableOf(inputs: seq<TaskInput>): Table {
    if inputs == [] then Table([], map[]) else Add(TableOf(inputs[..|inputs| - 1]), inputs[|inputs| - 1])
  }

  ghost predicate Sound(tbl: Table) {
    Distinct(tbl.order) && Elements(tbl.order) == tbl.rows.Keys
  }

  lemma AddKeepsSound(tbl: Table, x: TaskInput)
    requires Sound(tbl)
    ensures Sound(Add(tbl, x))
  {
    if x.id !in tbl.rows {
      assert x.id !in Elements(tbl.order);
      assert Elements(tbl.order + [x.id]) == Elements(tbl.order) + {x.id};
    }
  }

  /** The table lists every id once. */
  lemma {:induction false} TableIs(inputs: seq<TaskInput>)
    ensures Sound(TableOf(inputs))
    ensures forall t :: t in TableOf(inputs).rows <==> exists x | x in inputs :: x.id == t
  {
    if inputs != [] {
      var n := |inputs| - 1;
      TableIs(inputs[..n]);
      AddKeepsSound(TableOf(inputs[..n]), inputs[n]);
      assert inputs == inputs[..n] + [inputs[n]];
    }
  }

  /** With unique ids it lists them in input order, each with its own values. */
  lemma {:induction false} TableInOrder(inputs: seq<TaskInput>)
    requires UniqueIds(inputs)
    ensures TableOf(inputs).order == IdsOf(inputs)
    ensures forall x | x in inputs :: x.id in TableOf(inputs).rows && TableOf(inputs).rows[x.id] == x
  {
    if inputs != [] {
      var n := |inputs| - 1;
      var init, x := inputs[..n], inputs[n];
      TableInOrder(init);
      NewRow(init, x);
      assert inputs == init + [x];
      assert IdsOf(inputs) == IdsOf(init) + [x.id];
      forall y | y in inputs ensures y.id in TableOf(inputs).rows && TableOf(inputs).rows[y.id] == y {
        assert y == x || y in init;
      }
    }
  }

  /** No later dict has the id of this one. */
  predicate IsLast(inputs: seq<TaskInput>, i: nat) {
    i < |inputs| && forall j | i < j < |inputs| :: inputs[j].id != inputs[i].id
  }

  /** Of the dicts with one id the last one counts. */
  lemma {:induction false} LastRowWins(inputs: seq<TaskInput>, i: nat)
    requires IsLast(inputs, i)
    ensures inputs[i].id in TableOf(inputs).rows && TableOf(inputs).rows[inputs[i].id] == inputs[i]
  {
    var n := |inputs| - 1;
    if i < n {
      LastRowWins(inputs[..n], i);
    }
  }

  lemma NewRow(inputs: seq<TaskInput>, x: TaskInput)
    requires forall y | y in inputs :: y.id != x.id
    ensures x.id !in TableOf(inputs).rows
  {
    TableIs(inputs);
  }

  predicate UniqueIds(inputs: seq<TaskInput>) {
    forall i, j | 0 <= i < j < |inputs| :: inputs[i].id != inputs[j].id
  }

  function IdsOf(inputs: seq<TaskInput>): seq<Id> {
    Map((x: TaskInput) => x.id, inputs)
  }

  function Dependencies(tbl: Table): Graph {
    map t | t in tbl.rows :: tbl.rows[t].dependsOn
  }

  /** The ranges that the state schema allows. */
  predicate InRange(x: TaskInput) {
    0 <= x.priority <= 9 && 0 <= x.maxRetries <= 10 && StateKeysOk(x.extra)
  }

  predicate AllInRange(tbl: Table) {
    forall t | t in tbl.rows :: InRange(tbl.rows[t])
  }

  /** The scheduler's plan for a table within the ranges. */
  function PlanOf(tbl: Table): Plan
    requires AllInRange(tbl)
  {
    Plan(tbl.order, map t | t in tbl.rows :: Spec(tbl.rows[t].priority, tbl.rows[t].dependsOn, tbl.rows[t].maxRetries))
  }

  /** How the records of a table start. */
  function StartsOf(tbl: Table): map<Id, Task>
    requires AllInRange(tbl)
  {
    map t | t in tbl.rows :: StartOf(tbl.rows[t].extra)
  }

  /** Every `retries` value is one that becomes an integer. */
  predicate RetriesConvert(inputs: seq<TaskInput>) {
    forall x | x in inputs :: IntOf(RawRetries(x.extra)).Converted?
  }

  /** A table that passes the checks is a well-formed plan. */
  lemma PlanOfIsWellFormed(tbl: Table)
    requires Sound(tbl) && AllInRange(tbl) && Acyclic(Dependencies(tbl)) && Closed(Dependencies(tbl))
    ensures WellFormed(PlanOf(tbl))
    ensures forall t | t in PlanOf(tbl).specs ::
      0 <= PlanOf(tbl).specs[t].priority <= 9 && PlanOf(tbl).specs[t].maxRetries <= 10
  {
    assert GraphOf(PlanOf(tbl)) == Dependencies(tbl);
    assert forall t | t in tbl.rows :: InRange(tbl.rows[t]);
  }

  /** The plan has exactly the tasks of the input, in order, each with its own values. */
  ghost predicate PlanLists(p: Plan, inputs: seq<TaskInput>) {
    && |p.order| == |inputs| && p.specs.Keys == Elements(p.order)
    && forall i | 0 <= i < |inputs| :: p.order[i] == inputs[i].id && SpecIs(p, inputs[i])
  }

  ghost predicate SpecIs(p: Plan, x: TaskInput) {
    && x.id in p.specs
    && p.specs[x.id].priority == x.priority
    && p.specs[x.id].dependsOn == x.dependsOn
    && p.specs[x.id].maxRetries == x.maxRetries
  }

  lemma PlanOfLists(inputs: seq<TaskInput>)
    requires UniqueIds(inputs) && AllInRange(TableOf(inputs))
    ensures PlanLists(PlanOf(TableOf(inputs)), inputs)
    ensures forall x | x in inputs :: SpecIs(PlanOf(TableOf(inputs)), x)
  {
    TableIs(inputs);
    TableInOrder(inputs);
    assert forall i | 0 <= i < |inputs| :: inputs[i] in inputs && IdsOf(inputs)[i] == inputs[i].id;
  }

  /** What the constructor accepts. */
  ghost predicate Buildable(inputs: seq<TaskInput>) {
    && RetriesConvert(inputs)
    && var tbl := TableOf(inputs);
    && Acyclic(Dependencies(tbl)) && Closed(Dependencies(tbl)) && AllInRange(tbl)
  }

  ghost predicate AllFresh(starts: map<Id, Task>) {
    forall t | t in starts :: starts[t] == FRESH_TASK
  }
}
