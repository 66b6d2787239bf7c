/** The plan parser: validation and normalisation of a loaded YAML document. */
module PlanParser {
  import opened DependencyGraph
  import opened Wrappers
  import opened Text
  import opened YamlData
  import CycleCheck
  import TaskTable

  // ----- Tasks -----

  const KNOWN: set<string> := {"id", "prompt", "kind", "priority", "max_retries", "depends_on"}

  /** A normalised task; `extra` holds the keys that pass through. */
  datatype ParsedTask = ParsedTask(
    id: Id, prompt: string, kind: string, priority: int, maxRetries: int, dependsOn: seq<Id>, extra: Fields)

  /** The parser's errors, and the one exception that it lets through. */
  datatype PlanError =
    | NotAMapping | NoTasks | TasksNotAList | NoTaskAtAll | TaskNotAMapping(idx: nat)
    | MissingId(idx: nat) | BadId(idx: nat) | DuplicateId(id: Id)
    | MissingPrompt(id: Id) | BadPrompt(id: Id) | BadKind(id: Id)
    | BadPriority(id: Id) | PriorityOutOfRange(id: Id, i: int)
    | BadMaxRetries(id: Id) | MaxRetriesOutOfRange(id: Id, i: int)
    | DependsOnNotAList(id: Id) | BadDependency(id: Id, idx: nat)
    | UnknownDependency(id: Id, dep: Id) | CycleDetected(path: seq<Id>)
    | OverflowError

  function RawPriority(raw: Fields): Yaml { WithDefault(raw, "priority", YInt(5)) }
  function RawMaxRetries(raw: Fields): Yaml { WithDefault(raw, "max_retries", YInt(2)) }
  function RawKind(raw: Fields): Yaml { WithDefault(raw, "kind", YStr("general")) }
  function RawDependsOn(raw: Fields): Yaml { WithDefault(raw, "depends_on", YList([])) }

  predicate IntWithin(y: Yaml, hi: int) {
    IntOf(y).Converted? && 0 <= IntOf(y).i <= hi
  }

  /** What a task by itself must satisfy. */
  predicate Acceptable(raw: Fields) {
    && IsText(Lookup(raw, "id")) && IsText(Lookup(raw, "prompt"))
    && RawKind(raw).YStr?
    && IntWithin(RawPriority(raw), 9) && IntWithin(RawMaxRetries(raw), 10)
    && RawDependsOn(raw).YList?
    && AllText(RawDependsOn(raw).items)
  }

  function TaskId(raw: Fields): Id
    requires IsText(Lookup(raw, "id"))
  {
    TextOf(Lookup(raw, "id"))
  }

  function StripAll(items: seq<Yaml>): (deps: seq<Id>)
    requires AllText(items)
    ensures |deps| == |items| && forall i | 0 <= i < |items| :: deps[i] == TextOf(items[i])
  {
    seq(|items|, i requires 0 <= i < |items| => TextOf(items[i]))
  }

  function Extra(raw: Fields): Fields {
    map k | k in raw && k !in KNOWN :: raw[k]
  }

  function Normalised(raw: Fields): ParsedTask
    requires Acceptable(raw)
  {
    ParsedTask(TaskId(raw), TextOf(Lookup(raw, "prompt")), RawKind(raw).s,
               IntOf(RawPriority(raw)).i, IntOf(RawMaxRetries(raw)).i,
               StripAll(RawDependsOn(raw).items), Extra(raw))
  }

  /** What a task dict must satisfy, key by key: an id and a prompt that are not blank, and of
      the optional keys a kind that is a string, integers within their ranges, and a list of
      strings that are not blank. */
  lemma AcceptableExactly(raw: Fields)
    ensures Acceptable(raw) <==>
      && "id" in raw && raw["id"].YStr? && !AllSpace(raw["id"].s)
      && "prompt" in raw && raw["prompt"].YStr? && !AllSpace(raw["prompt"].s)
      && ("kind" in raw ==> raw["kind"].YStr?)
      && ("priority" in raw ==> IntOf(raw["priority"]).Converted? && 0 <= IntOf(raw["priority"]).i <= 9)
      && ("max_retries" in raw ==> IntOf(raw["max_retries"]).Converted? && 0 <= IntOf(raw["max_retries"]).i <= 10)
      && ("depends_on" in raw ==>
            && raw["depends_on"].YList?
            && forall d | d in raw["depends_on"].items :: d.YStr? && !AllSpace(d.s))
  {
    TextExactly(Lookup(raw, "id"));
    TextExactly(Lookup(raw, "prompt"));
    if RawDependsOn(raw).YList? {
      AllTextExactly(RawDependsOn(raw).items);
    }
  }

  lemma TextExactly(y: Yaml)
    ensures IsText(y) <==> y.YStr? && !AllSpace(y.s)
  {
    if y.YStr? {
      BlankExactly(y.s);
    }
  }

  lemma AllTextExactly(items: seq<Yaml>)
    ensures AllText(items) <==> forall d | d in items :: d.YStr? && !AllSpace(d.s)
  {
    forall d | d in items ensures IsText(d) <==> d.YStr? && !AllSpace(d.s) {
      TextExactly(d);
    }
    assert AllText(items) <==> forall d | d in items :: IsText(d);
  }

  lemma BlankExactly(s: string)
    ensures Strip(s) == "" <==> AllSpace(s)
  {
    if AllSpace(s) {
      StripExactly(s, s, "", "");
    } else {
      var before, after := StripIs(s);
    }
  }

  /** What the normal form has of a task dict: the stripped id, prompt and dependencies, the
      optional values or their defaults, and the other keys as they are. */
  ghost predicate TaskSays(raw: Fields, t: ParsedTask) {
    && "id" in raw && raw["id"].YStr? && t.id == Strip(raw["id"].s)
    && "prompt" in raw && raw["prompt"].YStr? && t.prompt == Strip(raw["prompt"].s)
    && (if "kind" in raw then raw["kind"] == YStr(t.kind) else t.kind == "general")
    && (if "priority" in raw then IntOf(raw["priority"]) == Converted(t.priority) else t.priority == 5)
    && (if "max_retries" in raw then IntOf(raw["max_retries"]) == Converted(t.maxRetries) else t.maxRetries == 2)
    && DependenciesSay(raw, t.dependsOn)
    && (forall k | k in t.extra :: k in raw && t.extra[k] == raw[k])
    && (forall k | k in raw :: k in t.extra <==> k !in {"id", "prompt", "kind", "priority", "max_retries", "depends_on"})
  }

  ghost predicate DependenciesSay(raw: Fields, deps: seq<Id>) {
    if "depends_on" !in raw then deps == []
    else
      && raw["depends_on"].YList? && |deps| == |raw["depends_on"].items|
      && forall i | 0 <= i < |deps| :: raw["depends_on"].items[i].YStr? && deps[i] == Strip(raw["depends_on"].items[i].s)
  }

  lemma NormalisedSays(raw: Fields)
    requires Acceptable(raw)
    ensures TaskSays(raw, Normalised(raw))
  {
    var items := RawDependsOn(raw).items;
    assert forall i | 0 <= i < |items| :: IsText(items[i]);
  }

  method IntField(y: Yaml, hi: int, bad: PlanError, range: int -> PlanError) returns (r: Result<int, PlanError>)
    ensures r.Ok? <==> IntWithin(y, hi)
    ensures r.Ok? ==> r.value == IntOf(y).i
    ensures r.Err? ==> r.error == IntError(IntOf(y), bad, range)
  {
    match IntOf(y)
    case Rejected => return Err(bad);
    case Overflows => return Err(OverflowError);
    case Converted(i) =>
      if !(0 <= i <= hi) {
        return Err(range(i));
      }
      return Ok(i);
  }

  method DependsOnField(y: Yaml, id: Id) returns (r: Result<seq<Id>, PlanError>)
    ensures r.Ok? <==> y.YList? && AllText(y.items)
    ensures r.Ok? ==> r.value == StripAll(y.items)
    ensures r.Err? ==> r.error == if y.YList? then BadDependency(id, FirstBad(y.items)) else DependsOnNotAList(id)
  {
    if !y.YList? {
      return Err(DependsOnNotAList(id));
    }
    var deps: seq<Id> := [];
    for i := 0 to |y.items|
      invariant forall k | 0 <= k < i :: IsText(y.items[k])
      invariant |deps| == i && forall k | 0 <= k < i :: deps[k] == TextOf(y.items[k])
      invariant FirstBad(y.items) == i + FirstBad(y.items[i..])
    {
      if !IsText(y.items[i]) {
        return Err(BadDependency(id, i));
      }
      assert y.items[i..][1..] == y.items[i + 1..];
      deps := deps + [TextOf(y.items[i])];
    }
    return Ok(deps);
  }

  /** The position of the first entry that is not a non-blank string, or the length. */
  function FirstBad(items: seq<Yaml>): nat {
    if items == [] || !IsText(items[0]) then 0 else 1 + FirstBad(items[1..])
  }

  /** The first failing check of a task, in the order in which they are made. */
  function TaskError(raw: Fields, idx: nat, seen: set<Id>): Option<PlanError> {
    var id := Lookup(raw, "id");
    if id.YNull? then Some(MissingId(idx))
    else if !IsText(id) then Some(BadId(idx))
    else
      var t := Strip(id.s);
      if t in seen then Some(DuplicateId(t))
      else if Lookup(raw, "prompt").YNull? then Some(MissingPrompt(t))
      else if !IsText(Lookup(raw, "prompt")) then Some(BadPrompt(t))
      else if !RawKind(raw).YStr? then Some(BadKind(t))
      else if !IntWithin(RawPriority(raw), 9) then
        Some(IntError(IntOf(RawPriority(raw)), BadPriority(t), i => PriorityOutOfRange(t, i)))
      else if !IntWithin(RawMaxRetries(raw), 10) then
        Some(IntError(IntOf(RawMaxRetries(raw)), BadMaxRetries(t), i => MaxRetriesOutOfRange(t, i)))
      else if !RawDependsOn(raw).YList? then Some(DependsOnNotAList(t))
      else if FirstBad(RawDependsOn(raw).items) < |RawDependsOn(raw).items| then
        Some(BadDependency(t, FirstBad(RawDependsOn(raw).items)))
      else None
  }

  function IntError(c: Conversion, bad: PlanError, range: int -> PlanError): PlanError {
    match c
    case Converted(i) => range(i)
    case Rejected => bad
    case Overflows => OverflowError
  }

  /** The checks of a task, numbered in the order in which they are made. */
  ghost predicate Passes(raw: Fields, seen: set<Id>, n: nat) {
    match n
    case 0 => "id" in raw && raw["id"] != YNull
    case 1 => "id" in raw && raw["id"].YStr? && !AllSpace(raw["id"].s)
    case 2 => "id" in raw && raw["id"].YStr? && Strip(raw["id"].s) !in seen
    case 3 => "prompt" in raw && raw["prompt"] != YNull
    case 4 => "prompt" in raw && raw["prompt"].YStr? && !AllSpace(raw["prompt"].s)
    case 5 => "kind" in raw ==> raw["kind"].YStr?
    case 6 => "priority" in raw ==> IntOf(raw["priority"]).Converted? && 0 <= IntOf(raw["priority"]).i <= 9
    case 7 => "max_retries" in raw ==> IntOf(raw["max_retries"]).Converted? && 0 <= IntOf(raw["max_retries"]).i <= 10
    case 8 => "depends_on" in raw ==> raw["depends_on"].YList?
    case 9 => "depends_on" in raw && raw["depends_on"].YList? ==>
      forall d | d in raw["depends_on"].items :: d.YStr? && !AllSpace(d.s)
    case _ => true
  }

  /** The error of check `n`. */
  ghost predicate Reports(raw: Fields, idx: nat, n: nat, e: PlanError) {
    var id := if "id" in raw && raw["id"].YStr? then Strip(raw["id"].s) else "";
    match n
    case 0 => e == MissingId(idx)
    case 1 => e == BadId(idx)
    case 2 => e == DuplicateId(id)
    case 3 => e == MissingPrompt(id)
    case 4 => e == BadPrompt(id)
    case 5 => e == BadKind(id)
    case 6 => "priority" in raw && match IntOf(raw["priority"]) {
        case Rejected => e == BadPriority(id)
        case Overflows => e == OverflowError
        case Converted(i) => e == PriorityOutOfRange(id, i)
      }
    case 7 => "max_retries" in raw && match IntOf(raw["max_retries"]) {
        case Rejected => e == BadMaxRetries(id)
        case Overflows => e == OverflowError
        case Converted(i) => e == MaxRetriesOutOfRange(id, i)
      }
    case 8 => e == DependsOnNotAList(id)
    case 9 =>
      && "depends_on" in raw && raw["depends_on"].YList?
      && e.BadDependency? && e.id == id && IsFirstBad(raw["depends_on"].items, e.idx)
    case _ => false
  }

  ghost predicate IsFirstBad(items: seq<Yaml>, i: nat) {
    && i < |items| && !(items[i].YStr? && !AllSpace(items[i].s))
    && forall k | 0 <= k < i :: items[k].YStr? && !AllSpace(items[k].s)
  }

  /** The error is that of check `n`, the first one that the task fails. */
  ghost predicate FailsFirst(raw: Fields, idx: nat, seen: set<Id>, n: nat, e: PlanError) {
    && Reports(raw, idx, n, e) && !Passes(raw, seen, n)
    && forall k: nat | k < n :: Passes(raw, seen, k)
  }

  ghost predicate IsFirstFailure(raw: Fields, idx: nat, seen: set<Id>, e: PlanError) {
    exists n :: FailsFirst(raw, idx, seen, n, e)
  }

  lemma TaskErrorIsFirst(raw: Fields, idx: nat, seen: set<Id>)
    ensures TaskError(raw, idx, seen).Some? ==> IsFirstFailure(raw, idx, seen, TaskError(raw, idx, seen).value)
  {
    if TaskError(raw, idx, seen).Some? {
      var e := TaskError(raw, idx, seen).value;
      forall s: string ensures Strip(s) == "" <==> AllSpace(s) {
        BlankExactly(s);
      }
      var n: nat :=
        if !Passes(raw, seen, 0) then 0 else if !Passes(raw, seen, 1) then 1 else if !Passes(raw, seen, 2) then 2
        else if !Passes(raw, seen, 3) then 3 else if !Passes(raw, seen, 4) then 4 else if !Passes(raw, seen, 5) then 5
        else if !Passes(raw, seen, 6) then 6 else if !Passes(raw, seen, 7) then 7 else if !Passes(raw, seen, 8) then 8
        else 9;
      if n == 9 {
        FirstBadDependency(RawDependsOn(raw).items);
      }
      assert FailsFirst(raw, idx, seen, n, e);
    }
  }

  lemma {:induction false} FirstBadDependency(items: seq<Yaml>)
    ensures FirstBad(items) < |items| ==> IsFirstBad(items, FirstBad(items))
    ensures FirstBad(items) < |items| ==> exists d | d in items :: !(d.YStr? && !AllSpace(d.s))
  {
    if items != [] {
      if items[0].YStr? {
        BlankExactly(items[0].s);
      }
      FirstBadDependency(items[1..]);
    }
  }

  lemma {:induction false} FirstBadIs(items: seq<Yaml>)
    ensures FirstBad(items) <= |items|
    ensures FirstBad(items) == |items| <==> AllText(items)
  {
    if items != [] && IsText(items[0]) {
      FirstBadIs(items[1..]);
      assert forall i | 0 < i < |items| :: items[i] == items[1..][i - 1];
      assert AllText(items) <==> AllText(items[1..]);
    }
  }

  /** No check fails exactly when the task is acceptable and its id is new. */
  lemma TaskErrorExactly(raw: Fields, idx: nat, seen: set<Id>)
    ensures TaskError(raw, idx, seen).None? <==> Acceptable(raw) && TaskId(raw) !in seen
  {
    if RawDependsOn(raw).YList? {
      FirstBadIs(RawDependsOn(raw).items);
    }
  }

  method ValidateTask(raw: Fields, idx: nat, seen: set<Id>) returns (r: Result<ParsedTask, PlanError>)
    ensures r.Ok? <==> Acceptable(raw) && TaskId(raw) !in seen
    ensures r.Ok? ==> r.value == Normalised(raw)
    ensures r.Ok? ==> TaskSays(raw, r.value)
    ensures r.Err? ==> Some(r.error) == TaskError(raw, idx, seen)
    ensures r.Err? ==> IsFirstFailure(raw, idx, seen, r.error)
  {
    TaskErrorExactly(raw, idx, seen);
    TaskErrorIsFirst(raw, idx, seen);
    if Acceptable(raw) {
      NormalisedSays(raw);
    }
    var rawId := Lookup(raw, "id");
    if rawId.YNull? {
      return Err(MissingId(idx));
    }
    if !IsText(rawId) {
      return Err(BadId(idx));
    }
    var id := Strip(rawId.s);
    if id in seen {
      return Err(DuplicateId(id));
    }
    var prompt := Lookup(raw, "prompt");
    if prompt.YNull? {
      return Err(MissingPrompt(id));
    }
    if !IsText(prompt) {
      return Err(BadPrompt(id));
    }
    var kind := RawKind(raw);
    if !kind.YStr? {
      return Err(BadKind(id));
    }
    var priority := IntField(RawPriority(raw), 9, BadPriority(id), i => PriorityOutOfRange(id, i));
    if priority.Err? {
      return Err(priority.error);
    }
    var maxRetries := IntField(RawMaxRetries(raw), 10, BadMaxRetries(id), i => MaxRetriesOutOfRange(id, i));
    if maxRetries.Err? {
      return Err(maxRetries.error);
    }
    var dependsOn := DependsOnField(RawDependsOn(raw), id);
    if dependsOn.Err? {
      return Err(dependsOn.error);
    }
    return Ok(ParsedTask(id, Strip(prompt.s), kind.s, priority.value, maxRetries.value, dependsOn.value, Extra(raw)));
  }

  // ----- Task lists -----

  function IdsOf(tasks: seq<ParsedTask>): seq<Id> {
    Map((t: ParsedTask) => t.id, tasks)
  }

  function IdSet(tasks: seq<ParsedTask>): set<Id> {
    set t | t in tasks :: t.id
  }

  /** Validate tasks one after another; the first failure decides. */
  function TasksOf(raws: seq<Yaml>): Result<seq<ParsedTask>, PlanError> {
    if raws == [] then Ok([])
    else
      var n := |raws| - 1;
      match TasksOf(raws[..n])
      case Err(e) => Err(e)
      case Ok(tasks) =>
        if !raws[n].YMap? then Err(TaskNotAMapping(n))
        else
          TaskErrorExactly(raws[n].entries, n, IdSet(tasks));
          match TaskError(raws[n].entries, n, IdSet(tasks))
          case Some(e) => Err(e)
          case None => Ok(tasks + [Normalised(raws[n].entries)])
  }

  lemma TasksOfPush(raws: seq<Yaml>, i: nat, seen: set<Id>)
    requires i < |raws| && TasksOf(raws[..i]).Ok? && seen == IdSet(TasksOf(raws[..i]).value)
    ensures raws[i].YMap? && Acceptable(raws[i].entries) && TaskId(raws[i].entries) !in seen ==>
      TasksOf(raws[..i + 1]) == Ok(TasksOf(raws[..i]).value + [Normalised(raws[i].entries)])
    ensures raws[i].YMap? && TaskError(raws[i].entries, i, seen).Some? ==>
      TasksOf(raws[..i + 1]) == Err(TaskError(raws[i].entries, i, seen).value)
    ensures !raws[i].YMap? ==> TasksOf(raws[..i + 1]) == Err(TaskNotAMapping(i))
  {
    assert raws[..i + 1][..i] == raws[..i];
    if raws[i].YMap? {
      TaskErrorExactly(raws[i].entries, i, seen);
    }
  }

  predicate EachAcceptable(raws: seq<Yaml>) {
    forall i | 0 <= i < |raws| :: raws[i].YMap? && Acceptable(raws[i].entries)
  }

  predicate IdsDiffer(raws: seq<Yaml>)
    requires EachAcceptable(raws)
  {
    forall i, j | 0 <= i < j < |raws| :: TaskId(raws[i].entries) != TaskId(raws[j].entries)
  }

  /** A list is accepted exactly when every task is acceptable by itself and no two ids are
      equal after stripping; the result has the normal form of each, in order. */
  lemma {:induction false} TasksOfExactly(raws: seq<Yaml>)
    ensures TasksOf(raws).Ok? <==> EachAcceptable(raws) && IdsDiffer(raws)
    ensures TasksOf(raws).Ok? ==> |TasksOf(raws).value| == |raws|
    ensures TasksOf(raws).Ok? ==> forall i | 0 <= i < |raws| :: TasksOf(raws).value[i] == Normalised(raws[i].entries)
  {
    if raws != [] {
      var n := |raws| - 1;
      TasksOfExactly(raws[..n]);
      AcceptableByParts(raws);
      TasksOfByParts(raws);
      if TasksOf(raws[..n]).Ok? && raws[n].YMap? && Acceptable(raws[n].entries) {
        NewIdExactly(raws[..n], TasksOf(raws[..n]).value, TaskId(raws[n].entries));
      }
    }
  }

  lemma TasksOfByParts(raws: seq<Yaml>)
    requires raws != []
    ensures var n := |raws| - 1; var init := TasksOf(raws[..n]);
      && (TasksOf(raws).Ok? <==> init.Ok? && raws[n].YMap? && Acceptable(raws[n].entries)
                                 && TaskId(raws[n].entries) !in IdSet(init.value))
      && (TasksOf(raws).Ok? ==> TasksOf(raws).value == init.value + [Normalised(raws[n].entries)])
  {
    var n := |raws| - 1;
    if TasksOf(raws[..n]).Ok? {
      assert raws[..n + 1] == raws;
      TasksOfPush(raws, n, IdSet(TasksOf(raws[..n]).value));
      if raws[n].YMap? {
        TaskErrorExactly(raws[n].entries, n, IdSet(TasksOf(raws[..n]).value));
      }
    }
  }

  lemma AcceptableByParts(raws: seq<Yaml>)
    requires raws != []
    ensures var n := |raws| - 1; var init := raws[..n];
      && (EachAcceptable(raws) <==> EachAcceptable(init) && raws[n].YMap? && Acceptable(raws[n].entries))
      && (EachAcceptable(raws) ==> (IdsDiffer(raws) <==>
            IdsDiffer(init) && forall i | 0 <= i < n :: TaskId(init[i].entries) != TaskId(raws[n].entries)))
  {
    EachAcceptableByParts(raws);
    if EachAcceptable(raws) {
      IdsDifferByParts(raws);
    }
  }

  lemma EachAcceptableByParts(raws: seq<Yaml>)
    requires raws != []
    ensures var n := |raws| - 1;
      EachAcceptable(raws) <==> EachAcceptable(raws[..n]) && raws[n].YMap? && Acceptable(raws[n].entries)
  {
    var n := |raws| - 1;
    assert forall i | 0 <= i < n :: raws[..n][i] == raws[i];
  }

  lemma IdsDifferByParts(raws: seq<Yaml>)
    requires raws != [] && EachAcceptable(raws) && EachAcceptable(raws[..|raws| - 1])
    ensures var n := |raws| - 1; var init := raws[..n];
      IdsDiffer(raws) <==> IdsDiffer(init) && forall i | 0 <= i < n :: TaskId(init[i].entries) != TaskId(raws[n].entries)
  {
    var n := |raws| - 1;
    assert forall i | 0 <= i < n :: raws[..n][i] == raws[i];
  }

  lemma NewIdExactly(raws: seq<Yaml>, tasks: seq<ParsedTask>, id: Id)
    requires EachAcceptable(raws) && |tasks| == |raws|
    requires forall i | 0 <= i < |raws| :: tasks[i] == Normalised(raws[i].entries)
    ensures id !in IdSet(tasks) <==> forall i | 0 <= i < |raws| :: TaskId(raws[i].entries) != id
  {
    assert forall i | 0 <= i < |raws| :: tasks[i].id == TaskId(raws[i].entries) && tasks[i] in tasks;
  }

  lemma {:induction false} TasksOfStops(raws: seq<Yaml>, n: nat)
    requires n <= |raws| && TasksOf(raws[..n]).Err?
    ensures TasksOf(raws) == TasksOf(raws[..n])
  {
    if n == |raws| {
      assert raws[..n] == raws;
    } else {
      var init := raws[..|raws| - 1];
      assert init[..n] == raws[..n];
      TasksOfStops(init, n);
    }
  }

  lemma IdSetPush(tasks: seq<ParsedTask>, t: ParsedTask)
    ensures IdSet(tasks + [t]) == IdSet(tasks) + {t.id}
  {
    assert t in tasks + [t] && forall u | u in tasks :: u in tasks + [t];
  }

  /** The error is the first failure of the first task that fails. */
  ghost predicate FailsAtTask(raws: seq<Yaml>, i: nat, e: PlanError) {
    && i < |raws| && TasksOf(raws[..i]).Ok?
    && if raws[i].YMap? then IsFirstFailure(raws[i].entries, i, IdSet(TasksOf(raws[..i]).value), e)
       else e == TaskNotAMapping(i)
  }

  ghost predicate IsFirstBadTask(raws: seq<Yaml>, e: PlanError) {
    exists i :: FailsAtTask(raws, i, e)
  }

  method ValidateTasks(raws: seq<Yaml>) returns (r: Result<seq<ParsedTask>, PlanError>)
    ensures r == TasksOf(raws)
    ensures r.Err? ==> IsFirstBadTask(raws, r.error)
  {
    var tasks: seq<ParsedTask>, seenIds: set<Id> := [], {};
    for i := 0 to |raws|
      invariant TasksOf(raws[..i]) == Ok(tasks) && seenIds == IdSet(tasks)
    {
      TasksOfPush(raws, i, seenIds);
      if !raws[i].YMap? {
        TasksOfStops(raws, i + 1);
        assert FailsAtTask(raws, i, TaskNotAMapping(i));
        return Err(TaskNotAMapping(i));
      }
      var task := ValidateTask(raws[i].entries, i, seenIds);
      if task.Err? {
        TasksOfStops(raws, i + 1);
        assert FailsAtTask(raws, i, task.error);
        return Err(task.error);
      }
      IdSetPush(tasks, task.value);
      seenIds := seenIds + {task.value.id};
      tasks := tasks + [task.value];
    }
    assert raws[..|raws|] == raws;
    return Ok(tasks);
  }

  // ----- Dependencies -----

  function GraphOfTasks(tasks: seq<ParsedTask>): Graph {
    map id | id in IdSet(tasks) :: DependsOnOf(tasks, id)
  }

  /** The dependencies of the last task with this id. */
  function DependsOnOf(tasks: seq<ParsedTask>, id: Id): seq<Id> {
    if tasks == [] then []
    else if tasks[|tasks| - 1].id == id then tasks[|tasks| - 1].dependsOn
    else DependsOnOf(tasks[..|tasks| - 1], id)
  }

  lemma {:induction false} DependsOnOfTask(tasks: seq<ParsedTask>, i: nat)
    requires i < |tasks| && Distinct(IdsOf(tasks))
    ensures DependsOnOf(tasks, tasks[i].id) == tasks[i].dependsOn
    ensures tasks[i].id in IdSet(tasks)
    decreases |tasks|
  {
    var n := |tasks| - 1;
    if i < n {
      assert IdsOf(tasks)[i] != IdsOf(tasks)[n];
      assert IdsOf(tasks[..n]) == IdsOf(tasks)[..n];
      DependsOnOfTask(tasks[..n], i);
    }
  }

  /** With unique ids the graph has the tasks' own lists. */
  lemma GraphIs(tasks: seq<ParsedTask>)
    requires Distinct(IdsOf(tasks))
    ensures forall t | t in tasks :: t.id in GraphOfTasks(tasks) && GraphOfTasks(tasks)[t.id] == t.dependsOn
    ensures Closed(GraphOfTasks(tasks)) <==> forall t, d | t in tasks && d in t.dependsOn :: d in IdSet(tasks)
  {
    var g := GraphOfTasks(tasks);
    forall t | t in tasks ensures t.id in g && g[t.id] == t.dependsOn {
      var i :| 0 <= i < |tasks| && tasks[i] == t;
      DependsOnOfTask(tasks, i);
    }
    if Closed(g) {
      forall t, d | t in tasks && d in t.dependsOn ensures d in IdSet(tasks) {
        assert t.id in g && d in g[t.id];
        assert d in g;
      }
    }
    if forall t, d | t in tasks && d in t.dependsOn :: d in IdSet(tasks) {
      forall id, d | id in g && d in g[id] ensures d in g {
        var t :| t in tasks && t.id == id;
      }
    }
  }

  method FindUnknown(tasks: seq<ParsedTask>, seenIds: set<Id>) returns (r: Option<(Id, Id)>)
    ensures r.None? <==> forall t, d | t in tasks && d in t.dependsOn :: d in seenIds
    ensures r.Some? ==> exists t | t in tasks :: t.id == r.value.0 && r.value.1 in t.dependsOn && r.value.1 !in seenIds
  {
    for i := 0 to |tasks|
      invariant forall k, d | 0 <= k < i && d in tasks[k].dependsOn :: d in seenIds
    {
      var deps := tasks[i].dependsOn;
      for j := 0 to |deps|
        invariant forall k | 0 <= k < j :: deps[k] in seenIds
      {
        if deps[j] !in seenIds {
          assert tasks[i] in tasks;
          return Some((tasks[i].id, deps[j]));
        }
      }
    }
    return None;
  }

  // ----- Plans -----

  datatype ParsedPlan = ParsedPlan(tasks: seq<ParsedTask>, metadata: Fields)

  function SetDefault(m: Fields, key: string, default: Yaml): Fields {
    if key in m then m else m[key := default]
  }

  function MetadataOf(data: Fields): Fields {
    SetDefault(SetDefault(SetDefault(data - {"tasks"}, "name", YStr("")), "description", YStr("")), "max_parallel", YInt(4))
  }

  predicate HasTasks(data: Yaml) {
    data.YMap? && "tasks" in data.entries && data.entries["tasks"].YList? && data.entries["tasks"].items != []
  }

  function RawTasks(data: Yaml): seq<Yaml>
    requires HasTasks(data)
  {
    data.entries["tasks"].items
  }

  /** The plans that the parser accepts. */
  ghost predicate PlanOk(data: Yaml) {
    && HasTasks(data)
    && TasksOf(RawTasks(data)).Ok?
    && var g := GraphOfTasks(TasksOf(RawTasks(data)).value); Closed(g) && Acyclic(g)
  }

  function ParsedOf(data: Yaml): ParsedPlan
    requires HasTasks(data) && TasksOf(RawTasks(data)).Ok?
  {
    ParsedPlan(TasksOf(RawTasks(data)).value, MetadataOf(data.entries))
  }

  lemma ParsedIdsDistinct(raws: seq<Yaml>)
    requires TasksOf(raws).Ok?
    ensures Distinct(IdsOf(TasksOf(raws).value))
  {
    TasksOfExactly(raws);
    var tasks := TasksOf(raws).value;
    assert forall i | 0 <= i < |raws| :: tasks[i].id == TaskId(raws[i].entries);
  }

  /** One task per raw task, in order, and every other key as metadata, three with defaults. */
  ghost predicate PlanSays(data: Yaml, p: ParsedPlan)
    requires HasTasks(data)
  {
    && |p.tasks| == |RawTasks(data)|
    && (forall i | 0 <= i < |p.tasks| :: RawTasks(data)[i].YMap? && TaskSays(RawTasks(data)[i].entries, p.tasks[i]))
    && "tasks" !in p.metadata
    && (forall k | k in data.entries && k != "tasks" :: k in p.metadata && p.metadata[k] == data.entries[k])
    && (forall k | k in p.metadata && k !in data.entries ::
          || (k == "name" && p.metadata[k] == YStr("")) || (k == "description" && p.metadata[k] == YStr(""))
          || (k == "max_parallel" && p.metadata[k] == YInt(4)))
    && {"name", "description", "max_parallel"} <= p.metadata.Keys
  }

  lemma ParsedSays(data: Yaml)
    requires PlanOk(data)
    ensures PlanSays(data, ParsedOf(data))
  {
    var raws := RawTasks(data);
    TasksOfExactly(raws);
    forall i | 0 <= i < |raws| ensures raws[i].YMap? && TaskSays(raws[i].entries, ParsedOf(data).tasks[i]) {
      NormalisedSays(raws[i].entries);
    }
  }

  /** What an error of the parser says about the plan. */
  ghost predicate Explains(data: Yaml, e: PlanError) {
    match e
    case NotAMapping => !data.YMap?
    case NoTasks => data.YMap? && Lookup(data.entries, "tasks").YNull?
    case TasksNotAList => data.YMap? && !Lookup(data.entries, "tasks").YNull? && !Lookup(data.entries, "tasks").YList?
    case NoTaskAtAll => data.YMap? && Lookup(data.entries, "tasks") == YList([])
    case UnknownDependency(id, dep) =>
      && HasTasks(data) && TasksOf(RawTasks(data)).Ok?
      && CycleCheck.ReportsUnknown(GraphOfTasks(TasksOf(RawTasks(data)).value), id, dep)
    case CycleDetected(path) =>
      && HasTasks(data) && TasksOf(RawTasks(data)).Ok?
      && CycleCheck.ReportsCycle(GraphOfTasks(TasksOf(RawTasks(data)).value), path)
    case _ => HasTasks(data) && TasksOf(RawTasks(data)) == Err(e) && IsFirstBadTask(RawTasks(data), e)
  }

  /** References first, then the cycle check on a closed graph. */
  method CheckDependencies(tasks: seq<ParsedTask>) returns (r: Option<PlanError>)
    requires Distinct(IdsOf(tasks))
    ensures var g := GraphOfTasks(tasks); r.None? <==> Closed(g) && Acyclic(g)
    ensures r.Some? ==> match r.value
      case UnknownDependency(id, dep) => CycleCheck.ReportsUnknown(GraphOfTasks(tasks), id, dep)
      case CycleDetected(path) => CycleCheck.ReportsCycle(GraphOfTasks(tasks), path)
      case _ => false
  {
    GraphIs(tasks);
    var g := GraphOfTasks(tasks);
    var unknown := FindUnknown(tasks, IdSet(tasks));
    if unknown.Some? {
      return Some(UnknownDependency(unknown.value.0, unknown.value.1));
    }
    assert Elements(IdsOf(tasks)) == g.Keys by {
      forall id | id in g ensures id in IdsOf(tasks) {
        var t :| t in tasks && t.id == id;
        var i :| 0 <= i < |tasks| && tasks[i] == t;
        assert IdsOf(tasks)[i] == id;
      }
    }
    var checker := new CycleCheck.Checker(g, IdsOf(tasks), false);
    var verdict := checker.Check();
    match verdict
    case Accepted => return None;
    case CycleFound(path) => return Some(CycleDetected(path));
    case UnknownDependency(_, _) => assert false;
  }

  method ParsePlanDict(data: Yaml) returns (r: Result<ParsedPlan, PlanError>)
    ensures r.Ok? <==> PlanOk(data)
    ensures r.Ok? ==> r.value == ParsedOf(data)
    ensures r.Ok? ==> PlanSays(data, r.value)
    ensures r.Err? ==> Explains(data, r.error)
  {
    if PlanOk(data) {
      ParsedSays(data);
    }
    if !data.YMap? {
      return Err(NotAMapping);
    }
    var rawTasks := Lookup(data.entries, "tasks");
    if rawTasks.YNull? {
      return Err(NoTasks);
    }
    if !rawTasks.YList? {
      return Err(TasksNotAList);
    }
    if rawTasks.items == [] {
      return Err(NoTaskAtAll);
    }
    var tasks := ValidateTasks(rawTasks.items);
    if tasks.Err? {
      TaskErrorsAreNotDependencyErrors(rawTasks.items);
      return Err(tasks.error);
    }
    ParsedIdsDistinct(rawTasks.items);
    var problem := CheckDependencies(tasks.value);
    if problem.Some? {
      return Err(problem.value);
    }
    var metadata := data.entries - {"tasks"};
    metadata := SetDefault(metadata, "name", YStr(""));
    metadata := SetDefault(metadata, "description", YStr(""));
    metadata := SetDefault(metadata, "max_parallel", YInt(4));
    return Ok(ParsedPlan(tasks.value, metadata));
  }

  predicate IsTaskError(e: PlanError) {
    !(e.NotAMapping? || e.NoTasks? || e.TasksNotAList? || e.NoTaskAtAll? || e.UnknownDependency? || e.CycleDetected?)
  }

  lemma TaskErrorKinds(raw: Fields, idx: nat, seen: set<Id>)
    ensures TaskError(raw, idx, seen).Some? ==> IsTaskError(TaskError(raw, idx, seen).value)
  {
  }

  lemma {:induction false} TaskErrorsAreNotDependencyErrors(raws: seq<Yaml>)
    ensures TasksOf(raws).Err? ==> IsTaskError(TasksOf(raws).error)
  {
    if raws != [] {
      var n := |raws| - 1;
      TaskErrorsAreNotDependencyErrors(raws[..n]);
      if TasksOf(raws[..n]).Ok? {
        var seen := IdSet(TasksOf(raws[..n]).value);
        assert raws[..n + 1] == raws;
        TasksOfPush(raws, n, seen);
        if raws[n].YMap? {
          TaskErrorExactly(raws[n].entries, n, seen);
          TaskErrorKinds(raws[n].entries, n, seen);
        }
      }
    }
  }

  // ----- Re-parsing -----

  function TextList(deps: seq<Id>): (items: seq<Yaml>)
    ensures |items| == |deps| && forall i | 0 <= i < |deps| :: items[i] == YStr(deps[i])
  {
    seq(|deps|, i requires 0 <= i < |deps| => YStr(deps[i]))
  }

  /** The dict of a parsed task. */
  function TaskDict(t: ParsedTask): Fields {
    t.extra["id" := YStr(t.id)]["prompt" := YStr(t.prompt)]["kind" := YStr(t.kind)]
      ["priority" := YInt(t.priority)]["max_retries" := YInt(t.maxRetries)]["depends_on" := YList(TextList(t.dependsOn))]
  }

  function TaskDicts(tasks: seq<ParsedTask>): (raws: seq<Yaml>)
    ensures |raws| == |tasks| && forall i | 0 <= i < |tasks| :: raws[i] == YMap(TaskDict(tasks[i]))
  {
    seq(|tasks|, i requires 0 <= i < |tasks| => YMap(TaskDict(tasks[i])))
  }

  function PlanDict(p: ParsedPlan): Yaml {
    YMap(p.metadata["tasks" := YList(TaskDicts(p.tasks))])
  }

  lemma NormalTextKept(raws: seq<Yaml>)
    requires AllText(raws)
    ensures AllText(TextList(StripAll(raws)))
    ensures StripAll(TextList(StripAll(raws))) == StripAll(raws)
  {
    var again := TextList(StripAll(raws));
    forall i | 0 <= i < |raws| ensures IsText(again[i]) && TextOf(again[i]) == TextOf(raws[i]) {
      assert IsText(raws[i]);
      StripTwice(raws[i].s);
    }
  }

  /** Normalising a normal form changes nothing. */
  lemma TaskFixpoint(raw: Fields)
    requires Acceptable(raw)
    ensures var t := Normalised(raw); Acceptable(TaskDict(t)) && Normalised(TaskDict(t)) == t
  {
    var t := Normalised(raw);
    var d := TaskDict(t);
    StripTwice(raw["id"].s);
    StripTwice(raw["prompt"].s);
    NormalTextKept(RawDependsOn(raw).items);
    assert Extra(d) == t.extra;
  }

  lemma TasksFixpoint(raws: seq<Yaml>)
    requires TasksOf(raws).Ok?
    ensures TasksOf(TaskDicts(TasksOf(raws).value)) == TasksOf(raws)
  {
    TasksOfExactly(raws);
    ParsedIdsDistinct(raws);
    var tasks := TasksOf(raws).value;
    var again := TaskDicts(tasks);
    forall i | 0 <= i < |raws|
      ensures Acceptable(again[i].entries) && Normalised(again[i].entries) == tasks[i]
      ensures TaskId(again[i].entries) == tasks[i].id
    {
      TaskFixpoint(raws[i].entries);
    }
    assert IdsDiffer(again) by {
      forall i, j | 0 <= i < j < |again| ensures TaskId(again[i].entries) != TaskId(again[j].entries) {
        assert IdsOf(tasks)[i] != IdsOf(tasks)[j];
      }
    }
    TasksOfExactly(again);
    assert TasksOf(again).value == tasks;
  }

  lemma MetadataFixpoint(data: Fields, tasks: Yaml)
    ensures var m := MetadataOf(data); "tasks" !in m && MetadataOf(m["tasks" := tasks]) == m
  {
    var m := MetadataOf(data);
    assert m["tasks" := tasks] - {"tasks"} == m;
  }

  /** Re-parsing a parsed plan accepts it and returns it unchanged. */
  lemma ReparseIsIdentity(data: Yaml)
    requires PlanOk(data)
    ensures PlanOk(PlanDict(ParsedOf(data))) && ParsedOf(PlanDict(ParsedOf(data))) == ParsedOf(data)
  {
    var p := ParsedOf(data);
    var again := PlanDict(p);
    TasksOfExactly(RawTasks(data));
    TasksFixpoint(RawTasks(data));
    assert RawTasks(again) == TaskDicts(p.tasks) && |p.tasks| > 0;
    MetadataFixpoint(data.entries, YList(TaskDicts(p.tasks)));
  }

  /** An accepted plan has the stripped ids, all different, in input order. */
  lemma AcceptedIds(data: Yaml)
    requires PlanOk(data)
    ensures var tasks, raws := ParsedOf(data).tasks, RawTasks(data);
      && Distinct(IdsOf(tasks)) && |tasks| == |raws|
      && forall i | 0 <= i < |raws| :: raws[i].YMap? && Acceptable(raws[i].entries) && tasks[i].id == TaskId(raws[i].entries)
  {
    TasksOfExactly(RawTasks(data));
    ParsedIdsDistinct(RawTasks(data));
  }

  // ----- From the parser to the orchestrator -----

  /** The dicts of parsed tasks, as the orchestrator reads them. */
  function TaskInputs(tasks: seq<ParsedTask>): (xs: seq<TaskTable.TaskInput>)
    ensures |xs| == |tasks| && forall i | 0 <= i < |tasks| :: xs[i] == TaskInputOf(tasks[i])
  {
    Map(TaskInputOf, tasks)
  }

  function TaskInputOf(t: ParsedTask): TaskTable.TaskInput {
    TaskTable.TaskInput(t.id, t.priority, t.dependsOn, t.maxRetries, t.extra)
  }

  lemma InputsOf(tasks: seq<ParsedTask>)
    requires Distinct(IdsOf(tasks))
    ensures TaskTable.UniqueIds(TaskInputs(tasks)) && TaskTable.TableOf(TaskInputs(tasks)).order == IdsOf(tasks)
  {
    var xs := TaskInputs(tasks);
    forall i, j | 0 <= i < j < |xs| ensures xs[i].id != xs[j].id {
      assert IdsOf(tasks)[i] != IdsOf(tasks)[j];
    }
    assert TaskTable.IdsOf(xs) == IdsOf(tasks);
    TaskTable.TableInOrder(xs);
  }

  /** The row of an id is its task's. */
  lemma RowOf(tasks: seq<ParsedTask>, i: nat)
    requires Distinct(IdsOf(tasks)) && i < |tasks|
    ensures var tbl := TaskTable.TableOf(TaskInputs(tasks));
      tasks[i].id in tbl.rows && tbl.rows[tasks[i].id] == TaskInputs(tasks)[i]
  {
    InputsOf(tasks);
    TaskTable.TableInOrder(TaskInputs(tasks));
    assert TaskInputs(tasks)[i] in TaskInputs(tasks);
  }

  lemma RowIndex(tasks: seq<ParsedTask>, id: Id) returns (i: nat)
    requires Distinct(IdsOf(tasks))
    requires id in TaskTable.TableOf(TaskInputs(tasks)).rows || id in IdSet(tasks)
    ensures i < |tasks| && tasks[i].id == id
  {
    var xs := TaskInputs(tasks);
    TaskTable.TableIs(xs);
    assert exists x | x in xs :: x.id == id by {
      if id in IdSet(tasks) {
        var t :| t in tasks && t.id == id;
        var k :| 0 <= k < |tasks| && tasks[k] == t;
        assert xs[k] in xs;
      }
    }
    var x :| x in xs && x.id == id;
    i :| 0 <= i < |xs| && xs[i] == x;
  }

  /** With unique ids the parser and the orchestrator check the same graph. */
  lemma SameGraph(tasks: seq<ParsedTask>)
    requires Distinct(IdsOf(tasks))
    ensures TaskTable.Dependencies(TaskTable.TableOf(TaskInputs(tasks))) == GraphOfTasks(tasks)
    ensures TaskTable.TableOf(TaskInputs(tasks)).order == IdsOf(tasks)
  {
    InputsOf(tasks);
    var g, h := GraphOfTasks(tasks), TaskTable.Dependencies(TaskTable.TableOf(TaskInputs(tasks)));
    forall id | id in g || id in h ensures id in g && id in h && g[id] == h[id] {
      var i := RowIndex(tasks, id);
      RowOf(tasks, i);
      DependsOnOfTask(tasks, i);
    }
  }

  lemma KeysInTable(tasks: seq<ParsedTask>)
    requires Distinct(IdsOf(tasks))
    requires forall t | t in tasks :: 0 <= t.priority <= 9 && 0 <= t.maxRetries <= 10
    ensures TaskTable.AllInRange(TaskTable.TableOf(TaskInputs(tasks)))
        <==> forall t | t in tasks :: TaskTable.StateKeysOk(t.extra)
  {
    var tbl := TaskTable.TableOf(TaskInputs(tasks));
    forall id | id in tbl.rows
      ensures exists t | t in tasks :: tbl.rows[id] == TaskInputOf(t)
    {
      var i := RowIndex(tasks, id);
      RowOf(tasks, i);
      assert tasks[i] in tasks;
    }
    forall t | t in tasks ensures t.id in tbl.rows && tbl.rows[t.id] == TaskInputOf(t) {
      var i :| 0 <= i < |tasks| && tasks[i] == t;
      RowOf(tasks, i);
    }
  }

  lemma TasksAgreeWithBuild(tasks: seq<ParsedTask>)
    requires Distinct(IdsOf(tasks))
    requires forall t | t in tasks :: 0 <= t.priority <= 9 && 0 <= t.maxRetries <= 10
    ensures var g := GraphOfTasks(tasks);
      TaskTable.Buildable(TaskInputs(tasks))
      <==> Closed(g) && Acyclic(g) && forall t | t in tasks :: TaskTable.StateKeysOk(t.extra)
  {
    SameGraph(tasks);
    KeysInTable(tasks);
    if forall t | t in tasks :: TaskTable.StateKeysOk(t.extra) {
      forall x | x in TaskInputs(tasks) ensures IntOf(TaskTable.RawRetries(x.extra)).Converted? {
        var i :| 0 <= i < |tasks| && TaskInputs(tasks)[i] == x;
        assert tasks[i] in tasks;
      }
    }
  }

  /** The keys that the orchestrator reads are among those that the parser passes through. */
  lemma StateKeysPass(raw: Fields)
    ensures TaskTable.StateKeysOk(Extra(raw)) <==> TaskTable.StateKeysOk(raw)
    ensures TaskTable.StateKeysOk(raw) ==> TaskTable.StartOf(Extra(raw)) == TaskTable.StartOf(raw)
  {
    assert {"status", "retries", "assigned_to", "last_error"} !! KNOWN;
  }

  /** What the raw dicts say of how their records start. */
  predicate AllStateKeysOk(raws: seq<Yaml>) {
    forall i | 0 <= i < |raws| && raws[i].YMap? :: TaskTable.StateKeysOk(raws[i].entries)
  }

  lemma StateKeysOfParsed(raws: seq<Yaml>)
    requires TasksOf(raws).Ok?
    ensures AllStateKeysOk(raws) <==> forall t | t in TasksOf(raws).value :: TaskTable.StateKeysOk(t.extra)
  {
    TasksOfExactly(raws);
    var tasks := TasksOf(raws).value;
    forall i | 0 <= i < |raws|
      ensures raws[i].YMap? && (TaskTable.StateKeysOk(tasks[i].extra) <==> TaskTable.StateKeysOk(raws[i].entries))
    {
      assert tasks[i] == Normalised(raws[i].entries);
      StateKeysPass(raws[i].entries);
    }
    assert forall i | 0 <= i < |raws| :: tasks[i] in tasks;
  }

  /** For tasks that the parser has normalised, the orchestrator can be built exactly when the
      parser accepts their dependencies and the raw dicts are fit to start records. */
  lemma ParserAgreesWithBuild(raws: seq<Yaml>)
    requires TasksOf(raws).Ok?
    ensures var tasks := TasksOf(raws).value; var g := GraphOfTasks(tasks);
      TaskTable.Buildable(TaskInputs(tasks)) <==> Closed(g) && Acyclic(g) && AllStateKeysOk(raws)
  {
    ParsedIdsDistinct(raws);
    TasksOfExactly(raws);
    var tasks := TasksOf(raws).value;
    forall t | t in tasks ensures 0 <= t.priority <= 9 && 0 <= t.maxRetries <= 10 {
      var i :| 0 <= i < |raws| && tasks[i] == t;
      assert t == Normalised(raws[i].entries);
    }
    TasksAgreeWithBuild(tasks);
    StateKeysOfParsed(raws);
  }
}
