/** What state.json says at the end of a run, and where it lags behind. */
module FinalDocument {
  import opened Scheduler
  import opened StateDocument
  import opened Persistence
  import ScheduleIndependence

  // ----- The end of a run -----

  /** The loop's exit test, from the history alone. */
  ghost predicate AllFinished(cfg: Config, p: Plan, es: seq<Event>) {
    forall t | t in p.specs :: TaskAfter(cfg, p, es, t).status in {Done, Terminal}
  }

  lemma FinishedIsTerminal(cfg: Config, p: Plan, es: seq<Event>, s: State)
    requires Run(cfg, p, es, s)
    ensures AllFinished(cfg, p, es) <==> ScheduleIndependence.AllTerminal(s)
  {
    RunInv(cfg, p, es, s);
    forall t | t in p.specs ensures s.tasks[t] == TaskAfter(cfg, p, es, t) {
      TaskAfterIs(cfg, p, es, s, t);
    }
  }

  /** The status that finalising records. */
  ghost function FinalStatus(cfg: Config, p: Plan, es: seq<Event>): RunStatus {
    if forall t | t in p.specs :: TaskAfter(cfg, p, es, t).status == Done then Completed else RunFailed
  }

  /** All store updates of a run, in the order in which the supervisor makes them. A run is
      finalised, with one more update, only when the loop's exit test is met. */
  ghost function RunUpdates(cfg: Config, p: Plan, total: nat -> real, es: seq<Event>, finalised: bool): seq<Update>
    requires KnownTasks(p, es) && (finalised ==> AllFinished(cfg, p, es))
  {
    UpdatesDuring(cfg, p, total, es) + if finalised then [StatusUpdate(FinalStatus(cfg, p, es))] else []
  }

  /** state.json after the history `es`. */
  ghost function DocAfter(cfg: Config, p: Plan, total: nat -> real, es: seq<Event>, finalised: bool): Doc
    requires KnownTasks(p, es) && (finalised ==> AllFinished(cfg, p, es))
  {
    var d := DocDuring(cfg, p, total, es);
    if finalised then AfterUpdate(d, StatusUpdate(FinalStatus(cfg, p, es))) else d
  }

  lemma DocAfterIs(cfg: Config, p: Plan, total: nat -> real, es: seq<Event>, finalised: bool)
    requires KnownTasks(p, es) && (finalised ==> AllFinished(cfg, p, es))
    ensures DocAfter(cfg, p, total, es, finalised) == AfterUpdates(InitialDoc(p), RunUpdates(cfg, p, total, es, finalised))
  {
    DocDuringIs(cfg, p, total, es);
    var us := UpdatesDuring(cfg, p, total, es);
    if finalised {
      var u := StatusUpdate(FinalStatus(cfg, p, es));
      UpdatesAppend(InitialDoc(p), us, [u]);
      FirstUpdate(DocDuring(cfg, p, total, es), u, []);
      assert [u] + [] == [u];
    } else {
      assert us + [] == us;
    }
  }

  lemma RunUpdatesOk(cfg: Config, p: Plan, total: nat -> real, es: seq<Event>, finalised: bool)
    requires KnownTasks(p, es) && (finalised ==> AllFinished(cfg, p, es))
    requires PlanInRange(p) && forall i :: total(i) >= 0.0
    ensures forall u | u in RunUpdates(cfg, p, total, es, finalised) :: UpdateOk(u)
  {
    UpdatesDuringOk(cfg, p, total, es);
  }

  /** From a plan within the schema's ranges and with non-negative costs, no update of a run is
      ever rejected by the schema, and the version counts the updates. */
  lemma RunKeepsSchema(cfg: Config, p: Plan, total: nat -> real, es: seq<Event>, finalised: bool)
    requires KnownTasks(p, es) && (finalised ==> AllFinished(cfg, p, es))
    requires PlanInRange(p) && forall i :: total(i) >= 0.0
    ensures SchemaOk(DocAfter(cfg, p, total, es, finalised))
    ensures DocAfter(cfg, p, total, es, finalised).version == UpdateCount(es) + if finalised then 1 else 0
  {
    DuringKeepsSchema(cfg, p, total, es);
  }

  lemma {:induction false} StatusDuring(cfg: Config, p: Plan, total: nat -> real, es: seq<Event>)
    requires KnownTasks(p, es)
    ensures DocDuring(cfg, p, total, es).status == Active
  {
    if es != [] {
      var n := |es| - 1;
      assert es[n] in es && forall e | e in es[..n] :: e in es;
      StatusDuring(cfg, p, total, es[..n]);
      StatusKept(DocDuring(cfg, p, total, es[..n]), UpdatesOf(p, es[n], TaskAfter(cfg, p, es, es[n].t), total(n)));
    }
  }

  lemma {:induction false} StatusKept(d: Doc, us: seq<Update>)
    requires forall u | u in us :: !u.StatusUpdate?
    ensures AfterUpdates(d, us).status == d.status
    decreases |us|
  {
    if us != [] {
      assert us[0] in us;
      StatusKept(AfterUpdate(d, us[0]), us[1..]);
    }
  }

  /** The persisted status of a run is running until it is finalised, and then completed
      exactly when every task has an attempt that succeeds. */
  lemma PersistedStatus(cfg: Config, p: Plan, o: ScheduleIndependence.Oracle, total: nat -> real,
                        es: seq<Event>, s: State, finalised: bool)
    requires WellFormed(p) && Run(cfg, p, es, s) && ScheduleIndependence.Follows(o, es)
    requires finalised ==> ScheduleIndependence.AllTerminal(s)
    ensures KnownTasks(p, es) && (finalised ==> AllFinished(cfg, p, es))
    ensures DocAfter(cfg, p, total, es, finalised).status ==
      if !finalised then Active else if ScheduleIndependence.AllSucceed(p, o) then Completed else RunFailed
  {
    RunKnown(cfg, p, es, s);
    StatusDuring(cfg, p, total, es);
    FinishedIsTerminal(cfg, p, es, s);
    if finalised {
      FinalStatusIs(cfg, p, es, s);
      ScheduleIndependence.CompletedExactly(cfg, p, o, es, s);
    }
  }

  lemma FinalStatusIs(cfg: Config, p: Plan, es: seq<Event>, s: State)
    requires Run(cfg, p, es, s)
    ensures FinalStatus(cfg, p, es) == if ScheduleIndependence.AllDone(s) then Completed else RunFailed
  {
    RunInv(cfg, p, es, s);
    forall t | t in p.specs ensures s.tasks[t] == TaskAfter(cfg, p, es, t) {
      TaskAfterIs(cfg, p, es, s, t);
    }
  }

  // ----- A record that lags -----

  /** The plan of `LoopCanRunForever`: task "a" is terminal, and its record reads pending. */
  lemma TerminalTaskReadsPending(cfg: Config, total: nat -> real) returns (s: State)
    requires cfg.maxParallel >= 1
    ensures var p, es := ScheduleIndependence.STUCK_PLAN, [SpawnFailed("a", 0.0, 0.0)];
      && WellFormed(p) && Run(cfg, p, es, s) && KnownTasks(p, es)
      && "a" in s.tasks && s.tasks["a"].status == Terminal
      && |DocDuring(cfg, p, total, es).tasks| == 2
      && DocDuring(cfg, p, total, es).tasks[0].id == "a" && DocDuring(cfg, p, total, es).tasks[0].status == Pending
  {
    var p := ScheduleIndependence.STUCK_PLAN;
    var es;
    es, s := ScheduleIndependence.LoopCanRunForever(cfg);
    PersistedTasks(cfg, p, total, es, s);
    PersistedAgreesExactly(cfg, p, total, es, s, 0);
    assert TaskIds(DocDuring(cfg, p, total, es).tasks)[0] == "a";
  }
}
