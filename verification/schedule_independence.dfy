/** The result of a run does not depend on scheduling: with the outcome of every attempt
    fixed, all runs that come to rest end with the same task statuses. */
module ScheduleIndependence {
  import opened DependencyGraph
  import opened Scheduler
  import opened RunHistory

  // ----- Fixed outcomes -----

  /** Whether attempt number `k` (from 0) of a task succeeds. */
  type Oracle = (Id, nat) -> bool

  predicate Agrees(o: Oracle, before: seq<Event>, e: Event) {
    match e
    case Spawned(_, _, _) => true
    case SpawnFailed(t, _, _) => !o(t, Failures(before, t))
    case Exited(t, _, code, _) => o(t, Failures(before, t)) <==> code == 0
  }

  /** Every attempt in the history ends as the oracle says. */
  predicate Follows(o: Oracle, es: seq<Event>) {
    es == [] || (Follows(o, es[..|es| - 1]) && Agrees(o, es[..|es| - 1], es[|es| - 1]))
  }

  predicate Succeeds(o: Oracle, t: Id, maxRetries: nat) {
    exists k | 0 <= k <= maxRetries :: o(t, k)
  }

  /** The status of `t` in the end, by recursion over the dependency graph. */
  ghost function Final(p: Plan, o: Oracle, t: Id): Status
    requires WellFormed(p) && t in p.specs
    decreases Rank(GraphOf(p), t)
  {
    if forall d | d in p.specs[t].dependsOn :: (DepRank(p, t, d); Final(p, o, d)) == Done then
      if Succeeds(o, t, p.specs[t].maxRetries) then Done else Terminal
    else
      Pending
  }

  lemma DepRank(p: Plan, t: Id, d: Id)
    requires WellFormed(p) && t in p.specs && d in p.specs[t].dependsOn
    ensures d in p.specs && Edge(GraphOf(p), t, d) && Rank(GraphOf(p), d) < Rank(GraphOf(p), t)
  {
    assert d in GraphOf(p)[t];
    EdgeLowersRank(GraphOf(p), t, d);
  }

  /** Nothing is running and nothing could start, even without backoff. */
  ghost predicate AtRest(p: Plan, s: State) {
    s.active == map[] && forall t | t in p.specs :: !Eligible(p, s, t)
  }

  // ----- Records agree with the oracle -----

  ghost predicate Foretold(o: Oracle, k: Task, t: Id) {
    && (forall i | 0 <= i < k.retries :: !o(t, i))
    && (k.status == Done ==> o(t, k.retries))
    && (k.status == Terminal ==> !o(t, k.retries))
  }

  lemma ForetoldActor(cfg: Config, o: Oracle, before: seq<Event>, maxRetries: nat, k: Task, e: Event)
    requires Foretold(o, k, e.t) && Accounted(cfg, before, k, e.t) && Agrees(o, before, e)
    requires k.status == if e.Exited? then Running else Pending
    ensures Foretold(o, TaskStep(cfg, maxRetries, k, e), e.t)
  {
  }

  lemma {:induction false} RunForetold(cfg: Config, p: Plan, o: Oracle, es: seq<Event>, s: State, t: Id)
    requires Run(cfg, p, es, s) && Follows(o, es) && t in p.specs
    ensures t in s.tasks && Foretold(o, s.tasks[t], t)
  {
    if es != [] {
      var n := |es| - 1;
      var s0 := RunPop(cfg, p, es, s);
      RunForetold(cfg, p, o, es[..n], s0, t);
      RunAccounts(cfg, p, es[..n], s0, t);
      RunInv(cfg, p, es[..n], s0);
      ActorStatus(cfg, p, s0, es[n]);
      if es[n].t == t {
        ForetoldActor(cfg, o, es[..n], p.specs[t].maxRetries, s0.tasks[t], es[n]);
      }
    }
  }

  // ----- The main theorem -----

  lemma AtRestTask(cfg: Config, p: Plan, s: State, t: Id)
    requires Inv(cfg, p, s) && AtRest(p, s) && t in s.tasks
    ensures s.tasks[t].status in {Pending, Done, Terminal}
    ensures s.tasks[t].status == Pending <==> !DepsDone(p, s.tasks, t)
    ensures s.tasks[t].status == Terminal ==> s.tasks[t].retries == p.specs[t].maxRetries
    ensures s.tasks[t].retries <= p.specs[t].maxRetries
  {
    assert TaskOk(p, s, t);
    if t in s.workerOf {
      assert false;
    }
    assert !Eligible(p, s, t);
  }

  lemma FinalFromDeps(p: Plan, o: Oracle, tasks: map<Id, Task>, t: Id)
    requires WellFormed(p) && t in p.specs
    requires forall d | d in p.specs[t].dependsOn :: d in p.specs && d in tasks && tasks[d].status == Final(p, o, d)
    ensures Final(p, o, t) ==
      if !DepsDone(p, tasks, t) then Pending
      else if Succeeds(o, t, p.specs[t].maxRetries) then Done
      else Terminal
  {
  }

  lemma FinishedAsForetold(o: Oracle, k: Task, t: Id, maxRetries: nat)
    requires Foretold(o, k, t) && k.retries <= maxRetries
    ensures k.status == Done ==> Succeeds(o, t, maxRetries)
    ensures k.status == Terminal && k.retries == maxRetries ==> !Succeeds(o, t, maxRetries)
  {
    if k.status == Terminal && k.retries == maxRetries {
      forall i | 0 <= i <= maxRetries ensures !o(t, i) {
      }
    }
  }

  /** A run at rest gives every task the status `Final`, whatever the interleaving,
      the parallel limit, the priorities, the backoff and the clock. */
  lemma {:induction false} RestStateIsFinal(cfg: Config, p: Plan, o: Oracle, es: seq<Event>, s: State, t: Id)
    requires WellFormed(p) && Run(cfg, p, es, s) && Follows(o, es) && AtRest(p, s) && t in p.specs
    ensures t in s.tasks && s.tasks[t].status == Final(p, o, t)
    decreases Rank(GraphOf(p), t)
  {
    RunInv(cfg, p, es, s);
    forall d | d in p.specs[t].dependsOn
      ensures d in p.specs && d in s.tasks && s.tasks[d].status == Final(p, o, d)
    {
      DepRank(p, t, d);
      RestStateIsFinal(cfg, p, o, es, s, d);
    }
    RunForetold(cfg, p, o, es, s, t);
    AtRestTask(cfg, p, s, t);
    FinalFromDeps(p, o, s.tasks, t);
    FinishedAsForetold(o, s.tasks[t], t, p.specs[t].maxRetries);
  }

  /** Two runs of one plan under different limits and schedules end alike. */
  lemma SchedulesAgree(cfg: Config, es: seq<Event>, s: State, cfg': Config, es': seq<Event>, s': State, p: Plan, o: Oracle)
    requires WellFormed(p)
    requires Run(cfg, p, es, s) && Follows(o, es) && AtRest(p, s)
    requires Run(cfg', p, es', s') && Follows(o, es') && AtRest(p, s')
    ensures s.tasks.Keys == s'.tasks.Keys && s.exitCode == s'.exitCode
    ensures forall t | t in s.tasks :: s.tasks[t].status == s'.tasks[t].status
  {
    RunInv(cfg, p, es, s);
    RunInv(cfg', p, es', s');
    forall t | t in p.specs ensures s.tasks[t].status == s'.tasks[t].status {
      RestStateIsFinal(cfg, p, o, es, s, t);
      RestStateIsFinal(cfg', p, o, es', s', t);
    }
    if t :| t in s.tasks && s.tasks[t].status == Terminal {
      assert s'.tasks[t].status == Terminal;
    }
    if t :| t in s'.tasks && s'.tasks[t].status == Terminal {
      assert s.tasks[t].status == Terminal;
    }
  }

  // ----- Every run can come to rest -----

  ghost function LargestId(ws: set<WorkerId>): (n: nat)
    ensures forall w | w in ws :: w <= n
  {
    if ws == {} then 0
    else
      var w :| w in ws;
      var n := LargestId(ws - {w});
      assert forall v | v in ws :: v == w || v in ws - {w};
      if w > n then w else n
  }

  /** While the scheduler is not at rest, some step is enabled that the oracle allows. */
  lemma NotAtRestCanStep(cfg: Config, p: Plan, o: Oracle, es: seq<Event>, s: State) returns (e: Event)
    requires cfg.maxParallel >= 1 && Run(cfg, p, es, s) && Follows(o, es) && !AtRest(p, s)
    ensures Enabled(cfg, p, s, e) && Follows(o, es + [e])
  {
    RunInv(cfg, p, es, s);
    if s.active != map[] {
      var w :| w in s.active;
      assert Paired(s, w, s.active[w]);
      var t := s.active[w];
      e := Exited(t, w, if o(t, Failures(es, t)) then 0 else 1, 0.0);
    } else {
      var t :| t in p.specs && Eligible(p, s, t);
      if o(t, Failures(es, t)) {
        e := Spawned(t, LargestId(s.active.Keys) + 1, s.tasks[t].retryAt);
      } else {
        e := SpawnFailed(t, s.tasks[t].retryAt, s.tasks[t].retryAt);
      }
    }
    assert (es + [e])[..|es|] == es;
  }

  /** Every run extends to one at rest, so a final result always exists. */
  lemma {:induction false} ComesToRest(cfg: Config, p: Plan, o: Oracle, es: seq<Event>, s: State)
    returns (es': seq<Event>, s': State)
    requires cfg.maxParallel >= 1 && WellFormed(p) && Run(cfg, p, es, s) && Follows(o, es)
    ensures es <= es' && Run(cfg, p, es', s') && Follows(o, es') && AtRest(p, s')
    decreases 2 * AttemptLimit(p) - |es|
  {
    RunsAreBounded(cfg, p, es, s);
    if AtRest(p, s) {
      es', s' := es, s;
    } else {
      var e := NotAtRestCanStep(cfg, p, o, es, s);
      RunPush(cfg, p, es, s, e);
      RunsAreBounded(cfg, p, es + [e], Apply(cfg, p, s, e));
      es', s' := ComesToRest(cfg, p, o, es + [e], Apply(cfg, p, s, e));
    }
  }

  // ----- What is left at rest -----

  ghost predicate WaitsOnTerminal(p: Plan, s: State, t: Id) {
    exists u | u in s.tasks && s.tasks[u].status == Terminal :: Reaches(GraphOf(p), t, u)
  }

  lemma {:induction false} PendingWaits(cfg: Config, p: Plan, s: State, t: Id)
    requires WellFormed(p) && Inv(cfg, p, s) && AtRest(p, s)
    requires t in s.tasks && s.tasks[t].status == Pending
    ensures WaitsOnTerminal(p, s, t)
    decreases Rank(GraphOf(p), t)
  {
    AtRestTask(cfg, p, s, t);
    var d :| d in p.specs[t].dependsOn && !(d in s.tasks && s.tasks[d].status == Done);
    DepRank(p, t, d);
    AtRestTask(cfg, p, s, d);
    if s.tasks[d].status == Terminal {
      EdgeReaches(GraphOf(p), t, d);
    } else {
      PendingWaits(cfg, p, s, d);
      var u :| u in s.tasks && s.tasks[u].status == Terminal && Reaches(GraphOf(p), d, u);
      EdgeThenReaches(GraphOf(p), t, d, u);
    }
  }

  /** Progress: with no active worker, either a pending task has all its dependencies done,
      or the pending tasks are exactly those that depend, directly or not, on a terminal one. */
  lemma BlockedExactly(cfg: Config, p: Plan, es: seq<Event>, s: State, t: Id)
    requires WellFormed(p) && Run(cfg, p, es, s) && AtRest(p, s) && t in p.specs
    ensures t in s.tasks && s.tasks[t].status in {Pending, Done, Terminal}
    ensures s.tasks[t].status == Pending <==> WaitsOnTerminal(p, s, t)
  {
    RunInv(cfg, p, es, s);
    AtRestTask(cfg, p, s, t);
    if s.tasks[t].status == Pending {
      PendingWaits(cfg, p, s, t);
    }
    if u :| u in s.tasks && s.tasks[u].status == Terminal && Reaches(GraphOf(p), t, u) {
      TransitiveDepsDone(cfg, p, es, s, t, u);
    }
  }

  // ----- Does the supervisor loop end? -----

  ghost predicate AllTerminal(s: State) {
    forall t | t in s.tasks :: s.tasks[t].status in {Done, Terminal}
  }

  ghost predicate AllDone(s: State) {
    forall t | t in s.tasks :: s.tasks[t].status == Done
  }

  lemma LoopEndsByStatus(cfg: Config, p: Plan, es: seq<Event>, s: State)
    requires WellFormed(p) && Run(cfg, p, es, s) && AtRest(p, s)
    ensures AllTerminal(s) <==> forall t, d | Edge(GraphOf(p), t, d) :: d in s.tasks && s.tasks[d].status != Terminal
  {
    RunInv(cfg, p, es, s);
    var g := GraphOf(p);
    if AllTerminal(s) {
      forall t, d | Edge(g, t, d) ensures d in s.tasks && s.tasks[d].status != Terminal {
        EdgeReaches(g, t, d);
        BlockedExactly(cfg, p, es, s, t);
      }
    } else {
      var t :| t in s.tasks && s.tasks[t].status !in {Done, Terminal};
      BlockedExactly(cfg, p, es, s, t);
      var u :| u in s.tasks && s.tasks[u].status == Terminal && Reaches(g, t, u);
      var walk :| WalkBetween(g, walk, t, u);
      assert Edge(g, walk[|walk| - 2], u);
    }
  }

  /** Every task that some task depends on succeeds within its retries. */
  ghost predicate DependenciesSucceed(p: Plan, o: Oracle) {
    forall t, d | Edge(GraphOf(p), t, d) :: Succeeds(o, d, p.specs[d].maxRetries)
  }

  /** The loop's exit test is met at rest exactly when every task that another depends on has
      an attempt that succeeds; which is known from the plan and the outcomes. */
  lemma LoopEndsExactly(cfg: Config, p: Plan, o: Oracle, es: seq<Event>, s: State)
    requires WellFormed(p) && Run(cfg, p, es, s) && Follows(o, es) && AtRest(p, s)
    ensures AllTerminal(s) <==> DependenciesSucceed(p, o)
  {
    RunInv(cfg, p, es, s);
    LoopEndsByStatus(cfg, p, es, s);
    forall t, d | Edge(GraphOf(p), t, d)
      ensures d in s.tasks && (s.tasks[d].status == Terminal ==> !Succeeds(o, d, p.specs[d].maxRetries))
      ensures s.tasks[d].status == Done ==> Succeeds(o, d, p.specs[d].maxRetries)
    {
      AtRestTask(cfg, p, s, d);
      RunForetold(cfg, p, o, es, s, d);
      FinishedAsForetold(o, s.tasks[d], d, p.specs[d].maxRetries);
    }
  }

  /** The oracle in which the recorded failures of each task are all that ever fail. */
  ghost function OracleOf(es: seq<Event>): Oracle {
    (t: Id, k: nat) => k >= Failures(es, t)
  }

  lemma {:induction false} FailuresGrow(es: seq<Event>, n: nat, t: Id)
    requires n <= |es|
    ensures Failures(es[..n], t) <= Failures(es, t)
    decreases |es|
  {
    if n == |es| {
      assert es[..n] == es;
    } else {
      TakeTake(es, |es| - 1, n);
      FailuresGrow(es[..|es| - 1], n, t);
    }
  }

  lemma AgreesWithOwn(cfg: Config, p: Plan, es: seq<Event>, s: State, i: nat)
    requires Run(cfg, p, es, s) && i < |es|
    ensures Agrees(OracleOf(es), es[..i], es[i])
  {
    var t := es[i].t;
    var s1 := RunPrefix(cfg, p, es, s, i + 1);
    var s0 := RunPop(cfg, p, es[..i + 1], s1);
    TakeTake(es, i + 1, i);
    FailuresGrow(es, i + 1, t);
    if es[i].Exited? && es[i].code == 0 {
      FinishedIsFinal(cfg, p, es[..i + 1], s1, es, s, t);
      RunInv(cfg, p, es, s);
      RunAccounts(cfg, p, es, s, t);
      RunAccounts(cfg, p, es[..i + 1], s1, t);
    }
  }

  lemma {:induction false} FollowsPrefix(cfg: Config, p: Plan, es: seq<Event>, s: State, n: nat)
    requires Run(cfg, p, es, s) && n <= |es|
    ensures Follows(OracleOf(es), es[..n])
  {
    if n > 0 {
      TakeTake(es, n, n - 1);
      FollowsPrefix(cfg, p, es, s, n - 1);
      AgreesWithOwn(cfg, p, es, s, n - 1);
    }
  }

  /** Every run follows some oracle, so nothing said of the oracles that a run follows is empty. */
  lemma RunFollowsAnOracle(cfg: Config, p: Plan, es: seq<Event>, s: State)
    requires Run(cfg, p, es, s)
    ensures Follows(OracleOf(es), es)
  {
    FollowsPrefix(cfg, p, es, s, |es|);
    assert es[..|es|] == es;
  }

  /** At rest, and only there, nothing can happen any more: the supervisor only polls. */
  lemma AtRestExactly(cfg: Config, p: Plan, es: seq<Event>, s: State)
    requires cfg.maxParallel >= 1 && Run(cfg, p, es, s)
    ensures AtRest(p, s) <==> forall e :: !Enabled(cfg, p, s, e)
  {
    if !AtRest(p, s) {
      RunFollowsAnOracle(cfg, p, es, s);
      var e := NotAtRestCanStep(cfg, p, OracleOf(es), es, s);
    }
  }

  lemma ActiveMeansRunning(cfg: Config, p: Plan, s: State)
    requires Inv(cfg, p, s) && s.active != map[]
    ensures exists t | t in s.tasks :: s.tasks[t].status == Running
  {
    var w :| w in s.active;
    assert Paired(s, w, s.active[w]);
    assert TaskOk(p, s, s.active[w]);
  }

  /** A signal-free run that ends has exit code 0 if every task is done and 1 otherwise. */
  lemma ExitCodeExactly(cfg: Config, p: Plan, es: seq<Event>, s: State)
    requires Run(cfg, p, es, s) && AllTerminal(s)
    ensures s.exitCode == if AllDone(s) then 0 else 1
  {
    RunInv(cfg, p, es, s);
  }

  lemma AllTerminalIsAtRest(cfg: Config, p: Plan, es: seq<Event>, s: State)
    requires Run(cfg, p, es, s) && AllTerminal(s)
    ensures AtRest(p, s)
  {
    RunInv(cfg, p, es, s);
    if s.active != map[] {
      ActiveMeansRunning(cfg, p, s);
      assert false;
    }
  }

  /** Every task has an attempt that succeeds. */
  ghost predicate AllSucceed(p: Plan, o: Oracle) {
    forall t | t in p.specs :: Succeeds(o, t, p.specs[t].maxRetries)
  }

  /** A signal-free run that ends is completed exactly when every task has an attempt that
      succeeds. */
  lemma CompletedExactly(cfg: Config, p: Plan, o: Oracle, es: seq<Event>, s: State)
    requires WellFormed(p) && Run(cfg, p, es, s) && Follows(o, es) && AllTerminal(s)
    ensures AllDone(s) <==> AllSucceed(p, o)
  {
    AllTerminalIsAtRest(cfg, p, es, s);
    RunInv(cfg, p, es, s);
    FinallyDoneExactly(p, o);
    forall t | t in p.specs ensures s.tasks[t].status == Final(p, o, t) {
      RestStateIsFinal(cfg, p, o, es, s, t);
    }
  }

  lemma {:induction false} DoneIfAllSucceed(p: Plan, o: Oracle, t: Id)
    requires WellFormed(p) && t in p.specs && AllSucceed(p, o)
    ensures Final(p, o, t) == Done
    decreases Rank(GraphOf(p), t)
  {
    forall d | d in p.specs[t].dependsOn ensures d in p.specs && Final(p, o, d) == Done {
      DepRank(p, t, d);
      DoneIfAllSucceed(p, o, d);
    }
  }

  /** `Final` is done everywhere exactly when every task has an attempt that succeeds. */
  lemma FinallyDoneExactly(p: Plan, o: Oracle)
    requires WellFormed(p)
    ensures (forall t | t in p.specs :: Final(p, o, t) == Done) <==> AllSucceed(p, o)
  {
    if AllSucceed(p, o) {
      forall t | t in p.specs ensures Final(p, o, t) == Done {
        DoneIfAllSucceed(p, o, t);
      }
    }
  }

  // ----- A run that never ends -----

  const STUCK_PLAN := Plan(["a", "b"], map["a" := Spec(5, [], 0), "b" := Spec(5, ["a"], 0)])

  lemma StuckPlanIsAccepted()
    ensures WellFormed(STUCK_PLAN)
  {
    var g, o := GraphOf(STUCK_PLAN), STUCK_PLAN.order;
    assert o[..1] == ["a"] && o[..1][..0] == [];
    assert Ordered(g, o[..1][..0]);
    assert Ordered(g, o[..1]);
    OrderExcludesCycles(g, o);
  }

  /** The smallest such case: `b` depends on `a`, and the only attempt of `a` fails.
      The exit test fails now, and no step is enabled that could ever change that. */
  lemma LoopCanRunForever(cfg: Config) returns (es: seq<Event>, s: State)
    requires cfg.maxParallel >= 1
    ensures WellFormed(STUCK_PLAN) && es == [SpawnFailed("a", 0.0, 0.0)]
    ensures Run(cfg, STUCK_PLAN, es, s) && AtRest(STUCK_PLAN, s)
    ensures "a" in s.tasks && s.tasks["a"].status == Terminal && "b" in s.tasks && s.tasks["b"].status == Pending
    ensures forall e :: !Enabled(cfg, STUCK_PLAN, s, e)
  {
    StuckPlanIsAccepted();
    var e := SpawnFailed("a", 0.0, 0.0);
    es := [];
    var s0 := Init(STUCK_PLAN);
    RunStart(cfg, STUCK_PLAN);
    assert Ready(STUCK_PLAN, s0, "a", 0.0);
    RunPush(cfg, STUCK_PLAN, [], s0, e);
    es := [] + [e];
    s := Apply(cfg, STUCK_PLAN, s0, e);
    assert s.tasks["a"].status == Terminal;
  }
}
