/** Iterations of the supervisor loop as relations between histories: what one iteration
    does, what a finished run reports, and when the loop finishes. */
module SupervisorRuns {
  import opened DependencyGraph
  import opened Wrappers
  import opened Scheduler
  import opened ReadyQueue
  import opened StateDocument
  import RunHistory
  import ScheduleIndependence
  import Ulid

  // ----- The surroundings -----

  /** How starting a worker goes: it starts, it fails in one of the ways that are caught, with
      the clock reading after that, or an exception is raised that is not. */
  datatype SpawnOutcome = Starts | Fails(at: real) | Propagates

  /** What the surroundings answer to one spawn attempt: the clock and random bits of the
      new worker's id, and the outcome. */
  datatype SpawnInput = SpawnInput(candidate: Ulid.Value, outcome: SpawnOutcome)

  datatype Exit = Exit(code: int, at: real)

  /** The surroundings of one loop iteration: the clock, the answers to spawn attempts,
      whether polling a worker raises, and which workers turn out to have exited. */
  datatype LoopInput = LoopInput(now: real, env: Id -> SpawnInput, pollRaises: bool, exits: WorkerId -> Option<Exit>)

  /** The step that an attempt of `t` makes when the surroundings answer `input`. */
  ghost predicate IsAttemptOf(e: Event, t: Id, readAt: real, input: SpawnInput) {
    match input.outcome
    case Starts => e.Spawned? && e.t == t && e.readAt == readAt
    case Fails(at) => e == SpawnFailed(t, readAt, at)
    case Propagates => false
  }

  /** From position `n` on, the history holds one attempt of each of `ids`, in order. */
  ghost predicate AttemptedFrom(es: seq<Event>, n: nat, ids: seq<Id>, readAt: real, env: Id -> SpawnInput) {
    && |es| == n + |ids|
    && forall i | 0 <= i < |ids| :: IsAttemptOf(es[n + i], ids[i], readAt, env(ids[i]))
  }

  lemma AttemptsGrow(h: seq<Event>, n: nat, ids: seq<Id>, now: real, env: Id -> SpawnInput, e: Event, t: Id)
    requires AttemptedFrom(h, n, ids, now, env) && IsAttemptOf(e, t, now, env(t))
    ensures AttemptedFrom(h + [e], n, ids + [t], now, env)
  {
  }

  lemma PrefixKept(mid: seq<Event>, es: seq<Event>, n: nat, ids: seq<Id>, now: real, env: Id -> SpawnInput)
    requires mid <= es && AttemptedFrom(mid, n, ids, now, env)
    ensures AttemptedFrom(es[..|mid|], n, ids, now, env)
  {
    assert es[..|mid|] == mid;
  }

  // ----- Iterations as relations between histories -----

  /** From position `n` on, the history holds exits that the surroundings reported, in the
      order in which the workers were spawned, which is that of their ids. */
  ghost predicate ExitsFrom(es: seq<Event>, n: nat, exits: WorkerId -> Option<Exit>) {
    && n <= |es|
    && (forall i | n <= i < |es| :: es[i].Exited? && exits(es[i].w) == Some(Exit(es[i].code, es[i].at)))
    && forall i, j | n <= i < j < |es| :: es[i].w < es[j].w
  }

  /** From `es` and its state `s` one iteration leads to `es'` and `s'`: a prefix of the queue
      is attempted, all of it unless the parallel limit is met, and then every worker that
      was found to have exited is released. */
  ghost predicate IterationOf(cfg: Config, p: Plan, es: seq<Event>, s: State, attempted: seq<Id>,
                              es': seq<Event>, s': State, input: LoopInput) {
    var n := |es| + |attempted|;
    && Run(cfg, p, es, s) && Run(cfg, p, es', s') && es <= es' && n <= |es'|
    && attempted <= Queue(p, s, input.now)
    && AttemptedFrom(es'[..n], |es|, attempted, input.now, input.env)
    && (|s'.active| + |es'| - n >= cfg.maxParallel || attempted == Queue(p, s, input.now))
    && ExitsFrom(es', n, input.exits)
    && forall w | w in s'.active :: input.exits(w).None?
  }

  ghost predicate Iteration(cfg: Config, p: Plan, es: seq<Event>, es': seq<Event>, input: LoopInput) {
    exists s, attempted, s' :: IterationOf(cfg, p, es, s, attempted, es', s', input)
  }

  ghost predicate Unfinished(cfg: Config, p: Plan, es: seq<Event>) {
    exists s :: Run(cfg, p, es, s) && !ScheduleIndependence.AllTerminal(s)
  }

  ghost predicate IterationAt(cfg: Config, p: Plan, heads: seq<seq<Event>>, inputs: seq<LoopInput>, i: nat)
    requires i < |inputs| && |heads| == |inputs| + 1
  {
    Unfinished(cfg, p, heads[i]) && Iteration(cfg, p, heads[i], heads[i + 1], inputs[i])
  }

  /** The histories at the loop heads: one iteration per input, each from a head where the
      exit test fails. */
  ghost predicate LoopTrace(cfg: Config, p: Plan, heads: seq<seq<Event>>, inputs: seq<LoopInput>) {
    && |heads| == |inputs| + 1
    && forall i | 0 <= i < |inputs| :: IterationAt(cfg, p, heads, inputs, i)
  }

  /** The loop heads of the iterations that lead from `es` to `es'`. */
  ghost predicate Iterations(cfg: Config, p: Plan, es: seq<Event>, heads: seq<seq<Event>>, es': seq<Event>,
                             inputs: seq<LoopInput>) {
    LoopTrace(cfg, p, heads, inputs) && heads[0] == es && heads[|inputs|] == es'
  }

  lemma IterationsPush(cfg: Config, p: Plan, es: seq<Event>, heads: seq<seq<Event>>, mid: seq<Event>, s: State,
                       es': seq<Event>, inputs: seq<LoopInput>, i: nat)
    requires i < |inputs| && Iterations(cfg, p, es, heads, mid, inputs[..i])
    requires Run(cfg, p, mid, s) && !ScheduleIndependence.AllTerminal(s)
    requires Iteration(cfg, p, mid, es', inputs[i])
    ensures Iterations(cfg, p, es, heads + [es'], es', inputs[..i + 1])
  {
    var before, until := inputs[..i], inputs[..i + 1];
    var heads' := heads + [es'];
    assert Unfinished(cfg, p, mid);
    forall k | 0 <= k < |until| ensures IterationAt(cfg, p, heads', until, k) {
      if k < i {
        assert IterationAt(cfg, p, heads, before, k);
      }
    }
  }

  /** These workers are yet to exit, after those whose exits are in the history from `n` on. */
  ghost predicate ExitsBefore(es: seq<Event>, n: nat, ids: set<WorkerId>)
    requires forall i | n <= i < |es| :: es[i].Exited?
  {
    forall i, w | n <= i < |es| && w in ids :: es[i].w < w
  }

  lemma ExitsGrow(es: seq<Event>, n: nat, exits: WorkerId -> Option<Exit>, e: Event, ids: set<WorkerId>)
    requires ExitsFrom(es, n, exits) && e.Exited? && exits(e.w) == Some(Exit(e.code, e.at))
    requires ExitsBefore(es, n, ids) && e.w in ids && forall w | w in ids :: e.w <= w
    ensures ExitsFrom(es + [e], n, exits) && ExitsBefore(es + [e], n, ids - {e.w})
  {
  }

  // ----- Outcome -----

  /** What a finished, signal-free run reports, for every oracle that its history follows. */
  ghost predicate ReportsOutcome(p: Plan, es: seq<Event>, runStatus: RunStatus, exitCode: int) {
    && (runStatus == Completed || runStatus == RunFailed)
    && (runStatus == Completed <==> exitCode == 0)
    && forall o: ScheduleIndependence.Oracle | ScheduleIndependence.Follows(o, es) ::
      runStatus == Completed <==> ScheduleIndependence.AllSucceed(p, o)
  }

  lemma OutcomeReported(cfg: Config, p: Plan, es: seq<Event>, s: State, runStatus: RunStatus)
    requires WellFormed(p) && Run(cfg, p, es, s) && ScheduleIndependence.AllTerminal(s)
    requires runStatus == if ScheduleIndependence.AllDone(s) then Completed else RunFailed
    ensures ReportsOutcome(p, es, runStatus, s.exitCode)
  {
    ScheduleIndependence.ExitCodeExactly(cfg, p, es, s);
    forall o: ScheduleIndependence.Oracle | ScheduleIndependence.Follows(o, es)
      ensures runStatus == Completed <==> ScheduleIndependence.AllSucceed(p, o)
    {
      ScheduleIndependence.CompletedExactly(cfg, p, o, es, s);
    }
  }

  // ----- When the loop finishes -----

  /** At this loop head every wait is over, and every worker that is running then will have
      exited when it is polled. */
  ghost predicate PromptAt(cfg: Config, p: Plan, es: seq<Event>, input: LoopInput) {
    forall s | Run(cfg, p, es, s) ::
      && (forall t | t in s.tasks :: input.now >= s.tasks[t].retryAt)
      && (forall w | w in s.active :: input.exits(w).Some?)
  }

  ghost predicate Prompt(cfg: Config, p: Plan, heads: seq<seq<Event>>, inputs: seq<LoopInput>)
    requires |heads| == |inputs| + 1
  {
    forall i | 0 <= i < |inputs| :: PromptAt(cfg, p, heads[i], inputs[i])
  }

  /** An iteration that starts away from rest takes at least one step. */
  lemma IterationProgresses(cfg: Config, p: Plan, es: seq<Event>, s: State, es': seq<Event>, input: LoopInput)
    requires cfg.maxParallel >= 1 && WellFormed(p) && Run(cfg, p, es, s) && !ScheduleIndependence.AtRest(p, s)
    requires Iteration(cfg, p, es, es', input) && PromptAt(cfg, p, es, input)
    ensures |es'| > |es|
  {
    var s0, attempted, s' :| IterationOf(cfg, p, es, s0, attempted, es', s', input);
    RunHistory.RunUnique(cfg, p, es, s, s0);
    if |es'| == |es| {
      assert es' == es;
      RunHistory.RunUnique(cfg, p, es, s, s');
      assert s.active == map[];
      var t :| t in p.specs && Eligible(p, s, t);
      QueueIs(p, s, input.now);
      assert Ready(p, s, t, input.now);
    }
  }

  lemma NextIsEnabled(cfg: Config, p: Plan, es: seq<Event>, s: State, es': seq<Event>, s': State)
    requires Run(cfg, p, es, s) && Run(cfg, p, es', s') && es <= es' && |es| < |es'|
    ensures Enabled(cfg, p, s, es'[|es|])
  {
    var s1 := RunHistory.RunPrefix(cfg, p, es', s', |es| + 1);
    var s0 := RunPop(cfg, p, es'[..|es| + 1], s1);
    assert es'[..|es| + 1][..|es|] == es;
    RunHistory.RunUnique(cfg, p, es, s, s0);
  }

  /** Nothing follows a history that is at rest. */
  lemma RestIsKept(cfg: Config, p: Plan, es: seq<Event>, s: State, es': seq<Event>, s': State)
    requires Run(cfg, p, es, s) && ScheduleIndependence.AtRest(p, s) && Run(cfg, p, es', s') && es <= es'
    ensures es' == es && s' == s
  {
    if |es'| > |es| {
      NextIsEnabled(cfg, p, es, s, es', s');
      assert false;
    } else {
      assert es' == es;
      RunHistory.RunUnique(cfg, p, es, s, s');
    }
  }

  /** After `i` prompt iterations the loop is at rest or has taken at least `i` steps. */
  lemma {:induction false} HeadsProgress(cfg: Config, p: Plan, heads: seq<seq<Event>>, inputs: seq<LoopInput>,
                                         i: nat, s: State)
    requires cfg.maxParallel >= 1 && WellFormed(p) && LoopTrace(cfg, p, heads, inputs) && Prompt(cfg, p, heads, inputs)
    requires i <= |inputs| && Run(cfg, p, heads[i], s)
    ensures ScheduleIndependence.AtRest(p, s) || |heads[i]| >= |heads[0]| + i
  {
    if i > 0 {
      assert IterationAt(cfg, p, heads, inputs, i - 1);
      assert PromptAt(cfg, p, heads[i - 1], inputs[i - 1]);
      var s0 :| Run(cfg, p, heads[i - 1], s0);
      HeadsProgress(cfg, p, heads, inputs, i - 1, s0);
      assert heads[i - 1] <= heads[i];
      if ScheduleIndependence.AtRest(p, s0) {
        RestIsKept(cfg, p, heads[i - 1], s0, heads[i], s);
      } else {
        IterationProgresses(cfg, p, heads[i - 1], s0, heads[i], inputs[i - 1]);
      }
    }
  }

  /** Twice the attempt limit of prompt iterations brings the loop to rest. */
  lemma LoopComesToRest(cfg: Config, p: Plan, heads: seq<seq<Event>>, inputs: seq<LoopInput>, s: State)
    requires cfg.maxParallel >= 1 && WellFormed(p) && LoopTrace(cfg, p, heads, inputs) && Prompt(cfg, p, heads, inputs)
    requires |inputs| >= 2 * RunHistory.AttemptLimit(p) && Run(cfg, p, heads[|inputs|], s)
    ensures ScheduleIndependence.AtRest(p, s)
  {
    var es := heads[|inputs|];
    HeadsProgress(cfg, p, heads, inputs, |inputs|, s);
    RunHistory.RunsAreBounded(cfg, p, es, s);
    if !ScheduleIndependence.AtRest(p, s) {
      ScheduleIndependence.AtRestExactly(cfg, p, es, s);
      var e :| Enabled(cfg, p, s, e);
      RunInv(cfg, p, es, s);
      RunHistory.StepLowersMeasure(cfg, p, s, e);
      assert false;
    }
  }

  /** The loop has finished exactly if every task that another depends on succeeds. */
  ghost predicate FinishesExactly(p: Plan, es: seq<Event>, finished: bool) {
    forall o: ScheduleIndependence.Oracle | ScheduleIndependence.Follows(o, es) ::
      finished <==> ScheduleIndependence.DependenciesSucceed(p, o)
  }

  lemma RestFinishesExactly(cfg: Config, p: Plan, es: seq<Event>, s: State)
    requires WellFormed(p) && Run(cfg, p, es, s) && ScheduleIndependence.AtRest(p, s)
    ensures FinishesExactly(p, es, ScheduleIndependence.AllTerminal(s))
  {
    forall o: ScheduleIndependence.Oracle | ScheduleIndependence.Follows(o, es)
      ensures ScheduleIndependence.AllTerminal(s) <==> ScheduleIndependence.DependenciesSucceed(p, o)
    {
      ScheduleIndependence.LoopEndsExactly(cfg, p, o, es, s);
    }
  }

  /** The surroundings offer at least twice the attempt limit of inputs, prompt ones as far as
      they are used. */
  ghost predicate EnoughPrompt(cfg: Config, p: Plan, heads: seq<seq<Event>>, inputs: seq<LoopInput>, n: nat) {
    && cfg.maxParallel >= 1 && WellFormed(p) && |inputs| >= 2 * RunHistory.AttemptLimit(p)
    && n <= |inputs| && |heads| == n + 1 && Prompt(cfg, p, heads, inputs[..n])
  }

  /** Given twice the attempt limit of prompt inputs, the loop has gone through them all or
      finished before; either way it has finished exactly if the dependencies succeed. */
  lemma LoopFinishesExactly(cfg: Config, p: Plan, heads: seq<seq<Event>>, inputs: seq<LoopInput>, n: nat, s: State)
    requires EnoughPrompt(cfg, p, heads, inputs, n)
    requires LoopTrace(cfg, p, heads, inputs[..n]) && Run(cfg, p, heads[n], s)
    requires ScheduleIndependence.AllTerminal(s) || n == |inputs|
    ensures FinishesExactly(p, heads[n], ScheduleIndependence.AllTerminal(s))
  {
    if ScheduleIndependence.AllTerminal(s) {
      ScheduleIndependence.AllTerminalIsAtRest(cfg, p, heads[n], s);
    } else {
      LoopComesToRest(cfg, p, heads, inputs[..n], s);
    }
    RestFinishesExactly(cfg, p, heads[n], s);
  }
}
