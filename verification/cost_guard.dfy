/** Cost accounting: per-worker totals kept in place, and what they say about the whole
    history of usage reports. */
module CostAccounting {
  import opened Wrappers

  const USD_PER_M_IN := 3.0
  const USD_PER_M_OUT := 15.0
  const WARN_FRACTION := 0.8

  datatype Usage = Usage(tokensIn: int, tokensOut: int, usd: Option<real>)

  /** An accepted usage report, with the clock reading, or a reset of a worker's counters. */
  datatype Entry = Used(worker: string, usage: Usage, at: real) | Reset(worker: string)

  datatype Amount = Amount(usd: real, tokensIn: int, tokensOut: int)

  datatype Stats = Stats(amount: Amount, overSince: Option<real>)

  datatype CostStatus = CostOk | Warn | OverPerWorker | OverGlobal

  const ZERO := Amount(0.0, 0, 0)

  function Plus(a: Amount, b: Amount): Amount {
    Amount(a.usd + b.usd, a.tokensIn + b.tokensIn, a.tokensOut + b.tokensOut)
  }

  function Minus(a: Amount, b: Amount): Amount {
    Amount(a.usd - b.usd, a.tokensIn - b.tokensIn, a.tokensOut - b.tokensOut)
  }

  /** The reported cost, or else the estimate from the token counts. */
  function CostOf(u: Usage): real {
    if u.usd.Some? then u.usd.value
    else u.tokensIn as real * USD_PER_M_IN / 1000000.0 + u.tokensOut as real * USD_PER_M_OUT / 1000000.0
  }

  function AmountOf(u: Usage): Amount {
    Amount(CostOf(u), u.tokensIn, u.tokensOut)
  }

  // ----- Accounts as functions of the history -----

  /** What `w` used since its last reset. */
  function Spent(es: seq<Entry>, w: string): Amount {
    if es == [] then ZERO
    else
      var before := Spent(es[..|es| - 1], w);
      match es[|es| - 1]
      case Used(v, u, _) => if v == w then Plus(before, AmountOf(u)) else before
      case Reset(v) => if v == w then ZERO else before
  }

  /** When `w` first exceeded the cap since its last reset. */
  function OverSince(cap: real, es: seq<Entry>, w: string): Option<real> {
    if es == [] then None
    else
      var before := OverSince(cap, es[..|es| - 1], w);
      match es[|es| - 1]
      case Used(v, _, at) =>
        if v == w && before.None? && Spent(es, w).usd > cap then Some(at) else before
      case Reset(v) => if v == w then None else before
  }

  function Seen(es: seq<Entry>): set<string> {
    if es == [] then {}
    else Seen(es[..|es| - 1]) + (if es[|es| - 1].Used? then {es[|es| - 1].worker} else {})
  }

  /** The running grand total: each report adds its amount, a reset takes an account away. */
  function Total(es: seq<Entry>): Amount {
    if es == [] then ZERO
    else
      var before := es[..|es| - 1];
      match es[|es| - 1]
      case Used(_, u, _) => Plus(Total(before), AmountOf(u))
      case Reset(v) => Minus(Total(before), Spent(before, v))
  }

  // ----- Sums over the accounts -----

  ghost function SumOver(ws: set<string>, es: seq<Entry>): Amount {
    if ws == {} then ZERO
    else
      var w :| w in ws;
      Plus(Spent(es, w), SumOver(ws - {w}, es))
  }

  lemma PlusSwap(a: Amount, b: Amount, c: Amount)
    ensures Plus(a, Plus(b, c)) == Plus(b, Plus(a, c))
  {
  }

  /** The order of summation does not matter. */
  lemma {:induction false} SumWithout(ws: set<string>, es: seq<Entry>, w: string)
    requires w in ws
    ensures SumOver(ws, es) == Plus(Spent(es, w), SumOver(ws - {w}, es))
    decreases |ws|
  {
    var v :| v in ws && SumOver(ws, es) == Plus(Spent(es, v), SumOver(ws - {v}, es));
    if v != w {
      var rest := ws - {v, w};
      SumWithout(ws - {v}, es, w);
      SumWithout(ws - {w}, es, v);
      assert ws - {v} - {w} == rest && ws - {w} - {v} == rest;
      PlusSwap(Spent(es, v), Spent(es, w), SumOver(rest, es));
    }
  }

  lemma {:induction false} SumSame(ws: set<string>, es: seq<Entry>, es': seq<Entry>)
    requires forall w | w in ws :: Spent(es, w) == Spent(es', w)
    ensures SumOver(ws, es) == SumOver(ws, es')
    decreases |ws|
  {
    if ws != {} {
      var w :| w in ws;
      SumWithout(ws, es, w);
      SumWithout(ws, es', w);
      SumSame(ws - {w}, es, es');
    }
  }

  lemma {:induction false} UnseenSpentNothing(es: seq<Entry>, w: string)
    requires w !in Seen(es)
    ensures Spent(es, w) == ZERO
  {
    if es != [] {
      UnseenSpentNothing(es[..|es| - 1], w);
    }
  }

  /** A report of `w` changes its account only. */
  lemma SumAfterReport(es: seq<Entry>, e: Entry)
    requires e.Used?
    ensures SumOver(Seen(es + [e]), es + [e]) == Plus(SumOver(Seen(es), es), AmountOf(e.usage))
  {
    var w, es' := e.worker, es + [e];
    assert es'[..|es|] == es;
    SumSame(Seen(es) - {w}, es, es');
    SumWithout(Seen(es'), es', w);
    assert Seen(es') - {w} == Seen(es) - {w};
    if w in Seen(es) {
      SumWithout(Seen(es), es, w);
    } else {
      UnseenSpentNothing(es, w);
      assert Seen(es) - {w} == Seen(es);
    }
  }

  lemma SumSplit(ws: set<string>, es: seq<Entry>, w: string)
    requires w in ws || Spent(es, w) == ZERO
    ensures SumOver(ws, es) == Plus(Spent(es, w), SumOver(ws - {w}, es))
  {
    if w in ws {
      SumWithout(ws, es, w);
    } else {
      assert ws - {w} == ws;
    }
  }

  /** An account that goes to zero leaves the sum of the others. */
  lemma SumAfterReset(ws: set<string>, es: seq<Entry>, es': seq<Entry>, w: string)
    requires w in ws || Spent(es, w) == ZERO
    requires Spent(es', w) == ZERO && forall v | v != w :: Spent(es', v) == Spent(es, v)
    ensures SumOver(ws, es') == Minus(SumOver(ws, es), Spent(es, w))
  {
    SumSame(ws - {w}, es, es');
    SumSplit(ws, es, w);
    SumSplit(ws, es', w);
    Cancel(Spent(es, w), SumOver(ws - {w}, es), SumOver(ws, es), SumOver(ws, es'));
  }

  lemma Cancel(a: Amount, b: Amount, s: Amount, s': Amount)
    requires s == Plus(a, b) && s' == Plus(ZERO, b)
    ensures s' == Minus(s, a)
  {
  }

  /** The grand total is the sum of the workers' accounts. */
  lemma {:induction false} TotalIsSum(es: seq<Entry>)
    ensures SumOver(Seen(es), es) == Total(es)
  {
    if es != [] {
      var before, e := es[..|es| - 1], es[|es| - 1];
      TotalIsSum(before);
      assert before + [e] == es;
      if e.Used? {
        SumAfterReport(before, e);
      } else {
        if e.worker !in Seen(before) {
          UnseenSpentNothing(before, e.worker);
        }
        SumAfterReset(Seen(before), before, es, e.worker);
        assert Seen(es) == Seen(before);
      }
    }
  }

  /** The entries of one worker. */
  function Project(es: seq<Entry>, w: string): seq<Entry> {
    if es == [] then []
    else Project(es[..|es| - 1], w) + (if es[|es| - 1].worker == w then [es[|es| - 1]] else [])
  }

  lemma {:induction false} SpentOfProjection(es: seq<Entry>, w: string)
    ensures Spent(Project(es, w), w) == Spent(es, w)
    ensures w in Seen(Project(es, w)) <==> w in Seen(es)
  {
    if es != [] {
      var before, e := es[..|es| - 1], es[|es| - 1];
      SpentOfProjection(before, w);
      if e.worker == w {
        var mine := Project(es, w);
        assert mine[..|mine| - 1] == Project(before, w) && mine[|mine| - 1] == e;
      } else {
        assert Project(es, w) == Project(before, w);
      }
    }
  }

  /** Two interleavings of the same per-worker entries give the same accounts and total. */
  lemma TotalIgnoresInterleaving(es: seq<Entry>, es': seq<Entry>)
    requires forall w :: Project(es, w) == Project(es', w)
    ensures Total(es) == Total(es')
    ensures forall w :: Spent(es, w) == Spent(es', w)
  {
    forall w ensures Spent(es, w) == Spent(es', w) && (w in Seen(es) <==> w in Seen(es')) {
      SpentOfProjection(es, w);
      SpentOfProjection(es', w);
    }
    assert Seen(es) == Seen(es');
    SumSame(Seen(es), es, es');
    TotalIsSum(es);
    TotalIsSum(es');
  }

  lemma {:induction false} SpentNonNegative(es: seq<Entry>, w: string)
    requires forall e | e in es && e.Used? :: CostOf(e.usage) >= 0.0
    ensures Spent(es, w).usd >= 0.0
  {
    if es != [] {
      assert es[|es| - 1] in es;
      SpentNonNegative(es[..|es| - 1], w);
    }
  }

  lemma {:induction false} SumNonNegative(ws: set<string>, es: seq<Entry>)
    requires forall e | e in es && e.Used? :: CostOf(e.usage) >= 0.0
    ensures SumOver(ws, es).usd >= 0.0
    decreases |ws|
  {
    if ws != {} {
      var w :| w in ws;
      SumWithout(ws, es, w);
      SpentNonNegative(es, w);
      SumNonNegative(ws - {w}, es);
    }
  }

  /** With non-negative costs the grand total is not negative, whatever is reset. */
  lemma TotalNonNegative(es: seq<Entry>)
    requires forall e | e in es && e.Used? :: CostOf(e.usage) >= 0.0
    ensures Total(es).usd >= 0.0
  {
    TotalIsSum(es);
    SumNonNegative(Seen(es), es);
  }

  // ----- Severity -----

  /** The status of `w`: the most severe limit that is reached. */
  function StatusAfter(perWorker: real, overall: real, es: seq<Entry>, w: string): CostStatus {
    if Total(es).usd > overall then OverGlobal
    else if Spent(es, w).usd > perWorker then OverPerWorker
    else if Spent(es, w).usd >= perWorker * WARN_FRACTION || Total(es).usd >= overall * WARN_FRACTION then Warn
    else CostOk
  }

  function Severity(s: CostStatus): nat {
    match s
    case CostOk => 0
    case Warn => 1
    case OverPerWorker => 2
    case OverGlobal => 3
  }

  predicate Growing(e: Entry) {
    e.Used? && CostOf(e.usage) >= 0.0
  }

  /** Without resets, and with non-negative costs, a status never becomes less severe. */
  lemma {:induction false} StatusNeverSoftens(perWorker: real, overall: real, es: seq<Entry>, more: seq<Entry>, w: string)
    requires forall e | e in more :: Growing(e)
    ensures Spent(es, w).usd <= Spent(es + more, w).usd
    ensures Total(es).usd <= Total(es + more).usd
    ensures Severity(StatusAfter(perWorker, overall, es, w)) <= Severity(StatusAfter(perWorker, overall, es + more, w))
  {
    if more == [] {
      assert es + more == es;
    } else {
      var init, e := more[..|more| - 1], more[|more| - 1];
      StatusNeverSoftens(perWorker, overall, es, init, w);
      assert (es + more)[..|es + more| - 1] == es + init;
      assert e in more;
    }
  }

  /** After the first `n` entries `w` was over the cap, and it has not been reset since. */
  ghost predicate OverAt(cap: real, es: seq<Entry>, w: string, n: nat) {
    && n <= |es|
    && Spent(es[..n], w).usd > cap
    && Reset(w) !in es[n..]
  }

  lemma OverAtEarlier(cap: real, es: seq<Entry>, w: string, n: nat)
    requires es != [] && OverAt(cap, es, w, n) && n < |es|
    ensures es[|es| - 1] != Reset(w) && OverAt(cap, es[..|es| - 1], w, n)
  {
    var before := es[..|es| - 1];
    assert before[..n] == es[..n];
    assert es[n..][|es| - 1 - n] == es[|es| - 1];
    assert es[n..] == before[n..] + [es[|es| - 1]];
  }

  lemma OverAtLater(cap: real, es: seq<Entry>, w: string, n: nat)
    requires es != [] && es[|es| - 1] != Reset(w) && OverAt(cap, es[..|es| - 1], w, n)
    ensures OverAt(cap, es, w, n)
  {
    var before := es[..|es| - 1];
    assert before[..n] == es[..n];
    assert es[n..] == before[n..] + [es[|es| - 1]];
  }

  /** The over-budget time is set exactly when the cap was exceeded at some point since the
      last reset, even if a negative cost has brought the account back since. */
  lemma {:induction false} OverSinceExactly(cap: real, es: seq<Entry>, w: string)
    requires cap > 0.0
    ensures OverSince(cap, es, w).Some? <==> exists n: nat :: OverAt(cap, es, w, n)
    decreases |es|
  {
    if es == [] {
      assert forall n: nat | n <= 0 :: es[..n] == [];
    } else {
      var before, e := es[..|es| - 1], es[|es| - 1];
      OverSinceExactly(cap, before, w);
      assert es[..|es|] == es && es[|es|..] == [];
      assert before[..|before|] == before && before[|before|..] == [];
      if Spent(before, w).usd > cap {
        assert OverAt(cap, before, w, |before|);
      }
      if e != Reset(w) && OverSince(cap, before, w).Some? {
        var n: nat :| OverAt(cap, before, w, n);
        OverAtLater(cap, es, w, n);
      } else if Spent(es, w).usd > cap {
        assert OverAt(cap, es, w, |es|);
      } else if n: nat :| OverAt(cap, es, w, n) {
        if n < |es| {
          OverAtEarlier(cap, es, w, n);
        }
      }
    }
  }

  /** With non-negative costs it is set exactly while the account exceeds the cap. */
  lemma {:induction false} OverSinceWhenGrowing(cap: real, es: seq<Entry>, w: string)
    requires cap > 0.0
    requires forall e | e in es && e.Used? :: CostOf(e.usage) >= 0.0
    ensures OverSince(cap, es, w).Some? <==> Spent(es, w).usd > cap
  {
    if es != [] {
      assert es[|es| - 1] in es;
      OverSinceWhenGrowing(cap, es[..|es| - 1], w);
    }
  }

  // ----- The guard -----

  class WorkerStats {
    var tokensIn: int
    var tokensOut: int
    var usd: real
    var overSince: Option<real>

    constructor ()
      ensures View() == Stats(ZERO, None)
    {
      tokensIn, tokensOut, usd, overSince := 0, 0, 0.0, None;
    }

    ghost function View(): Stats
      reads this
    {
      Stats(Amount(usd, tokensIn, tokensOut), overSince)
    }
  }

  /** A report adds its token counts and its cost, or an estimate of it. */
  ghost predicate Charges(was: Stats, now: Stats, u: Usage) {
    && now.amount.tokensIn == was.amount.tokensIn + u.tokensIn
    && now.amount.tokensOut == was.amount.tokensOut + u.tokensOut
    && now.amount.usd == was.amount.usd + match u.usd
         case Some(usd) => usd
         case None => (3.0 * u.tokensIn as real + 15.0 * u.tokensOut as real) / 1000000.0
  }

  datatype Summary = Summary(total: Amount, workers: map<string, Amount>)

  class CostGuard {
    const perWorkerUsd: real
    const globalUsd: real
    var workers: map<string, WorkerStats>
    /** Every accepted report and every reset, in order. */
    ghost var history: seq<Entry>

    ghost predicate Valid()
      reads this, workers.Values
    {
      && perWorkerUsd > 0.0 && globalUsd > 0.0
      && workers.Keys == Seen(history)
      && (forall v, w | v in workers && w in workers && v != w :: workers[v] != workers[w])
      && forall w | w in workers :: workers[w].View() == Stats(Spent(history, w), OverSince(perWorkerUsd, history, w))
    }

    constructor (perWorkerUsd: real, globalUsd: real)
      requires perWorkerUsd > 0.0 && globalUsd > 0.0
      ensures Valid() && history == [] && fresh(workers.Values)
      ensures this.perWorkerUsd == perWorkerUsd && this.globalUsd == globalUsd
    {
      this.perWorkerUsd, this.globalUsd := perWorkerUsd, globalUsd;
      workers := map[];
      history := [];
    }

    /** Caps must be positive. */
    static method Create(perWorkerUsd: real, globalUsd: real) returns (r: Result<CostGuard, ()>)
      ensures r.Ok? <==> perWorkerUsd > 0.0 && globalUsd > 0.0
      ensures r.Ok? ==> fresh(r.value) && r.value.Valid() && r.value.history == []
      ensures r.Ok? ==> r.value.perWorkerUsd == perWorkerUsd && r.value.globalUsd == globalUsd
    {
      if perWorkerUsd <= 0.0 || globalUsd <= 0.0 {
        return Err(());
      }
      var guard := new CostGuard(perWorkerUsd, globalUsd);
      return Ok(guard);
    }

    /** The stored account of a worker; an unknown one has used nothing. */
    ghost function AccountOf(w: string): Stats
      reads `workers, workers.Values
    {
      if w in workers then workers[w].View() else Stats(ZERO, None)
    }

    /** Negative token counts raise, and nothing is recorded. A report adds its tokens and its
        cost or, without one, 3 dollars per million input and 15 per million output tokens. */
    method AddUsage(w: string, usage: Usage, at: real) returns (r: Result<(), ()>)
      requires Valid()
      modifies this, workers.Values
      ensures Valid() && fresh(workers.Values - old(workers.Values))
      ensures r.Ok? <==> usage.tokensIn >= 0 && usage.tokensOut >= 0
      ensures history == if r.Ok? then old(history) + [Used(w, usage, at)] else old(history)
      ensures r.Ok? ==> w in workers && Charges(old(AccountOf(w)), AccountOf(w), usage)
      ensures r.Ok? ==>
        var usd := old(AccountOf(w).amount.usd);
        && (usage.usd.Some? ==> AccountOf(w).amount.usd == usd + usage.usd.value)
        && (usage.usd.None? ==>
              AccountOf(w).amount.usd - usd == (3.0 * usage.tokensIn as real + 15.0 * usage.tokensOut as real) / 1000000.0)
      ensures r.Ok? ==>
        var since := old(AccountOf(w)).overSince;
        AccountOf(w).overSince == if since.None? && AccountOf(w).amount.usd > perWorkerUsd then Some(at) else since
    {
      if usage.tokensIn < 0 || usage.tokensOut < 0 {
        return Err(());
      }
      if w !in workers {
        var stats := new WorkerStats();
        UnseenAccount(perWorkerUsd, history, w);
        workers := workers[w := stats];
      }
      Accrue(workers[w], usage, at);
      UsedEntry(perWorkerUsd, history, w, usage, at);
      history := history + [Used(w, usage, at)];
      return Ok(());
    }

    method Accrue(stats: WorkerStats, usage: Usage, at: real)
      modifies stats
      ensures stats.View() == AfterUse(perWorkerUsd, old(stats.View()), usage, at)
      ensures Charges(old(stats.View()), stats.View(), usage)
    {
      stats.tokensIn := stats.tokensIn + usage.tokensIn;
      stats.tokensOut := stats.tokensOut + usage.tokensOut;
      stats.usd := stats.usd + CostOf(usage);
      if stats.usd > perWorkerUsd && stats.overSince.None? {
        stats.overSince := Some(at);
      }
    }

    method ResetWorker(w: string)
      requires Valid()
      modifies this
      ensures Valid() && fresh(workers.Values - old(workers.Values))
      ensures history == old(history) + [Reset(w)]
      ensures AccountOf(w) == Stats(Amount(0.0, 0, 0), None)
    {
      ResetEntry(perWorkerUsd, history, w);
      history := history + [Reset(w)];
      if w in workers {
        var stats := new WorkerStats();
        workers := workers[w := stats];
      }
    }

    /** The sum over the accounts, in whatever order the map yields them. */
    method AddUp() returns (total: Amount)
      requires Valid()
      ensures total == Total(history)
    {
      total := ZERO;
      var rest := workers.Keys;
      while rest != {}
        invariant rest <= workers.Keys
        invariant Plus(total, SumOver(rest, history)) == SumOver(workers.Keys, history)
        decreases rest
      {
        var w :| w in rest;
        SumWithout(rest, history, w);
        total := Plus(total, Amount(workers[w].usd, workers[w].tokensIn, workers[w].tokensOut));
        rest := rest - {w};
      }
      TotalIsSum(history);
    }

    /** An unknown worker counts as one that used nothing. */
    method Check(w: string) returns (status: CostStatus)
      requires Valid()
      ensures status == StatusAfter(perWorkerUsd, globalUsd, history, w)
      ensures status == OverGlobal <==> Total(history).usd > globalUsd
      ensures status == OverPerWorker <==> Total(history).usd <= globalUsd && Spent(history, w).usd > perWorkerUsd
      ensures status == Warn <==>
        && Total(history).usd <= globalUsd && Spent(history, w).usd <= perWorkerUsd
        && (Spent(history, w).usd >= 0.8 * perWorkerUsd || Total(history).usd >= 0.8 * globalUsd)
    {
      var total := AddUp();
      var usd := if w in workers then workers[w].usd else 0.0;
      if w !in workers {
        UnseenSpentNothing(history, w);
      }
      if total.usd > globalUsd {
        status := OverGlobal;
      } else if usd > perWorkerUsd {
        status := OverPerWorker;
      } else if usd >= perWorkerUsd * WARN_FRACTION || total.usd >= globalUsd * WARN_FRACTION {
        status := Warn;
      } else {
        status := CostOk;
      }
    }

    method Summarize() returns (r: Summary)
      requires Valid()
      ensures r.total == Total(history)
      ensures r.workers.Keys == Seen(history) && forall w | w in r.workers :: r.workers[w] == Spent(history, w)
    {
      var total := AddUp();
      r := Summary(total, map w | w in workers :: Amount(workers[w].usd, workers[w].tokensIn, workers[w].tokensOut));
    }
  }

  function AfterUse(cap: real, s: Stats, usage: Usage, at: real): Stats {
    var amount := Plus(s.amount, AmountOf(usage));
    Stats(amount, if amount.usd > cap && s.overSince.None? then Some(at) else s.overSince)
  }

  lemma {:induction false} UnseenAccount(cap: real, es: seq<Entry>, w: string)
    requires w !in Seen(es)
    ensures Spent(es, w) == ZERO && OverSince(cap, es, w) == None
  {
    if es != [] {
      UnseenAccount(cap, es[..|es| - 1], w);
    }
  }

  lemma UsedEntry(cap: real, es: seq<Entry>, w: string, usage: Usage, at: real)
    ensures var es' := es + [Used(w, usage, at)];
      && Seen(es') == Seen(es) + {w}
      && Stats(Spent(es', w), OverSince(cap, es', w)) == AfterUse(cap, Stats(Spent(es, w), OverSince(cap, es, w)), usage, at)
      && forall v | v != w :: Spent(es', v) == Spent(es, v) && OverSince(cap, es', v) == OverSince(cap, es, v)
  {
    assert (es + [Used(w, usage, at)])[..|es|] == es;
  }

  lemma ResetEntry(cap: real, es: seq<Entry>, w: string)
    ensures var es' := es + [Reset(w)];
      && Seen(es') == Seen(es)
      && Spent(es', w) == ZERO && OverSince(cap, es', w) == None
      && forall v | v != w :: Spent(es', v) == Spent(es, v) && OverSince(cap, es', v) == OverSince(cap, es, v)
  {
    assert (es + [Reset(w)])[..|es|] == es;
  }

  // ----- Escalation -----

  datatype Signal = Interrupt | Terminate | Kill

  function Force(s: Signal): nat {
    match s
    case Interrupt => 0
    case Terminate => 1
    case Kill => 2
  }

  /** Interrupt up to 5 seconds, terminate up to 10, then kill. */
  function EscalationStep(sinceOver: real): Signal {
    if sinceOver < 5.0 then Interrupt
    else if sinceOver < 10.0 then Terminate
    else Kill
  }
}
