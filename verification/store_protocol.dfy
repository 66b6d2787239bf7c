/** The state store as an interleaved protocol: any number of updaters and readers take
    single steps in any order, under one advisory lock, and may die at any point.
    `state.json` is replaced by an atomic rename of a complete temporary file. */
module StoreProtocol {
  import opened Wrappers
  import opened StateDocument

  type ClientId = nat

  /** A mutator that may raise. */
  type Mutator = Doc -> Option<Doc>

  datatype UpdateError = LockTimeout | NotFound | Corrupted | MutatorRaised | VersionMismatch | SchemaInvalid | WriteFailed | DirSyncFailed

  /** What `update` makes of the current document, up to the write. */
  function Outcome(m: Mutator, cur: Doc): Result<Doc, UpdateError> {
    match m(cur)
    case None => Err(MutatorRaised)
    case Some(d) =>
      if d.version != cur.version then Err(VersionMismatch)
      else
        var next := d.(version := cur.version + 1);
        if SchemaOk(next) then Ok(next) else Err(SchemaInvalid)
  }

  datatype Commit = Commit(op: nat, m: Mutator)

  /** The sequential meaning of a commit order. */
  function Fold(init: Doc, log: seq<Commit>): Doc {
    if log == [] then init
    else
      var d := Fold(init, log[..|log| - 1]);
      match Outcome(log[|log| - 1].m, d)
      case Ok(next) => next
      case Err(_) => d
  }

  /** The document after the first `n` commits. */
  function StateAt(init: Doc, log: seq<Commit>, n: nat): Doc
    requires n <= |log|
  {
    Fold(init, log[..n])
  }

  datatype Phase =
    | Waiting(m: Mutator)
    | Entered(m: Mutator)
    | Loaded(m: Mutator, cur: Doc)
    | Staged(m: Mutator, next: Doc)
    | Written(m: Mutator, next: Doc)
    | Replaced(m: Mutator, next: Doc)
    | Leaving(outcome: Result<Doc, UpdateError>)
    | ReadWaiting
    | Reading
    | ReadLoaded(d: Doc)
    | ReadReturning(d: Doc)

  /** A client inside an operation: its number, and how many commits and returned
      operations there were when it started. */
  datatype Client = Client(op: nat, begin: nat, began: nat, phase: Phase)

  datatype Reply =
    | Updated(outcome: Result<Doc, UpdateError>)
    | Answered(answer: Result<Doc, ()>)

  /** An operation that has returned, with the commit counts at its start and at its end. */
  datatype Finished = Finished(client: ClientId, op: nat, begin: nat, began: nat, end: nat, reply: Reply)

  datatype System = System(
    file: Doc,
    writer: Option<ClientId>,
    readers: set<ClientId>,
    clients: map<ClientId, Client>,
    log: seq<Commit>,
    finished: seq<Finished>,
    nextOp: nat)

  function Start(init: Doc): System {
    System(init, None, {}, map[], [], [], 0)
  }

  // ----- Steps -----

  datatype Action =
    | BeginUpdate(c: ClientId, m: Mutator)
    | Lock(c: ClientId)
    | TimeOut(c: ClientId)
    | Load(c: ClientId)
    | Mutate(c: ClientId)
    | WriteTemp(c: ClientId)
    | FailWrite(c: ClientId)
    | Replace(c: ClientId)
    | SyncDir(c: ClientId, ok: bool)
    | Unlock(c: ClientId)
    | BeginRead(c: ClientId)
    | LockShared(c: ClientId)
    | LoadShared(c: ClientId)
    | UnlockShared(c: ClientId)
    | Return(c: ClientId)
    | Crash(c: ClientId)

  predicate Enabled(s: System, a: Action) {
    if a.BeginUpdate? || a.BeginRead? then a.c !in s.clients
    else
      && a.c in s.clients
      && var phase := s.clients[a.c].phase;
      match a
      case Lock(c) => phase.Waiting? && s.writer.None? && s.readers == {}
      case TimeOut(c) => phase.Waiting?
      case Load(c) => phase.Entered?
      case Mutate(c) => phase.Loaded?
      case WriteTemp(c) => phase.Staged?
      case FailWrite(c) => phase.Staged? || phase.Written?
      case Replace(c) => phase.Written?
      case SyncDir(c, _) => phase.Replaced?
      case Unlock(c) => phase.Leaving?
      case LockShared(c) => phase.ReadWaiting? && s.writer.None?
      case LoadShared(c) => phase.Reading?
      case UnlockShared(c) => phase.ReadLoaded?
      case Return(c) => phase.ReadReturning?
      case _ => true
  }

  function Enter(s: System, c: ClientId, phase: Phase): System {
    s.(clients := s.clients[c := Client(s.nextOp, |s.log|, |s.finished|, phase)], nextOp := s.nextOp + 1)
  }

  function Move(s: System, c: ClientId, phase: Phase): System
    requires c in s.clients
  {
    s.(clients := s.clients[c := s.clients[c].(phase := phase)])
  }

  function Leave(s: System, c: ClientId, reply: Reply): System
    requires c in s.clients
  {
    var k := s.clients[c];
    s.(clients := s.clients - {c}, finished := s.finished + [Finished(c, k.op, k.begin, k.began, |s.log|, reply)])
  }

  /** Unlocking, or the end of a process, drops the lock of its descriptor. */
  function Release(s: System, c: ClientId): System {
    s.(writer := if s.writer == Some(c) then None else s.writer, readers := s.readers - {c})
  }

  function Apply(s: System, a: Action): System
    requires Enabled(s, a)
  {
    match a
    case BeginUpdate(c, m) => Enter(s, c, Waiting(m))
    case Lock(c) => Move(s, c, Entered(s.clients[c].phase.m)).(writer := Some(c))
    case TimeOut(c) => Leave(s, c, Updated(Err(LockTimeout)))
    case Load(c) => Move(s, c, Loaded(s.clients[c].phase.m, s.file))
    case Mutate(c) =>
      var m := s.clients[c].phase.m;
      match Outcome(m, s.clients[c].phase.cur) {
        case Ok(next) => Move(s, c, Staged(m, next))
        case Err(e) => Move(s, c, Leaving(Err(e)))
      }
    case WriteTemp(c) => Move(s, c, Written(s.clients[c].phase.m, s.clients[c].phase.next))
    case FailWrite(c) => Move(s, c, Leaving(Err(WriteFailed)))
    case Replace(c) =>
      var k := s.clients[c];
      Move(s, c, Replaced(k.phase.m, k.phase.next)).(file := k.phase.next, log := s.log + [Commit(k.op, k.phase.m)])
    case SyncDir(c, ok) => Move(s, c, Leaving(if ok then Ok(s.clients[c].phase.next) else Err(DirSyncFailed)))
    case Unlock(c) => Release(Leave(s, c, Updated(s.clients[c].phase.outcome)), c)
    case BeginRead(c) => Enter(s, c, ReadWaiting)
    case LockShared(c) => Move(s, c, Reading).(readers := s.readers + {c})
    case LoadShared(c) => Move(s, c, ReadLoaded(s.file))
    case UnlockShared(c) => Release(Move(s, c, ReadReturning(s.clients[c].phase.d)), c)
    case Return(c) =>
      var d := s.clients[c].phase.d;
      Leave(s, c, Answered(if SchemaOk(d) then Ok(d) else Err(())))
    case Crash(c) => Release(s.(clients := s.clients - {c}), c)
  }

  ghost predicate StepAt(actions: seq<Action>, states: seq<System>, i: nat)
    requires i < |actions| && |states| == |actions| + 1
  {
    Enabled(states[i], actions[i]) && states[i + 1] == Apply(states[i], actions[i])
  }

  ghost predicate Trace(init: Doc, actions: seq<Action>, states: seq<System>) {
    && |states| == |actions| + 1
    && states[0] == Start(init)
    && forall i | 0 <= i < |actions| :: StepAt(actions, states, i)
  }

  /** Some interleaving leads from a freshly initialised store to `s`. */
  ghost predicate Reachable(init: Doc, s: System) {
    exists actions, states :: Trace(init, actions, states) && states[|actions|] == s
  }

  // ----- Invariants -----

  predicate InWrite(phase: Phase) {
    phase.Entered? || phase.Loaded? || phase.Staged? || phase.Written? || phase.Replaced? || phase.Leaving?
  }

  predicate InRead(phase: Phase) {
    phase.Reading? || phase.ReadLoaded?
  }

  /** Writers exclude each other and readers. */
  ghost predicate LocksOk(s: System) {
    && (forall c | c in s.clients :: InWrite(s.clients[c].phase) <==> s.writer == Some(c))
    && (forall c | c in s.clients :: InRead(s.clients[c].phase) <==> c in s.readers)
    && (s.writer.Some? ==> s.writer.value in s.clients && s.readers == {})
    && s.readers <= s.clients.Keys
  }

  ghost predicate CommittedOk(init: Doc, log: seq<Commit>, n: nat)
    requires n <= |log|
  {
    StateAt(init, log, n).version == init.version + n && SchemaOk(StateAt(init, log, n))
  }

  ghost predicate FileOk(init: Doc, s: System) {
    && s.file == StateAt(init, s.log, |s.log|)
    && forall n | 0 <= n <= |s.log| :: CommittedOk(init, s.log, n)
  }

  ghost predicate InLog(log: seq<Commit>, op: nat) {
    exists i | 0 <= i < |log| :: log[i].op == op
  }

  /** `d` was the document after some number of commits between `lo` and `hi`. */
  ghost predicate SeenBetween(init: Doc, log: seq<Commit>, lo: nat, hi: nat, d: Doc) {
    hi <= |log| && exists n | lo <= n <= hi :: d == StateAt(init, log, n)
  }

  ghost predicate CommittedAt(log: seq<Commit>, op: nat, lo: nat, hi: nat, n: nat) {
    lo < n <= hi <= |log| && log[n - 1].op == op
  }

  /** The operation is commit number `n` of the order, for some `n` after `lo` and up to `hi`. */
  ghost predicate CommittedBetween(log: seq<Commit>, op: nat, lo: nat, hi: nat) {
    exists n: nat :: CommittedAt(log, op, lo, hi, n)
  }

  /** The operation is the last commit. */
  ghost predicate IsLast(s: System, k: Client) {
    CommittedAt(s.log, k.op, k.begin, |s.log|, |s.log|)
  }

  ghost predicate ClientOk(init: Doc, s: System, k: Client) {
    match k.phase
    case Waiting(_) => !InLog(s.log, k.op)
    case Entered(_) => !InLog(s.log, k.op)
    case Loaded(_, cur) => !InLog(s.log, k.op) && cur == s.file
    case Staged(m, next) => !InLog(s.log, k.op) && Outcome(m, s.file) == Ok(next)
    case Written(m, next) => !InLog(s.log, k.op) && Outcome(m, s.file) == Ok(next)
    case Replaced(m, next) => IsLast(s, k) && s.file == next
    case Leaving(Ok(next)) => IsLast(s, k) && s.file == next
    case Leaving(Err(e)) => if e == DirSyncFailed then IsLast(s, k) else !InLog(s.log, k.op)
    case ReadWaiting => true
    case Reading => true
    case ReadLoaded(d) => SeenBetween(init, s.log, k.begin, |s.log|, d) && SchemaOk(d)
    case ReadReturning(d) => SeenBetween(init, s.log, k.begin, |s.log|, d) && SchemaOk(d)
  }

  /** What a returned operation promises. A successful update is in the commit order, at a
      point within the operation, and returns the document of that point. An update that
      raised is not in the order, unless only the directory sync failed. A read returns the
      document of a point within the read. */
  ghost predicate FinishedOk(init: Doc, log: seq<Commit>, f: Finished) {
    match f.reply
    case Updated(Ok(d)) => exists n: nat :: CommittedAt(log, f.op, f.begin, f.end, n) && d == StateAt(init, log, n)
    case Updated(Err(e)) =>
      if e == DirSyncFailed then CommittedBetween(log, f.op, f.begin, f.end) else !InLog(log, f.op)
    case Answered(Ok(d)) => SeenBetween(init, log, f.begin, f.end, d) && SchemaOk(d)
    case Answered(Err(_)) => false
  }

  /** Operation numbers are unique, in the order of commits too. */
  ghost predicate OpsOk(s: System) {
    && (forall c | c in s.clients :: s.clients[c].op < s.nextOp)
    && (forall c, c' | c in s.clients && c' in s.clients && c != c' :: s.clients[c].op != s.clients[c'].op)
    && (forall i | 0 <= i < |s.finished| :: s.finished[i].op < s.nextOp)
    && (forall i, c | 0 <= i < |s.finished| && c in s.clients :: s.finished[i].op != s.clients[c].op)
    && (forall i | 0 <= i < |s.log| :: s.log[i].op < s.nextOp)
    && (forall i, j | 0 <= i < j < |s.log| :: s.log[i].op != s.log[j].op)
  }

  /** An operation starts with no fewer commits than any operation that had returned by then. */
  ghost predicate TimesOk(s: System) {
    && (forall i | 0 <= i < |s.finished| :: s.finished[i].begin <= s.finished[i].end <= |s.log|)
    && (forall c | c in s.clients :: s.clients[c].begin <= |s.log| && s.clients[c].began <= |s.finished|)
    && (forall j | 0 <= j < |s.finished| :: s.finished[j].began <= j)
    && (forall i, c | c in s.clients && 0 <= i < s.clients[c].began :: s.finished[i].end <= s.clients[c].begin)
    && (forall i, j | 0 <= j < |s.finished| && 0 <= i < s.finished[j].began ::
          s.finished[i].end <= s.finished[j].begin)
  }

  /** The operations of one client do not overlap. */
  ghost predicate SequentialOk(s: System) {
    && (forall i, c | 0 <= i < |s.finished| && c in s.clients && s.finished[i].client == c :: i < s.clients[c].began)
    && (forall i, j | 0 <= i < j < |s.finished| && s.finished[i].client == s.finished[j].client ::
          i < s.finished[j].began)
  }

  ghost predicate Inv(init: Doc, s: System) {
    && LocksOk(s)
    && FileOk(init, s)
    && (forall c | c in s.clients :: ClientOk(init, s, s.clients[c]))
    && (forall i | 0 <= i < |s.finished| :: FinishedOk(init, s.log, s.finished[i]))
    && OpsOk(s)
    && TimesOk(s)
    && SequentialOk(s)
  }

  // ----- One more commit -----

  lemma StateAtExtend(init: Doc, log: seq<Commit>, x: Commit, n: nat)
    requires n <= |log|
    ensures StateAt(init, log + [x], n) == StateAt(init, log, n)
  {
    assert (log + [x])[..n] == log[..n];
  }

  lemma StateAtLast(init: Doc, log: seq<Commit>, x: Commit)
    ensures StateAt(init, log + [x], |log| + 1) ==
      match Outcome(x.m, StateAt(init, log, |log|)) { case Ok(next) => next case Err(_) => StateAt(init, log, |log|) }
  {
    var log' := log + [x];
    assert log'[..|log| + 1] == log' && log'[..|log|] == log && log[..|log|] == log;
  }

  lemma InLogExtend(log: seq<Commit>, x: Commit, op: nat)
    requires op != x.op && !InLog(log, op)
    ensures !InLog(log + [x], op)
  {
  }

  lemma CommittedExtend(log: seq<Commit>, x: Commit, op: nat, lo: nat, hi: nat, n: nat)
    requires CommittedAt(log, op, lo, hi, n)
    ensures CommittedAt(log + [x], op, lo, hi, n)
  {
  }

  lemma SeenExtend(init: Doc, log: seq<Commit>, x: Commit, lo: nat, hi: nat, d: Doc)
    requires SeenBetween(init, log, lo, hi, d)
    ensures SeenBetween(init, log + [x], lo, hi, d)
  {
    var n :| lo <= n <= hi && d == StateAt(init, log, n);
    StateAtExtend(init, log, x, n);
    assert d == StateAt(init, log + [x], n);
  }

  lemma SeenLater(init: Doc, log: seq<Commit>, lo: nat, hi: nat, hi': nat, d: Doc)
    requires SeenBetween(init, log, lo, hi, d) && hi <= hi' <= |log|
    ensures SeenBetween(init, log, lo, hi', d)
  {
    var n :| lo <= n <= hi && d == StateAt(init, log, n);
    assert lo <= n <= hi';
  }

  lemma FinishedExtend(init: Doc, log: seq<Commit>, x: Commit, f: Finished)
    requires FinishedOk(init, log, f) && f.op != x.op
    ensures FinishedOk(init, log + [x], f)
  {
    match f.reply
    case Updated(Ok(d)) =>
      var n: nat :| CommittedAt(log, f.op, f.begin, f.end, n) && d == StateAt(init, log, n);
      CommittedExtend(log, x, f.op, f.begin, f.end, n);
      StateAtExtend(init, log, x, n);
      assert d == StateAt(init, log + [x], n);
    case Updated(Err(e)) =>
      if e == DirSyncFailed {
        var n: nat :| CommittedAt(log, f.op, f.begin, f.end, n);
        CommittedExtend(log, x, f.op, f.begin, f.end, n);
      } else {
        InLogExtend(log, x, f.op);
      }
    case Answered(Ok(d)) => SeenExtend(init, log, x, f.begin, f.end, d);
    case Answered(Err(_)) =>
  }

  // ----- Every step keeps the invariants -----

  lemma LocksAcquired(s: System, a: Action)
    requires LocksOk(s) && Enabled(s, a) && (a.BeginUpdate? || a.BeginRead? || a.Lock? || a.LockShared?)
    ensures LocksOk(Apply(s, a))
  {
  }

  lemma LocksHeld(s: System, a: Action)
    requires LocksOk(s) && Enabled(s, a)
    requires a.Load? || a.Mutate? || a.WriteTemp? || a.FailWrite? || a.Replace? || a.SyncDir? || a.LoadShared?
    ensures LocksOk(Apply(s, a))
  {
  }

  lemma LocksReleased(s: System, a: Action)
    requires LocksOk(s) && Enabled(s, a)
    requires a.TimeOut? || a.Unlock? || a.UnlockShared? || a.Return? || a.Crash?
    ensures LocksOk(Apply(s, a))
  {
  }

  lemma LocksStep(s: System, a: Action)
    requires LocksOk(s) && Enabled(s, a)
    ensures LocksOk(Apply(s, a))
  {
    if a.BeginUpdate? || a.BeginRead? || a.Lock? || a.LockShared? {
      LocksAcquired(s, a);
    } else if a.TimeOut? || a.Unlock? || a.UnlockShared? || a.Return? || a.Crash? {
      LocksReleased(s, a);
    } else {
      LocksHeld(s, a);
    }
  }

  /** `c` has started an operation. */
  ghost predicate HasEntered(s: System, r: System, c: ClientId) {
    && c !in s.clients && c in r.clients
    && r.clients == s.clients[c := r.clients[c]] && r.finished == s.finished && r.log == s.log
    && r.clients[c].op == s.nextOp && r.nextOp == s.nextOp + 1
    && r.clients[c].begin == |s.log| && r.clients[c].began == |s.finished|
  }

  /** `c` has returned from its operation, or died in it. */
  ghost predicate HasLeft(s: System, r: System, c: ClientId) {
    && c in s.clients && r.clients == s.clients - {c} && r.log == s.log && r.nextOp == s.nextOp
    && var k := s.clients[c];
       (r.finished == s.finished
        || exists reply :: r.finished == s.finished + [Finished(c, k.op, k.begin, k.began, |s.log|, reply)])
  }

  /** `c` has moved on inside its operation, and may have committed it. */
  ghost predicate HasMoved(s: System, r: System, c: ClientId) {
    && c in s.clients && c in r.clients && r.clients == s.clients[c := r.clients[c]]
    && r.clients[c].(phase := s.clients[c].phase) == s.clients[c]
    && r.finished == s.finished && r.nextOp == s.nextOp
    && (r.log == s.log || (exists x: Commit :: x.op == s.clients[c].op && !InLog(s.log, x.op) && r.log == s.log + [x]))
  }

  lemma StepShape(init: Doc, s: System, a: Action)
    requires Inv(init, s) && Enabled(s, a)
    ensures HasEntered(s, Apply(s, a), a.c) || HasLeft(s, Apply(s, a), a.c) || HasMoved(s, Apply(s, a), a.c)
  {
    var r := Apply(s, a);
    if a.BeginUpdate? || a.BeginRead? {
      assert HasEntered(s, r, a.c);
    } else if a.TimeOut? || a.Unlock? || a.Return? || a.Crash? {
      assert HasLeft(s, r, a.c);
    } else {
      assert ClientOk(init, s, s.clients[a.c]);
      assert HasMoved(s, r, a.c);
    }
  }

  lemma OpsAfterEntering(s: System, r: System, c: ClientId)
    requires OpsOk(s) && HasEntered(s, r, c)
    ensures OpsOk(r)
  {
  }

  lemma OpsAfterLeaving(s: System, r: System, c: ClientId)
    requires OpsOk(s) && HasLeft(s, r, c)
    ensures OpsOk(r)
  {
  }

  lemma OpsAfterMoving(s: System, r: System, c: ClientId)
    requires OpsOk(s) && HasMoved(s, r, c)
    ensures OpsOk(r)
  {
  }

  lemma OpsShape(s: System, r: System, c: ClientId)
    requires OpsOk(s) && (HasEntered(s, r, c) || HasLeft(s, r, c) || HasMoved(s, r, c))
    ensures OpsOk(r)
  {
    if HasEntered(s, r, c) {
      OpsAfterEntering(s, r, c);
    } else if HasLeft(s, r, c) {
      OpsAfterLeaving(s, r, c);
    } else {
      OpsAfterMoving(s, r, c);
    }
  }

  lemma TimesShape(s: System, r: System, c: ClientId)
    requires TimesOk(s) && (HasEntered(s, r, c) || HasLeft(s, r, c) || HasMoved(s, r, c))
    ensures TimesOk(r)
  {
  }

  lemma SequentialShape(s: System, r: System, c: ClientId)
    requires TimesOk(s) && SequentialOk(s) && (HasEntered(s, r, c) || HasLeft(s, r, c) || HasMoved(s, r, c))
    ensures SequentialOk(r)
  {
  }

  lemma FileStep(init: Doc, s: System, a: Action)
    requires Inv(init, s) && Enabled(s, a)
    ensures FileOk(init, Apply(s, a))
  {
    if a.Replace? {
      var k := s.clients[a.c];
      var x := Commit(k.op, k.phase.m);
      assert ClientOk(init, s, k);
      StateAtLast(init, s.log, x);
      forall n | 0 <= n <= |s.log| + 1 ensures CommittedOk(init, s.log + [x], n) {
        if n <= |s.log| {
          assert CommittedOk(init, s.log, n);
          StateAtExtend(init, s.log, x, n);
        } else {
          assert CommittedOk(init, s.log, |s.log|);
        }
      }
    }
  }

  /** A commit by the lock holder leaves every other client's promise in place. */
  lemma ReplaceKeepsOthers(init: Doc, s: System, a: Action, c: ClientId)
    requires Inv(init, s) && a.Replace? && Enabled(s, a) && c in s.clients && c != a.c
    ensures ClientOk(init, Apply(s, a), s.clients[c])
  {
    var k := s.clients[c];
    var x := Commit(s.clients[a.c].op, s.clients[a.c].phase.m);
    assert InWrite(s.clients[a.c].phase) && !InWrite(k.phase) && !InRead(k.phase);
    assert ClientOk(init, s, k);
    if k.phase.Waiting? {
      InLogExtend(s.log, x, k.op);
    } else if k.phase.ReadReturning? {
      SeenExtend(init, s.log, x, k.begin, |s.log|, k.phase.d);
      SeenLater(init, s.log + [x], k.begin, |s.log|, |s.log| + 1, k.phase.d);
    }
  }

  lemma ActorUpdates(init: Doc, s: System, a: Action)
    requires Inv(init, s) && Enabled(s, a) && a.c in Apply(s, a).clients
    requires a.BeginUpdate? || a.Lock? || a.Load? || a.Mutate? || a.WriteTemp? || a.FailWrite?
    ensures ClientOk(init, Apply(s, a), Apply(s, a).clients[a.c])
  {
    if !a.BeginUpdate? {
      assert ClientOk(init, s, s.clients[a.c]);
    }
  }

  lemma ActorCommits(init: Doc, s: System, a: Action)
    requires Inv(init, s) && Enabled(s, a) && (a.Replace? || a.SyncDir?)
    ensures ClientOk(init, Apply(s, a), Apply(s, a).clients[a.c])
  {
    assert ClientOk(init, s, s.clients[a.c]);
    assert s.clients[a.c].begin <= |s.log|;
  }

  lemma ActorReads(init: Doc, s: System, a: Action)
    requires Inv(init, s) && Enabled(s, a) && (a.BeginRead? || a.LockShared? || a.LoadShared? || a.UnlockShared?)
    ensures ClientOk(init, Apply(s, a), Apply(s, a).clients[a.c])
  {
    if !a.BeginRead? {
      assert ClientOk(init, s, s.clients[a.c]);
      assert s.clients[a.c].begin <= |s.log|;
    }
    assert CommittedOk(init, s.log, |s.log|);
  }

  /** The acting client's promise after its step. */
  lemma ActorStep(init: Doc, s: System, a: Action)
    requires Inv(init, s) && Enabled(s, a) && a.c in Apply(s, a).clients
    ensures ClientOk(init, Apply(s, a), Apply(s, a).clients[a.c])
  {
    if a.Replace? || a.SyncDir? {
      ActorCommits(init, s, a);
    } else if a.BeginRead? || a.LockShared? || a.LoadShared? || a.UnlockShared? {
      ActorReads(init, s, a);
    } else {
      ActorUpdates(init, s, a);
    }
  }

  lemma ClientsStep(init: Doc, s: System, a: Action, c: ClientId)
    requires Inv(init, s) && Enabled(s, a) && c in Apply(s, a).clients
    ensures ClientOk(init, Apply(s, a), Apply(s, a).clients[c])
  {
    if c == a.c {
      ActorStep(init, s, a);
    } else if a.Replace? {
      ReplaceKeepsOthers(init, s, a, c);
    } else {
      assert ClientOk(init, s, s.clients[c]);
    }
  }

  /** What the operation promised inside is what it promises on return. */
  lemma LeaveOk(init: Doc, s: System, a: Action)
    requires Inv(init, s) && Enabled(s, a) && (a.TimeOut? || a.Unlock? || a.Return?)
    ensures var r := Apply(s, a); FinishedOk(init, r.log, r.finished[|s.finished|])
  {
    var k := s.clients[a.c];
    assert ClientOk(init, s, k);
    if a.Unlock? && (k.phase.outcome.Ok? || k.phase.outcome == Err(DirSyncFailed)) {
      assert CommittedAt(s.log, k.op, k.begin, |s.log|, |s.log|);
    }
  }

  lemma FinishedStep(init: Doc, s: System, a: Action, i: nat)
    requires Inv(init, s) && Enabled(s, a) && i < |Apply(s, a).finished|
    ensures FinishedOk(init, Apply(s, a).log, Apply(s, a).finished[i])
  {
    if i == |s.finished| {
      LeaveOk(init, s, a);
    } else {
      assert FinishedOk(init, s.log, s.finished[i]);
      if a.Replace? {
        FinishedExtend(init, s.log, Commit(s.clients[a.c].op, s.clients[a.c].phase.m), s.finished[i]);
      }
    }
  }

  lemma StepInv(init: Doc, s: System, a: Action)
    requires Inv(init, s) && Enabled(s, a)
    ensures Inv(init, Apply(s, a))
  {
    var r := Apply(s, a);
    LocksStep(s, a);
    StepShape(init, s, a);
    OpsShape(s, r, a.c);
    TimesShape(s, r, a.c);
    SequentialShape(s, r, a.c);
    FileStep(init, s, a);
    forall c | c in r.clients ensures ClientOk(init, r, r.clients[c]) {
      ClientsStep(init, s, a, c);
    }
    forall i | 0 <= i < |r.finished| ensures FinishedOk(init, r.log, r.finished[i]) {
      FinishedStep(init, s, a, i);
    }
  }

  lemma StartInv(init: Doc)
    requires SchemaOk(init)
    ensures Inv(init, Start(init))
  {
    assert CommittedOk(init, [], 0);
  }

  lemma {:induction false} TraceInv(init: Doc, actions: seq<Action>, states: seq<System>, i: nat)
    requires SchemaOk(init) && Trace(init, actions, states) && i <= |actions|
    ensures Inv(init, states[i])
  {
    if i == 0 {
      StartInv(init);
    } else {
      TraceInv(init, actions, states, i - 1);
      assert StepAt(actions, states, i - 1);
      StepInv(init, states[i - 1], actions[i - 1]);
    }
  }

  // ----- What holds over all interleavings -----

  /** Every reachable state keeps all the invariants. */
  lemma ReachableInv(init: Doc, s: System)
    requires SchemaOk(init) && Reachable(init, s)
    ensures Inv(init, s)
  {
    var actions, states :| Trace(init, actions, states) && states[|actions|] == s;
    TraceInv(init, actions, states, |actions|);
  }
}
