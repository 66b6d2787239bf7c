/** The state store as one process runs it, and its place in the interleaved protocol. */
module StateStorage {
  import opened Wrappers
  import opened StateDocument
  import P = StoreProtocol
  import StoreSafety

  const TIMEOUT := 5.0
  const POLL_INTERVAL := 0.05

  datatype InitError = AlreadyExists | InvalidInitial | InitWrite(e: P.UpdateError)

  datatype ReadError = Missing | Garbled | Invalid

  /** What state.json holds: a document, or text that is no JSON. */
  datatype Content = Json(doc: Doc) | NotJson

  datatype LockMode = Unlocked | Shared | Exclusive

  /** Where writing a document fails, if it does: creating the temporary file, filling and
      syncing it, the rename, or the directory sync. */
  datatype Fault = NoFault | InCreate | InTempWrite | InReplace | InDirSync

  predicate Replaces(fault: Fault) {
    fault == NoFault || fault == InDirSync
  }

  /** The file after an atomic write. */
  function FileAfter<T>(file: Option<T>, next: T, fault: Fault): Option<T> {
    if Replaces(fault) then Some(next) else file
  }

  function ReplyTo(next: Doc, fault: Fault): Result<Doc, P.UpdateError> {
    if fault == NoFault then Ok(next)
    else if fault == InDirSync then Err(P.DirSyncFailed)
    else Err(P.WriteFailed)
  }

  /** Temporary files that a write leaves behind when its cleanup succeeds or not. */
  function Strays(fault: Fault, unlinks: bool): nat {
    if (fault == InTempWrite || fault == InReplace) && !unlinks then 1 else 0
  }

  /** Poll for the lock until the deadline. Attempt `k` is made at `clock(k)` and fails when
      `busy(k)`. The lock is won exactly if some attempt succeeds before one fails at or
      after the deadline. */
  method FlockWithTimeout(start: real, clock: nat -> real, busy: nat -> bool) returns (acquired: bool)
    requires start <= clock(0) && forall k: nat :: clock(k) + POLL_INTERVAL <= clock(k + 1)
    ensures acquired <==> exists k: nat :: !busy(k) && forall j | 0 <= j < k :: clock(j) < start + 5.0
  {
    var deadline := start + TIMEOUT;
    var k := 0;
    while true
      invariant forall j | 0 <= j < k :: busy(j) && clock(j) < deadline
      invariant clock(k) >= start + k as real * POLL_INTERVAL
      decreases 100 - k
    {
      if !busy(k) {
        return true;
      }
      if clock(k) >= deadline {
        return false;
      }
      k := k + 1;
    }
  }

  /** What an update of the stored document `cur` does, in terms of the mutator's result alone:
      a result is written, one version later, if it kept the version and conforms to the schema. */
  ghost predicate UpdateMeans(m: P.Mutator, cur: Doc, fault: Fault, unlinks: bool, r: Result<Doc, P.UpdateError>,
                              before: Option<Content>, after: Option<Content>, temps: nat, temps': nat) {
    match m(cur)
    case None => r == Err(P.MutatorRaised) && after == before && temps' == temps
    case Some(d) =>
      var next := d.(version := cur.version + 1);
      if d.version != cur.version then r == Err(P.VersionMismatch) && after == before && temps' == temps
      else if !SchemaOk(next) then r == Err(P.SchemaInvalid) && after == before && temps' == temps
      else
        && (r.Ok? <==> fault == NoFault) && (r.Ok? ==> r.value == next)
        && (r == Err(P.DirSyncFailed) <==> fault == InDirSync)
        && after == (if fault == NoFault || fault == InDirSync then Some(Json(next)) else before)
        && temps' == temps + if !unlinks && (fault == InTempWrite || fault == InReplace) then 1 else 0
  }

  class StateStore {
    /** The contents of state.json, if it exists. */
    var file: Option<Content>
    /** How many temporary files lie beside it. */
    var temps: nat
    var lock: LockMode

    /** A stored document conforms to the schema. */
    ghost predicate Sound()
      reads `file
    {
      file.Some? && file.value.Json? ==> SchemaOk(file.value.doc)
    }

    constructor (onDisk: Option<Content>)
      ensures file == onDisk && temps == 0 && lock == Unlocked
    {
      file, temps, lock := onDisk, 0, Unlocked;
    }

    /** The old contents or the new, never a part of either. */
    method AtomicWrite(next: Doc, fault: Fault, unlinks: bool) returns (r: Result<Doc, P.UpdateError>)
      modifies this`file, this`temps
      ensures file == FileAfter(old(file), Json(next), fault)
      ensures r == ReplyTo(next, fault)
      ensures temps == old(temps) + Strays(fault, unlinks)
      ensures file == if fault.NoFault? || fault.InDirSync? then Some(Json(next)) else old(file)
      ensures r.Ok? <==> fault.NoFault?
      ensures r.Ok? ==> r.value == next
      ensures r == Err(P.DirSyncFailed) <==> fault.InDirSync?
      ensures temps == old(temps) + if !unlinks && (fault.InTempWrite? || fault.InReplace?) then 1 else 0
    {
      if fault == InCreate {
        return Err(P.WriteFailed);
      }
      temps := temps + 1;
      if fault == InTempWrite || fault == InReplace {
        if unlinks {
          temps := temps - 1;
        }
        return Err(P.WriteFailed);
      }
      file, temps := Some(Json(next)), temps - 1;
      if fault == InDirSync {
        return Err(P.DirSyncFailed);
      }
      return Ok(next);
    }

    /** Create state.json; an existing one, whatever it holds, is left alone. */
    method Init(initial: Doc, fault: Fault, unlinks: bool) returns (r: Result<(), InitError>)
      modifies this`file, this`temps
      ensures r.Ok? <==> old(file).None? && SchemaOk(initial) && fault == NoFault
      ensures r == Err(AlreadyExists) <==> old(file).Some?
      ensures r == Err(InvalidInitial) <==> old(file).None? && !SchemaOk(initial)
      ensures file == if old(file).None? && SchemaOk(initial) then FileAfter(None, Json(initial), fault) else old(file)
      ensures old(Sound()) ==> Sound()
    {
      if file.Some? {
        return Err(AlreadyExists);
      }
      if !SchemaOk(initial) {
        return Err(InvalidInitial);
      }
      var w := AtomicWrite(initial, fault, unlinks);
      match w
      case Ok(_) => return Ok(());
      case Err(e) => return Err(InitWrite(e));
    }

    method ReadRaw() returns (r: Result<Doc, ReadError>)
      ensures r.Ok? <==> file.Some? && file.value.Json?
      ensures r.Ok? ==> file == Some(Json(r.value))
      ensures r == Err(Missing) <==> file.None?
      ensures r == Err(Garbled) <==> file == Some(NotJson)
    {
      if file.None? {
        return Err(Missing);
      }
      match file.value
      case NotJson => return Err(Garbled);
      case Json(doc) => return Ok(doc);
    }

    /** The document is loaded under the shared lock and checked after its release. */
    method Read() returns (r: Result<Doc, ReadError>)
      requires lock == Unlocked
      modifies this`lock
      ensures lock == Unlocked
      ensures r.Ok? <==> file.Some? && file.value.Json? && SchemaOk(file.value.doc)
      ensures r.Ok? ==> file == Some(Json(r.value))
      ensures r == Err(Missing) <==> file.None?
      ensures r == Err(Garbled) <==> file == Some(NotJson)
    {
      lock := Shared;
      r := ReadRaw();
      lock := Unlocked;
      if r.Ok? && !SchemaOk(r.value) {
        return Err(Invalid);
      }
    }

    /** Apply a mutator under the exclusive lock, which is released however the update ends. */
    method Update(m: P.Mutator, acquired: bool, fault: Fault, unlinks: bool) returns (r: Result<Doc, P.UpdateError>)
      requires lock == Unlocked
      modifies this
      ensures lock == Unlocked && (old(Sound()) ==> Sound())
      ensures !acquired ==> r == Err(P.LockTimeout) && file == old(file) && temps == old(temps)
      ensures acquired ==> r == UpdateResult(m, old(file), fault)
      ensures acquired ==> file == UpdatedFile(m, old(file), fault)
      ensures acquired ==> temps == old(temps) + if Accepts(m, old(file)) then Strays(fault, unlinks) else 0
      ensures acquired && old(file).None? ==> r == Err(P.NotFound) && file == old(file)
      ensures acquired && old(file) == Some(NotJson) ==> r == Err(P.Corrupted) && file == old(file)
      ensures acquired && old(file).Some? && old(file).value.Json? ==>
        UpdateMeans(m, old(file).value.doc, fault, unlinks, r, old(file), file, old(temps), temps)
      ensures acquired && old(file).Some? && old(file).value.Json? ==>
        var cur := old(file).value.doc;
        r.Ok? <==> m(cur).Some? && m(cur).value.version == cur.version
                   && SchemaOk(m(cur).value.(version := cur.version + 1)) && fault == NoFault
    {
      if !acquired {
        return Err(P.LockTimeout);
      }
      lock := Exclusive;
      r := UpdateLocked(m, fault, unlinks);
      lock := Unlocked;
    }

    method UpdateLocked(m: P.Mutator, fault: Fault, unlinks: bool) returns (r: Result<Doc, P.UpdateError>)
      requires lock == Exclusive
      modifies this`file, this`temps
      ensures old(Sound()) ==> Sound()
      ensures r == UpdateResult(m, old(file), fault) && file == UpdatedFile(m, old(file), fault)
      ensures temps == old(temps) + if Accepts(m, old(file)) then Strays(fault, unlinks) else 0
      ensures old(file).Some? && old(file).value.Json? ==>
        UpdateMeans(m, old(file).value.doc, fault, unlinks, r, old(file), file, old(temps), temps)
    {
      var raw := ReadRaw();
      if raw.Err? {
        return Err(if raw.error == Missing then P.NotFound else P.Corrupted);
      }
      var current := raw.value;
      var preVersion := current.version;
      var mutated := m(current);
      if mutated.None? {
        return Err(P.MutatorRaised);
      }
      var next := mutated.value;
      if next.version != preVersion {
        return Err(P.VersionMismatch);
      }
      next := next.(version := preVersion + 1);
      if !SchemaOk(next) {
        return Err(P.SchemaInvalid);
      }
      r := AtomicWrite(next, fault, unlinks);
    }
  }

  /** What an update under the lock returns, whatever the file holds. */
  function UpdateResult(m: P.Mutator, file: Option<Content>, fault: Fault): Result<Doc, P.UpdateError> {
    match file
    case None => Err(P.NotFound)
    case Some(NotJson) => Err(P.Corrupted)
    case Some(Json(cur)) => UpdateReply(m, cur, fault)
  }

  /** A missing or unreadable file stays as it is. */
  function UpdatedFile(m: P.Mutator, file: Option<Content>, fault: Fault): Option<Content> {
    if file.Some? && file.value.Json? then Some(Json(UpdateFile(m, file.value.doc, fault))) else file
  }

  predicate Accepts(m: P.Mutator, file: Option<Content>) {
    file.Some? && file.value.Json? && P.Outcome(m, file.value.doc).Ok?
  }

  // ----- The sequential store inside the protocol -----

  function UpdateReply(m: P.Mutator, cur: Doc, fault: Fault): Result<Doc, P.UpdateError> {
    match P.Outcome(m, cur)
    case Ok(next) => ReplyTo(next, fault)
    case Err(e) => Err(e)
  }

  function UpdateFile(m: P.Mutator, cur: Doc, fault: Fault): Doc {
    match P.Outcome(m, cur)
    case Ok(next) => FileAfter(Some(cur), next, fault).value
    case Err(_) => cur
  }

  /** An update raises and yet changes the file exactly when its mutator's result is accepted
      and the fault is in the directory sync. */
  lemma RaisesYetWritesExactly(m: P.Mutator, cur: Doc, fault: Fault)
    ensures UpdateReply(m, cur, fault).Err? && UpdateFile(m, cur, fault) != cur
        <==> P.Outcome(m, cur).Ok? && fault == InDirSync
  {
    if P.Outcome(m, cur).Ok? {
      assert P.Outcome(m, cur).value.version == cur.version + 1;
    }
  }

  lemma StepReachable(init: Doc, s: P.System, a: P.Action)
    requires P.Reachable(init, s) && P.Enabled(s, a)
    ensures P.Reachable(init, P.Apply(s, a))
  {
    var actions, states :| P.Trace(init, actions, states) && states[|actions|] == s;
    var actions', states' := actions + [a], states + [P.Apply(s, a)];
    forall i | 0 <= i < |actions'| ensures P.StepAt(actions', states', i) {
      assert i < |actions| ==> P.StepAt(actions, states, i);
    }
    assert P.Trace(init, actions', states');
  }

  predicate Idle(s: P.System, c: P.ClientId) {
    c !in s.clients && s.writer.None? && s.readers == {}
  }

  /** The commit order has gained this mutator, or nothing. */
  ghost predicate Logs(before: seq<P.Commit>, after: seq<P.Commit>, m: Option<P.Mutator>) {
    match m
    case None => after == before
    case Some(f) => |after| == |before| + 1 && after[..|before|] == before && after[|before|].m == f
  }

  /** Only `c` is inside the store. */
  predicate Holds(s: P.System, c: P.ClientId) {
    c in s.clients && s.writer == Some(c) && s.readers == {}
  }

  /** From an idle store, `c` runs to the point where it holds the outcome of its mutator. */
  lemma RunToOutcome(init: Doc, s: P.System, c: P.ClientId, m: P.Mutator) returns (r: P.System)
    requires P.Reachable(init, s) && Idle(s, c)
    ensures P.Reachable(init, r) && Holds(r, c) && r.file == s.file && r.log == s.log && r.finished == s.finished
    ensures r.clients[c].phase ==
      match P.Outcome(m, s.file) { case Ok(next) => P.Staged(m, next) case Err(e) => P.Leaving(Err(e)) }
  {
    var s1 := P.Apply(s, P.BeginUpdate(c, m));
    StepReachable(init, s, P.BeginUpdate(c, m));
    var s2 := P.Apply(s1, P.Lock(c));
    StepReachable(init, s1, P.Lock(c));
    var s3 := P.Apply(s2, P.Load(c));
    StepReachable(init, s2, P.Load(c));
    r := P.Apply(s3, P.Mutate(c));
    StepReachable(init, s3, P.Mutate(c));
  }

  /** From there it runs to its unlock. */
  lemma RunToLeaving(init: Doc, s: P.System, c: P.ClientId, fault: Fault) returns (r: P.System)
    requires P.Reachable(init, s) && Holds(s, c) && s.clients[c].phase.Staged?
    ensures P.Reachable(init, r) && Holds(r, c) && r.finished == s.finished
    ensures r.clients[c].phase == P.Leaving(ReplyTo(s.clients[c].phase.next, fault))
    ensures Some(r.file) == FileAfter(Some(s.file), s.clients[c].phase.next, fault)
    ensures Logs(s.log, r.log, if Replaces(fault) then Some(s.clients[c].phase.m) else None)
  {
    if !Replaces(fault) {
      r := P.Apply(s, P.FailWrite(c));
      StepReachable(init, s, P.FailWrite(c));
    } else {
      var s1 := P.Apply(s, P.WriteTemp(c));
      StepReachable(init, s, P.WriteTemp(c));
      var s2 := P.Apply(s1, P.Replace(c));
      StepReachable(init, s1, P.Replace(c));
      r := P.Apply(s2, P.SyncDir(c, fault == NoFault));
      StepReachable(init, s2, P.SyncDir(c, fault == NoFault));
    }
  }

  /** An update that no other client overlaps, as the class runs it, is a run of the protocol:
      same reply, same file, and the mutator in the commit order if it was written. */
  lemma UpdateIsProtocolRun(init: Doc, s: P.System, c: P.ClientId, m: P.Mutator, fault: Fault) returns (r: P.System)
    requires P.Reachable(init, s) && Idle(s, c)
    ensures P.Reachable(init, r)
    ensures r.file == UpdateFile(m, s.file, fault)
    ensures |r.finished| == |s.finished| + 1
    ensures r.finished[|s.finished|].client == c && r.finished[|s.finished|].reply == P.Updated(UpdateReply(m, s.file, fault))
    ensures Idle(r, c)
    ensures Logs(s.log, r.log, if P.Outcome(m, s.file).Ok? && Replaces(fault) then Some(m) else None)
  {
    var s1 := RunToOutcome(init, s, c, m);
    var s2 := s1;
    if P.Outcome(m, s.file).Ok? {
      s2 := RunToLeaving(init, s1, c, fault);
    }
    r := P.Apply(s2, P.Unlock(c));
    StepReachable(init, s2, P.Unlock(c));
  }

  /** Raising does not imply that nothing changed: here an update raises and is committed. */
  lemma RaisedYetCommitted(init: Doc) returns (s: P.System)
    requires SchemaOk(init)
    ensures P.Reachable(init, s) && |s.finished| == 1
    ensures s.finished[0].reply == P.Updated(Err(P.DirSyncFailed))
    ensures s.file == init.(version := init.version + 1)
  {
    var start := P.Start(init);
    var none: seq<P.Action> := [];
    assert P.Trace(init, none, [start]) && [start][|none|] == start;
    s := UpdateIsProtocolRun(init, start, 0, d => Some(d), InDirSync);
  }

  // ----- The orchestrator's updates -----

  function MutatorOf(u: Update): P.Mutator {
    d => Some(Perform(d, u))
  }

  lemma {:induction false} PutTaskKeeps(tasks: seq<TaskDoc>, d: TaskDoc)
    ensures d in PutTask(tasks, d)
  {
    if tasks != [] && tasks[0].id != d.id {
      PutTaskKeeps(tasks[1..], d);
    }
  }

  /** An orchestrator update of a valid document is accepted by the store exactly when its own
      record or total is valid, and then commits what `StateDocument.AfterUpdate` says. */
  lemma UpdateAcceptedExactly(d: Doc, u: Update)
    requires SchemaOk(d)
    ensures P.Outcome(MutatorOf(u), d) == if UpdateOk(u) then Ok(AfterUpdate(d, u)) else Err(P.SchemaInvalid)
  {
    if UpdateOk(u) {
      UpdateKeepsSchema(d, u);
    } else if u.TaskUpdate? {
      PutTaskKeeps(d.tasks, u.task);
    }
  }

  /** The commit order consists of exactly these updates. */
  ghost predicate LogsUpdates(log: seq<P.Commit>, us: seq<Update>) {
    |log| == |us| && forall i | 0 <= i < |log| :: log[i].m == MutatorOf(us[i])
  }

  lemma {:induction false} FoldIsAfterUpdates(init: Doc, log: seq<P.Commit>, us: seq<Update>)
    requires SchemaOk(init) && LogsUpdates(log, us) && forall u | u in us :: UpdateOk(u)
    ensures P.Fold(init, log) == AfterUpdates(init, us) && SchemaOk(P.Fold(init, log))
  {
    if us != [] {
      var n := |us| - 1;
      FoldIsAfterUpdates(init, log[..n], us[..n]);
      assert us == us[..n] + [us[n]];
      UpdatesAppend(init, us[..n], [us[n]]);
      FirstUpdate(AfterUpdates(init, us[..n]), us[n], []);
      assert [us[n]] + [] == [us[n]];
      assert us[n] in us && log[n].m == MutatorOf(us[n]);
      UpdateAcceptedExactly(P.Fold(init, log[..n]), us[n]);
      UpdateKeepsSchema(P.Fold(init, log[..n]), us[n]);
    }
  }

  /** For every list of valid updates there is a store whose commit order it is. */
  lemma {:induction false} StoreFor(init: Doc, us: seq<Update>) returns (s: P.System)
    requires SchemaOk(init) && forall u | u in us :: UpdateOk(u)
    ensures P.Reachable(init, s) && Idle(s, 0) && LogsUpdates(s.log, us)
  {
    if us == [] {
      s := P.Start(init);
      var none: seq<P.Action> := [];
      assert P.Trace(init, none, [s]) && [s][|none|] == s;
    } else {
      var n := |us| - 1;
      var s0 := StoreFor(init, us[..n]);
      assert us[n] in us;
      StoreSafety.FileIsFold(init, s0);
      UpdateAcceptedExactly(s0.file, us[n]);
      s := UpdateIsProtocolRun(init, s0, 0, MutatorOf(us[n]), NoFault);
      forall i | 0 <= i < |s.log| ensures s.log[i].m == MutatorOf(us[i]) {
        if i < n {
          assert s.log[i] == s.log[..n][i];
        }
      }
    }
  }
}
