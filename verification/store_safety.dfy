/** What the protocol's invariants say about every interleaving: commits are applied in one
    order, operations see and return what was committed, and versions follow real time. */
module StoreSafety {
  import opened Wrappers
  import opened StateDocument
  import opened StoreProtocol

  /** The file is the initial document folded through the committed mutators in commit
      order, and its version counts the commits. */
  lemma FileIsFold(init: Doc, s: System)
    requires SchemaOk(init) && Reachable(init, s)
    ensures s.file == Fold(init, s.log) && SchemaOk(s.file)
    ensures s.file.version == init.version + |s.log|
  {
    ReachableInv(init, s);
    assert s.log[..|s.log|] == s.log;
    assert CommittedOk(init, s.log, |s.log|);
  }

  /** A client between its lock and its unlock of an update is alone in the critical section. */
  lemma WritersExclude(init: Doc, s: System, c: ClientId, c': ClientId)
    requires SchemaOk(init) && Reachable(init, s) && c in s.clients && c' in s.clients && c != c'
    requires InWrite(s.clients[c].phase)
    ensures !InWrite(s.clients[c'].phase) && !InRead(s.clients[c'].phase)
  {
    ReachableInv(init, s);
  }

  /** From `d` the mutator leads to `next`: a valid result of the same version, one later. */
  predicate VersionKept(m: Mutator, d: Doc, next: Doc) {
    && m(d).Some? && m(d).value.version == d.version
    && next == m(d).value.(version := d.version + 1) && SchemaOk(next)
  }

  /** Every commit applied its mutator to the document before it, whose version the mutator
      kept, and made its valid result current one version later. */
  lemma CommitsKeepVersions(init: Doc, s: System, n: nat)
    requires SchemaOk(init) && Reachable(init, s) && n < |s.log|
    ensures VersionKept(s.log[n].m, StateAt(init, s.log, n), StateAt(init, s.log, n + 1))
    ensures StateAt(init, s.log, 0) == init && s.file == StateAt(init, s.log, |s.log|)
  {
    ReachableInv(init, s);
    assert CommittedOk(init, s.log, n) && CommittedOk(init, s.log, n + 1);
    assert s.log[..n + 1][..n] == s.log[..n];
  }

  lemma RaisedUpdateByReply(init: Doc, s: System, f: Finished)
    requires SchemaOk(init) && Reachable(init, s) && f in s.finished && f.reply.Updated? && f.reply.outcome.Err?
    ensures !InLog(s.log, f.op) <==> f.reply.outcome.error != DirSyncFailed
  {
    ReachableInv(init, s);
    assert FinishedOk(init, s.log, f);
    if f.reply.outcome.error == DirSyncFailed {
      var n: nat :| CommittedAt(s.log, f.op, f.begin, f.end, n);
      assert s.log[n - 1].op == f.op;
    }
  }

  /** The document an operation returned, if it returned one. */
  function ReplyDoc(reply: Reply): Option<Doc> {
    match reply
    case Updated(Ok(d)) => Some(d)
    case Answered(Ok(d)) => Some(d)
    case _ => None
  }

  /** Every read succeeds, with a committed, schema-valid document. */
  lemma ReadsSeeCommits(init: Doc, s: System, f: Finished)
    requires SchemaOk(init) && Reachable(init, s) && f in s.finished && f.reply.Answered?
    ensures f.reply.answer.Ok? && SchemaOk(f.reply.answer.value)
    ensures exists n | f.begin <= n <= f.end :: n <= |s.log| && f.reply.answer.value == StateAt(init, s.log, n)
  {
    ReachableInv(init, s);
    assert FinishedOk(init, s.log, f);
  }

  lemma VersionWithin(init: Doc, s: System, f: Finished)
    requires Inv(init, s) && f in s.finished && ReplyDoc(f.reply).Some?
    ensures var v := ReplyDoc(f.reply).value.version - init.version;
      f.begin + (if f.reply.Updated? then 1 else 0) <= v <= f.end
  {
    assert FinishedOk(init, s.log, f);
    if f.reply.Updated? {
      var n: nat :| CommittedAt(s.log, f.op, f.begin, f.end, n) && f.reply.outcome.value == StateAt(init, s.log, n);
      assert CommittedOk(init, s.log, n);
    } else {
      var n :| f.begin <= n <= f.end && f.reply.answer.value == StateAt(init, s.log, n);
      assert CommittedOk(init, s.log, n);
    }
  }

  /** Real time is respected: an operation that starts after another returned sees at least
      its version, and a strictly greater one when it is an update. */
  lemma VersionsRespectTime(init: Doc, s: System, i: nat, j: nat)
    requires SchemaOk(init) && Reachable(init, s) && j < |s.finished| && i < s.finished[j].began
    requires i < |s.finished| && ReplyDoc(s.finished[i].reply).Some? && ReplyDoc(s.finished[j].reply).Some?
    ensures var v, v' := ReplyDoc(s.finished[i].reply).value.version, ReplyDoc(s.finished[j].reply).value.version;
      if s.finished[j].reply.Updated? then v < v' else v <= v'
  {
    ReachableInv(init, s);
    VersionWithin(init, s, s.finished[i]);
    VersionWithin(init, s, s.finished[j]);
  }

  /** The versions that one client sees never go down. */
  lemma ClientVersionsNeverGoDown(init: Doc, s: System, i: nat, j: nat)
    requires SchemaOk(init) && Reachable(init, s) && i < j < |s.finished| && s.finished[i].client == s.finished[j].client
    requires ReplyDoc(s.finished[i].reply).Some? && ReplyDoc(s.finished[j].reply).Some?
    ensures ReplyDoc(s.finished[i].reply).value.version <= ReplyDoc(s.finished[j].reply).value.version
  {
    ReachableInv(init, s);
    VersionsRespectTime(init, s, i, j);
  }

  // ----- When raising means that nothing changed -----

  /** Step `i` is the failing directory sync of operation `op`. */
  ghost predicate SyncFailsAt(actions: seq<Action>, states: seq<System>, op: nat, i: nat)
    requires i < |actions| && |states| == |actions| + 1
  {
    && actions[i].SyncDir? && !actions[i].ok
    && actions[i].c in states[i].clients && states[i].clients[actions[i].c].op == op
  }

  /** Among the first `n` steps is the failing directory sync of operation `op`. */
  ghost predicate SyncFailed(actions: seq<Action>, states: seq<System>, op: nat, n: nat)
    requires n <= |actions| && |states| == |actions| + 1
  {
    exists i: nat | i < n :: SyncFailsAt(actions, states, op, i)
  }

  ghost predicate ClientTold(actions: seq<Action>, states: seq<System>, n: nat, c: ClientId)
    requires n <= |actions| && |states| == |actions| + 1
  {
    && c in states[n].clients
    && var k := states[n].clients[c];
       (SyncFailed(actions, states, k.op, n) <==> k.phase == Leaving(Err(DirSyncFailed)))
  }

  ghost predicate FinishedTold(actions: seq<Action>, states: seq<System>, n: nat, i: nat)
    requires n <= |actions| && |states| == |actions| + 1
  {
    && i < |states[n].finished|
    && var f := states[n].finished[i];
       (SyncFailed(actions, states, f.op, n) <==> f.reply == Updated(Err(DirSyncFailed)))
  }

  ghost predicate SyncsTold(actions: seq<Action>, states: seq<System>, n: nat)
    requires n <= |actions| && |states| == |actions| + 1
  {
    && (forall c | c in states[n].clients :: ClientTold(actions, states, n, c))
    && (forall i: nat | i < |states[n].finished| :: FinishedTold(actions, states, n, i))
    && (forall op: nat | SyncFailed(actions, states, op, n) :: op < states[n].nextOp)
  }

  lemma SyncFailedStep(actions: seq<Action>, states: seq<System>, op: nat, n: nat)
    requires n < |actions| && |states| == |actions| + 1
    ensures SyncFailed(actions, states, op, n + 1) <==>
      SyncFailed(actions, states, op, n) || SyncFailsAt(actions, states, op, n)
  {
  }

  /** What one step does to a client's promise about its directory sync. */
  lemma SyncsOfClient(init: Doc, actions: seq<Action>, states: seq<System>, n: nat, c: ClientId)
    requires n < |actions| && |states| == |actions| + 1 && StepAt(actions, states, n)
    requires Inv(init, states[n]) && SyncsTold(actions, states, n) && c in states[n + 1].clients
    ensures ClientTold(actions, states, n + 1, c)
  {
    var s, a := states[n], actions[n];
    SyncFailedStep(actions, states, states[n + 1].clients[c].op, n);
    if c in s.clients {
      assert ClientTold(actions, states, n, c);
    }
    if c != a.c {
      assert c in s.clients && states[n + 1].clients[c] == s.clients[c];
      assert a.c in s.clients ==> s.clients[a.c].op != s.clients[c].op;
    }
  }

  lemma SyncsOfFinished(init: Doc, actions: seq<Action>, states: seq<System>, n: nat, i: nat)
    requires n < |actions| && |states| == |actions| + 1 && StepAt(actions, states, n)
    requires Inv(init, states[n]) && SyncsTold(actions, states, n) && i < |states[n + 1].finished|
    ensures FinishedTold(actions, states, n + 1, i)
  {
    var s, a := states[n], actions[n];
    SyncFailedStep(actions, states, states[n + 1].finished[i].op, n);
    if i < |s.finished| {
      assert FinishedTold(actions, states, n, i);
      assert states[n + 1].finished[i] == s.finished[i];
      assert a.c in s.clients ==> s.clients[a.c].op != s.finished[i].op;
    } else {
      assert ClientTold(actions, states, n, a.c);
      assert ClientOk(init, s, s.clients[a.c]);
    }
  }

  lemma SyncsStep(init: Doc, actions: seq<Action>, states: seq<System>, n: nat)
    requires n < |actions| && |states| == |actions| + 1 && StepAt(actions, states, n)
    requires Inv(init, states[n]) && SyncsTold(actions, states, n)
    ensures SyncsTold(actions, states, n + 1)
  {
    var m := n + 1;
    forall c | c in states[m].clients ensures ClientTold(actions, states, m, c) {
      SyncsOfClient(init, actions, states, n, c);
    }
    forall i: nat | i < |states[m].finished| ensures FinishedTold(actions, states, m, i) {
      SyncsOfFinished(init, actions, states, n, i);
    }
    forall op: nat | SyncFailed(actions, states, op, m) ensures op < states[m].nextOp {
      SyncFailedStep(actions, states, op, n);
      OpsGrow(states[n], actions[n]);
    }
  }

  lemma OpsGrow(s: System, a: Action)
    requires Enabled(s, a)
    ensures s.nextOp <= Apply(s, a).nextOp
  {
  }

  lemma {:induction false} SyncsOfTrace(init: Doc, actions: seq<Action>, states: seq<System>, n: nat)
    requires SchemaOk(init) && Trace(init, actions, states) && n <= |actions|
    ensures SyncsTold(actions, states, n)
  {
    if n > 0 {
      SyncsOfTrace(init, actions, states, n - 1);
      TraceInv(init, actions, states, n - 1);
      assert StepAt(actions, states, n - 1);
      SyncsStep(init, actions, states, n - 1);
    }
  }

  /** An update that raised is in the commit order exactly if its own directory sync failed:
      any other failure leaves the document as it was. */
  lemma RaisedUpdateExactly(init: Doc, actions: seq<Action>, states: seq<System>, f: Finished)
    requires SchemaOk(init) && Trace(init, actions, states) && f in states[|actions|].finished
    requires f.reply.Updated? && f.reply.outcome.Err?
    ensures InLog(states[|actions|].log, f.op) <==> SyncFailed(actions, states, f.op, |actions|)
  {
    assert Reachable(init, states[|actions|]);
    RaisedUpdateByReply(init, states[|actions|], f);
    SyncsOfTrace(init, actions, states, |actions|);
    var i: nat :| i < |states[|actions|].finished| && states[|actions|].finished[i] == f;
    assert FinishedTold(actions, states, |actions|, i);
  }
}
