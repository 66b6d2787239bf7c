/** The ready list of one spawn pass and its stable sort by descending priority. */
module ReadyQueue {
  import opened DependencyGraph
  import opened Scheduler

  /** The ready tasks among `ids`, in the same order. */
  function ReadyAmong(p: Plan, s: State, now: real, ids: seq<Id>): seq<Id> {
    if ids == [] then []
    else
      var n := |ids| - 1;
      var before := ReadyAmong(p, s, now, ids[..n]);
      if Ready(p, s, ids[n], now) then before + [ids[n]] else before
  }

  /** `q` lists different tasks of the plan in plan order. */
  ghost predicate InPlanOrder(p: Plan, q: seq<Id>) {
    && (forall t | t in q :: t in p.order && t in p.specs)
    && (forall i, j | 0 <= i < j < |q| :: IndexOf(p.order, q[i]) < IndexOf(p.order, q[j]))
  }

  lemma {:induction false} DistinctIndex(o: seq<Id>, i: nat)
    requires Distinct(o) && i < |o|
    ensures IndexOf(o, o[i]) == i
  {
    if i > 0 {
      DistinctIndex(o[1..], i - 1);
    }
  }

  /** The ready list holds exactly the ready tasks, in plan order. */
  lemma {:induction false} ReadyAmongIs(p: Plan, s: State, now: real, n: nat)
    requires Distinct(p.order) && Elements(p.order) == p.specs.Keys && n <= |p.order|
    ensures InPlanOrder(p, ReadyAmong(p, s, now, p.order[..n]))
    ensures forall t :: t in ReadyAmong(p, s, now, p.order[..n]) <==> t in p.order[..n] && Ready(p, s, t, now)
  {
    var ids := p.order[..n];
    if n > 0 {
      ReadyAmongIs(p, s, now, n - 1);
      assert ids[..n - 1] == p.order[..n - 1];
      DistinctIndex(p.order, n - 1);
      var before := ReadyAmong(p, s, now, p.order[..n - 1]);
      forall t | t in before ensures IndexOf(p.order, t) < n - 1 {
        var i :| 0 <= i < n - 1 && p.order[i] == t;
        DistinctIndex(p.order, i);
      }
      assert ids[n - 1] in Elements(p.order);
    }
  }

  // ----- Priority -----

  /** The sort key; tasks outside the plan do not occur in a queue. */
  function Priority(p: Plan, t: Id): int {
    if t in p.specs then p.specs[t].priority else 0
  }

  /** Insert `t` after every entry of at least its priority. */
  function Insert(p: Plan, sorted: seq<Id>, t: Id): seq<Id> {
    if sorted == [] || Priority(p, sorted[|sorted| - 1]) >= Priority(p, t) then sorted + [t]
    else Insert(p, sorted[..|sorted| - 1], t) + [sorted[|sorted| - 1]]
  }

  function SortByPriority(p: Plan, q: seq<Id>): seq<Id> {
    if q == [] then [] else Insert(p, SortByPriority(p, q[..|q| - 1]), q[|q| - 1])
  }

  /** Before in the queue: higher priority, or equal priority and earlier in the plan. */
  ghost predicate Precedes(p: Plan, a: Id, b: Id) {
    && a in p.order && b in p.order && a in p.specs && b in p.specs
    && (p.specs[a].priority > p.specs[b].priority
        || (p.specs[a].priority == p.specs[b].priority && IndexOf(p.order, a) < IndexOf(p.order, b)))
  }

  ghost predicate Queued(p: Plan, r: seq<Id>) {
    forall i, j | 0 <= i < j < |r| :: Precedes(p, r[i], r[j])
  }

  lemma PrecedesThen(p: Plan, a: Id, b: Id, c: Id)
    requires Precedes(p, a, b) && Precedes(p, b, c)
    ensures Precedes(p, a, c)
  {
  }

  lemma NotBothWays(p: Plan, a: Id, b: Id)
    requires Precedes(p, a, b)
    ensures !Precedes(p, b, a)
  {
  }

  lemma QueuedPush(p: Plan, r: seq<Id>, x: Id)
    requires Queued(p, r) && forall u | u in r :: Precedes(p, u, x)
    ensures Queued(p, r + [x])
  {
    var r' := r + [x];
    forall i, j | 0 <= i < j < |r'| ensures Precedes(p, r'[i], r'[j]) {
      assert r'[i] in r;
    }
  }

  lemma QueuedTake(p: Plan, r: seq<Id>, n: nat)
    requires Queued(p, r) && n <= |r|
    ensures Queued(p, r[..n]) && forall u | u in r[..n] :: u in r
  {
  }

  lemma {:induction false} InsertPermutes(p: Plan, sorted: seq<Id>, t: Id)
    ensures multiset(Insert(p, sorted, t)) == multiset(sorted) + multiset{t}
  {
    if sorted != [] {
      var n := |sorted| - 1;
      assert sorted == sorted[..n] + [sorted[n]];
      if Priority(p, sorted[n]) < Priority(p, t) {
        InsertPermutes(p, sorted[..n], t);
      }
    }
  }

  lemma {:induction false} InsertQueues(p: Plan, sorted: seq<Id>, t: Id)
    requires Queued(p, sorted) && t in p.order && t in p.specs
    requires forall u | u in sorted :: u in p.order && u in p.specs && IndexOf(p.order, u) < IndexOf(p.order, t)
    ensures Queued(p, Insert(p, sorted, t))
  {
    if sorted != [] {
      var n := |sorted| - 1;
      assert sorted[n] in sorted;
      if Priority(p, sorted[n]) >= Priority(p, t) {
        AppendQueues(p, sorted, t);
      } else {
        QueuedTake(p, sorted, n);
        InsertPermutes(p, sorted[..n], t);
        InsertQueues(p, sorted[..n], t);
        InsertedBefore(p, sorted, t, Insert(p, sorted[..n], t));
      }
    }
  }

  lemma AppendQueues(p: Plan, sorted: seq<Id>, t: Id)
    requires sorted != [] && Queued(p, sorted) && Precedes(p, sorted[|sorted| - 1], t)
    ensures Queued(p, sorted + [t])
  {
    forall u | u in sorted ensures Precedes(p, u, t) {
      BeforeLast(p, sorted, t, u);
    }
    QueuedPush(p, sorted, t);
  }

  lemma BeforeLast(p: Plan, sorted: seq<Id>, t: Id, u: Id)
    requires Queued(p, sorted) && u in sorted && Precedes(p, sorted[|sorted| - 1], t)
    ensures Precedes(p, u, t)
  {
    var n := |sorted| - 1;
    if u != sorted[n] {
      var i :| 0 <= i < |sorted| && sorted[i] == u;
      assert Precedes(p, sorted[i], sorted[n]);
      PrecedesThen(p, u, sorted[n], t);
    }
  }

  lemma InsertedBefore(p: Plan, sorted: seq<Id>, t: Id, r: seq<Id>)
    requires sorted != [] && Queued(p, sorted) && t in p.order && t in p.specs
    requires Priority(p, sorted[|sorted| - 1]) < Priority(p, t)
    requires sorted[|sorted| - 1] in p.order && sorted[|sorted| - 1] in p.specs
    requires Queued(p, r) && multiset(r) == multiset(sorted[..|sorted| - 1]) + multiset{t}
    ensures Queued(p, r + [sorted[|sorted| - 1]])
  {
    var n := |sorted| - 1;
    forall u | u in r ensures Precedes(p, u, sorted[n]) {
      assert u in multiset(r);
      if u != t {
        assert u in sorted[..n];
        var i :| 0 <= i < n && sorted[..n][i] == u;
        assert Precedes(p, sorted[i], sorted[n]);
      }
    }
    QueuedPush(p, r, sorted[n]);
  }

  /** The sort is a permutation, descends by priority and keeps ties in plan order. */
  lemma {:induction false} SortIsStable(p: Plan, q: seq<Id>)
    requires InPlanOrder(p, q)
    ensures Queued(p, SortByPriority(p, q))
    ensures multiset(SortByPriority(p, q)) == multiset(q)
  {
    if q != [] {
      var n := |q| - 1;
      assert q == q[..n] + [q[n]];
      SortIsStable(p, q[..n]);
      forall u | u in SortByPriority(p, q[..n])
        ensures u in p.order && u in p.specs && IndexOf(p.order, u) < IndexOf(p.order, q[n])
      {
        assert u in multiset(q[..n]);
      }
      InsertPermutes(p, SortByPriority(p, q[..n]), q[n]);
      InsertQueues(p, SortByPriority(p, q[..n]), q[n]);
    }
  }

  lemma FirstPrecedes(p: Plan, a: seq<Id>, x: Id)
    requires Queued(p, a) && x in multiset(a)
    ensures x == a[0] || Precedes(p, a[0], x)
  {
    var i :| 0 <= i < |a| && a[i] == x;
  }

  lemma QueuedDrop(p: Plan, a: seq<Id>)
    requires a != [] && Queued(p, a)
    ensures Queued(p, a[1..])
  {
    forall i, j | 0 <= i < j < |a[1..]| ensures Precedes(p, a[1..][i], a[1..][j]) {
      var k, l := i + 1, j + 1;
      assert Precedes(p, a[k], a[l]);
    }
  }

  lemma DropFirst(a: seq<Id>)
    requires a != []
    ensures multiset(a[1..]) == multiset(a) - multiset{a[0]}
  {
    assert a == [a[0]] + a[1..];
  }

  /** Priority and plan order leave no choice: there is only one such arrangement. */
  lemma {:induction false} QueueIsUnique(p: Plan, a: seq<Id>, b: seq<Id>)
    requires Queued(p, a) && Queued(p, b) && multiset(a) == multiset(b)
    ensures a == b
  {
    assert |a| == |multiset(a)| == |multiset(b)| == |b|;
    if a != [] {
      assert a[0] in multiset(a) && b[0] in multiset(b);
      FirstPrecedes(p, a, b[0]);
      FirstPrecedes(p, b, a[0]);
      if a[0] != b[0] {
        NotBothWays(p, a[0], b[0]);
        assert false;
      }
      QueuedDrop(p, a);
      QueuedDrop(p, b);
      DropFirst(a);
      DropFirst(b);
      QueueIsUnique(p, a[1..], b[1..]);
    }
  }

  /** The queue of a pass: exactly the ready tasks, each once, in the order they are attempted. */
  function Queue(p: Plan, s: State, now: real): seq<Id> {
    SortByPriority(p, ReadyAmong(p, s, now, p.order))
  }

  lemma QueueIs(p: Plan, s: State, now: real)
    requires WellFormed(p)
    ensures Queued(p, Queue(p, s, now)) && Distinct(Queue(p, s, now))
    ensures forall t :: t in Queue(p, s, now) <==> Ready(p, s, t, now)
  {
    var q := ReadyAmong(p, s, now, p.order);
    assert p.order[..|p.order|] == p.order;
    ReadyAmongIs(p, s, now, |p.order|);
    SortIsStable(p, q);
    forall t ensures t in Queue(p, s, now) <==> Ready(p, s, t, now) {
      assert t in Queue(p, s, now) <==> t in multiset(Queue(p, s, now));
      assert t in q <==> t in multiset(q);
      assert t in p.specs.Keys <==> t in Elements(p.order);
    }
    forall i, j | 0 <= i < j < |Queue(p, s, now)| ensures Queue(p, s, now)[i] != Queue(p, s, now)[j] {
      assert Precedes(p, Queue(p, s, now)[i], Queue(p, s, now)[j]);
    }
  }

  /** Whatever prefix of the queue is attempted, each task of it goes before every ready task
      that is left: by a higher priority in the plan, or by its place among equals. */
  lemma PrefixGoesFirst(p: Plan, s: State, now: real, attempted: seq<Id>)
    requires WellFormed(p) && attempted <= Queue(p, s, now)
    ensures forall a, u | a in attempted && u !in attempted && Ready(p, s, u, now) :: Precedes(p, a, u)
  {
    QueueIs(p, s, now);
    var q := Queue(p, s, now);
    assert forall k | 0 <= k < |attempted| :: q[k] in attempted;
    forall a, u | a in attempted && u !in attempted && Ready(p, s, u, now) ensures Precedes(p, a, u) {
      var i :| 0 <= i < |attempted| && attempted[i] == a;
      var j :| 0 <= j < |q| && q[j] == u;
      assert q[i] == a && q[j] == u;
    }
  }
}
