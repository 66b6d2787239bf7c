/** Dependency graphs of a plan: walks, cycles and topological orders.
    An edge runs from a task to a task it depends on. */
module DependencyGraph {

  type Id = string

  /** Each task id with its `depends_on` list, which may name ids that are not keys. */
  type Graph = map<Id, seq<Id>>

  ghost predicate Edge(g: Graph, a: Id, b: Id) {
    a in g && b in g && b in g[a]
  }

  ghost predicate Walk(g: Graph, p: seq<Id>) {
    && p != []
    && (forall i | 0 <= i < |p| :: p[i] in g)
    && (forall i, j | 0 <= i < j < |p| && j == i + 1 :: Edge(g, p[i], p[j]))
  }

  ghost predicate Cycle(g: Graph, p: seq<Id>) {
    Walk(g, p) && |p| >= 2 && p[0] == p[|p| - 1]
  }

  ghost predicate Acyclic(g: Graph) {
    forall p :: !Cycle(g, p)
  }

  /** Every dependency names a task of the graph. */
  ghost predicate Closed(g: Graph) {
    forall a, d | a in g && d in g[a] :: d in g
  }

  ghost predicate WalkBetween(g: Graph, p: seq<Id>, a: Id, b: Id) {
    Walk(g, p) && |p| >= 2 && p[0] == a && p[|p| - 1] == b
  }

  /** `a` depends on `b`, directly or through other tasks. */
  ghost predicate Reaches(g: Graph, a: Id, b: Id) {
    exists p :: WalkBetween(g, p, a, b)
  }

  predicate Distinct<T(==)>(s: seq<T>) {
    forall i, j | 0 <= i < j < |s| :: s[i] != s[j]
  }

  /** Every task of the graph that `x` depends on occurs in `before`. */
  ghost predicate DepsIn(g: Graph, x: Id, before: seq<Id>)
    requires x in g
  {
    forall d | d in g[x] && d in g :: d in before
  }

  /** `o` lists tasks of `g`, each after everything it depends on. */
  ghost predicate Ordered(g: Graph, o: seq<Id>) {
    if o == [] then true
    else
      var before, x := o[..|o| - 1], o[|o| - 1];
      Ordered(g, before) && x in g && x !in before && DepsIn(g, x, before)
  }

  ghost predicate TopologicalOrder(g: Graph, o: seq<Id>) {
    Ordered(g, o) && (forall x | x in g :: x in o)
  }

  // ----- An order excludes cycles -----

  function IndexOf(o: seq<Id>, x: Id): (i: nat)
    requires x in o
    ensures i < |o| && o[i] == x
  {
    if o[0] == x then 0 else 1 + IndexOf(o[1..], x)
  }

  lemma {:induction false} IndexInPrefix(o: seq<Id>, more: seq<Id>, x: Id)
    requires x in o && o <= more
    ensures IndexOf(more, x) == IndexOf(o, x)
  {
    if o[0] != x {
      IndexInPrefix(o[1..], more[1..], x);
    }
  }

  lemma LastIndex(o: seq<Id>, x: Id)
    requires o != [] && x == o[|o| - 1] && x !in o[..|o| - 1]
    ensures IndexOf(o, x) == |o| - 1
  {
    assert forall i | 0 <= i < |o| - 1 :: o[i] in o[..|o| - 1];
  }

  lemma {:induction false} EdgeDescends(g: Graph, o: seq<Id>, a: Id, b: Id)
    requires Ordered(g, o) && a in o && Edge(g, a, b)
    ensures b in o && IndexOf(o, b) < IndexOf(o, a)
  {
    var n := |o| - 1;
    if a == o[n] {
      assert b in o[..n];
      IndexInPrefix(o[..n], o, b);
      LastIndex(o, a);
    } else {
      EdgeDescends(g, o[..n], a, b);
      IndexInPrefix(o[..n], o, b);
      IndexInPrefix(o[..n], o, a);
    }
  }

  lemma {:induction false} WalkDescends(g: Graph, o: seq<Id>, p: seq<Id>)
    requires TopologicalOrder(g, o) && Walk(g, p)
    ensures IndexOf(o, p[0]) >= IndexOf(o, p[|p| - 1]) + |p| - 1
    decreases |p|
  {
    if |p| > 1 {
      EdgeDescends(g, o, p[0], p[1]);
      WalkDescends(g, o, p[1..]);
    }
  }

  lemma OrderExcludesCycles(g: Graph, o: seq<Id>)
    requires TopologicalOrder(g, o)
    ensures Acyclic(g)
  {
    forall p | Cycle(g, p) ensures false {
      WalkDescends(g, o, p);
    }
  }

  // ----- An acyclic graph has an order -----

  ghost function Elements<T>(s: seq<T>): (r: set<T>) {
    set x | x in s
  }

  lemma {:induction false} DistinctCount<T>(s: seq<T>)
    requires Distinct(s)
    ensures |Elements(s)| == |s|
  {
    if s != [] {
      var n := |s| - 1;
      DistinctCount(s[..n]);
      assert Elements(s) == Elements(s[..n]) + {s[n]};
      assert s[n] !in Elements(s[..n]);
    }
  }

  lemma SubsetCount<T>(a: set<T>, b: set<T>)
    requires a <= b
    ensures |a| <= |b|
  {
    assert b == a + (b - a);
  }

  ghost predicate HasDepIn(g: Graph, x: Id, r: set<Id>) {
    x in g && exists d | d in g[x] :: d in r
  }

  /** A walk of `n + 1` nodes that stays in `r`, when every node of `r` has a dependency in `r`. */
  lemma {:induction false} LongWalk(g: Graph, r: set<Id>, x: Id, n: nat) returns (p: seq<Id>)
    requires forall a | a in r :: HasDepIn(g, a, r)
    requires x in r
    ensures Walk(g, p) && |p| == n + 1 && p[0] == x && Elements(p) <= r
    decreases n
  {
    assert HasDepIn(g, x, r);
    if n == 0 {
      p := [x];
    } else {
      var d :| d in g[x] && d in r;
      assert HasDepIn(g, d, r);
      var q := LongWalk(g, r, d, n - 1);
      p := [x] + q;
      WalkCons(g, x, q);
      assert Elements(p) == {x} + Elements(q);
    }
  }

  lemma WalkCons(g: Graph, a: Id, p: seq<Id>)
    requires Walk(g, p) && Edge(g, a, p[0])
    ensures Walk(g, [a] + p)
  {
    var q := [a] + p;
    forall i, j | 0 <= i < j < |q| && j == i + 1 ensures Edge(g, q[i], q[j]) {
      if i > 0 { assert q[i] == p[i - 1] && q[j] == p[j - 1]; }
    }
  }

  lemma WalkSlice(g: Graph, p: seq<Id>, i: nat, j: nat)
    requires Walk(g, p) && i < j <= |p|
    ensures Walk(g, p[i..j])
  {
  }

  lemma CrowdedWalkHasCycle(g: Graph, r: set<Id>, p: seq<Id>) returns (c: seq<Id>)
    requires Walk(g, p) && Elements(p) <= r && |p| > |r|
    ensures Cycle(g, c)
  {
    assert !Distinct(p) by {
      if Distinct(p) {
        DistinctCount(p);
        SubsetCount(Elements(p), r);
      }
    }
    var i, j :| 0 <= i < j < |p| && p[i] == p[j];
    WalkSlice(g, p, i, j + 1);
    c := p[i..j + 1];
  }

  lemma DependencyFreeNode(g: Graph, r: set<Id>) returns (x: Id)
    requires Acyclic(g) && r != {} && r <= g.Keys
    ensures x in r && !HasDepIn(g, x, r)
  {
    x :| x in r;
    if forall a | a in r :: HasDepIn(g, a, r) {
      var p := LongWalk(g, r, x, |r|);
      var c := CrowdedWalkHasCycle(g, r, p);
      assert false;
    }
    x :| x in r && !HasDepIn(g, x, r);
  }

  lemma {:induction false} ExtendOrder(g: Graph, o: seq<Id>) returns (full: seq<Id>)
    requires Acyclic(g) && Ordered(g, o)
    ensures TopologicalOrder(g, full)
    decreases |g.Keys - Elements(o)|
  {
    var r := g.Keys - Elements(o);
    if r == {} {
      full := o;
      forall x | x in g ensures x in o {
        assert x !in r;
      }
    } else {
      var x := DependencyFreeNode(g, r);
      var o' := o + [x];
      assert o'[..|o|] == o;
      assert forall d | d in g[x] && d in g :: d in Elements(o);
      assert g.Keys - Elements(o') == r - {x};
      full := ExtendOrder(g, o');
    }
  }

  /** A graph is acyclic exactly when it has a topological order. */
  lemma AcyclicIffOrdered(g: Graph)
    ensures Acyclic(g) <==> exists o :: TopologicalOrder(g, o)
  {
    if Acyclic(g) {
      var o := ExtendOrder(g, []);
    }
    if o :| TopologicalOrder(g, o) {
      OrderExcludesCycles(g, o);
    }
  }

  ghost function OrderOf(g: Graph): (o: seq<Id>)
    requires Acyclic(g)
    ensures TopologicalOrder(g, o)
  {
    AcyclicIffOrdered(g);
    var o :| TopologicalOrder(g, o);
    o
  }

  /** Position of `x` in a fixed topological order: a measure that falls along every edge. */
  ghost function Rank(g: Graph, x: Id): nat
    requires Acyclic(g) && x in g
  {
    IndexOf(OrderOf(g), x)
  }

  lemma EdgeLowersRank(g: Graph, a: Id, b: Id)
    requires Acyclic(g) && Edge(g, a, b)
    ensures Rank(g, b) < Rank(g, a)
  {
    EdgeDescends(g, OrderOf(g), a, b);
  }

  // ----- Reachability -----

  lemma EdgeReaches(g: Graph, a: Id, b: Id)
    requires Edge(g, a, b)
    ensures Reaches(g, a, b)
  {
    assert WalkBetween(g, [a, b], a, b);
  }

  lemma EdgeThenReaches(g: Graph, a: Id, b: Id, c: Id)
    requires Edge(g, a, b) && Reaches(g, b, c)
    ensures Reaches(g, a, c)
  {
    var p :| WalkBetween(g, p, b, c);
    WalkCons(g, a, p);
    assert WalkBetween(g, [a] + p, a, c);
  }
}
