/** The gray/black depth-first cycle check, run by the plan parser and again by the
    orchestrator. The two differ in one branch: for a dependency that is not a task,
    the parser goes on to the next one and the orchestrator raises an error. */
module CycleCheck {
  import opened DependencyGraph

  datatype Color = White | Gray | Black

  datatype Verdict =
    | Accepted
    | CycleFound(path: seq<Id>)
    | UnknownDependency(task: Id, dep: Id)

  /** What the reported path promises: it is a walk, and its part from the first
      occurrence of its last node is a cycle. */
  ghost predicate ReportsCycle(g: Graph, path: seq<Id>) {
    && Walk(g, path)
    && exists i | 0 <= i < |path| - 1 :: Cycle(g, path[i..])
  }

  ghost predicate ReportsUnknown(g: Graph, task: Id, dep: Id) {
    task in g && dep in g[task] && dep !in g
  }

  /** A walk without repeated nodes, or no node at all. */
  ghost predicate SimpleWalk(g: Graph, p: seq<Id>) {
    if p == [] then true
    else
      var before, x := p[..|p| - 1], p[|p| - 1];
      && SimpleWalk(g, before) && x in g && x !in before
      && (before == [] || Edge(g, before[|before| - 1], x))
  }

  lemma {:induction false} SimpleWalkIsWalk(g: Graph, p: seq<Id>)
    requires SimpleWalk(g, p) && p != []
    ensures Walk(g, p)
  {
    if |p| > 1 {
      SimpleWalkIsWalk(g, p[..|p| - 1]);
      PushKeepsWalk(g, p[..|p| - 1], p[|p| - 1]);
      assert p[..|p| - 1] + [p[|p| - 1]] == p;
    }
  }

  ghost predicate DepsKnown(g: Graph, x: Id) {
    x in g && forall d | d in g[x] :: d in g
  }

  ghost function KeysOf(color: map<Id, Color>, c: Color): set<Id> {
    set x | x in color && color[x] == c
  }

  /** The gray nodes are exactly the stack, which is a walk; the black nodes are
      exactly `finished`, each after everything it depends on. */
  ghost predicate Consistent(g: Graph, rejectUnknown: bool,
                             color: map<Id, Color>, stack: seq<Id>, finished: seq<Id>) {
    && color.Keys == g.Keys
    && SimpleWalk(g, stack)
    && Elements(stack) == KeysOf(color, Gray)
    && Elements(finished) == KeysOf(color, Black)
    && Ordered(g, finished)
    && (rejectUnknown ==> forall x | x in finished :: DepsKnown(g, x))
  }

  /** The first `n` entries of an adjacency list once the search has gone through them. */
  ghost predicate Explored(g: Graph, rejectUnknown: bool, deps: seq<Id>, n: nat, finished: seq<Id>)
    requires n <= |deps|
  {
    forall k | 0 <= k < n :: Resolved(g, rejectUnknown, deps[k], finished)
  }

  ghost predicate Resolved(g: Graph, rejectUnknown: bool, dep: Id, finished: seq<Id>) {
    if dep in g then dep in finished else !rejectUnknown
  }

  lemma ExploredStep(g: Graph, rejectUnknown: bool, deps: seq<Id>, n: nat, finished: seq<Id>)
    requires n < |deps| && Explored(g, rejectUnknown, deps, n, finished)
    requires Resolved(g, rejectUnknown, deps[n], finished)
    ensures Explored(g, rejectUnknown, deps, n + 1, finished)
  {
  }

  lemma ExploredGrows(g: Graph, rejectUnknown: bool, deps: seq<Id>, n: nat, finished: seq<Id>, more: seq<Id>)
    requires n <= |deps| && Explored(g, rejectUnknown, deps, n, finished) && finished <= more
    ensures Explored(g, rejectUnknown, deps, n, more)
  {
    forall k | 0 <= k < n ensures Resolved(g, rejectUnknown, deps[k], more) {
      if deps[k] in finished {
        var j :| 0 <= j < |finished| && finished[j] == deps[k];
        assert more[j] == deps[k];
      }
    }
  }

  /** The search state when `node` is about to be blackened. */
  lemma ExploredAll(g: Graph, rejectUnknown: bool, node: Id, finished: seq<Id>)
    requires node in g && Explored(g, rejectUnknown, g[node], |g[node]|, finished)
    ensures DepsIn(g, node, finished) && (rejectUnknown ==> DepsKnown(g, node))
  {
    forall d | d in g[node] ensures Resolved(g, rejectUnknown, d, finished) {
      var k :| 0 <= k < |g[node]| && g[node][k] == d;
    }
  }

  class Checker {
    const graph: Graph
    const keys: seq<Id>
    const rejectUnknown: bool
    var color: map<Id, Color>
    var stack: seq<Id>
    /** The black nodes in the order they turned black. */
    ghost var finished: seq<Id>

    ghost predicate Valid()
      reads this
    {
      && Elements(keys) == graph.Keys
      && Consistent(graph, rejectUnknown, color, stack, finished)
    }

    ghost function WhiteNodes(): set<Id>
      reads this
    {
      KeysOf(color, White)
    }

    /** What a rejecting verdict promises about the graph. */
    ghost predicate Reported(v: Verdict) {
      match v
      case Accepted => true
      case CycleFound(path) => ReportsCycle(graph, path)
      case UnknownDependency(task, dep) => rejectUnknown && ReportsUnknown(graph, task, dep)
    }

    constructor (graph: Graph, keys: seq<Id>, rejectUnknown: bool)
      requires Elements(keys) == graph.Keys
      ensures Valid() && stack == [] && finished == []
      ensures this.graph == graph && this.keys == keys && this.rejectUnknown == rejectUnknown
    {
      this.graph, this.keys, this.rejectUnknown := graph, keys, rejectUnknown;
      color := map x | x in graph :: White;
      stack := [];
      finished := [];
    }

    /** Search from a white node: everything it depends on turns black before it does. */
    method Dfs(node: Id) returns (v: Verdict)
      requires Valid() && node in graph && color[node] == White
      requires stack == [] || Edge(graph, stack[|stack| - 1], node)
      modifies this
      ensures Reported(v)
      ensures v.Accepted? ==> Valid() && stack == old(stack) && old(finished) <= finished
      ensures v.Accepted? ==> node in finished && WhiteNodes() < old(WhiteNodes())
      decreases WhiteNodes(), 0
    {
      Enter(graph, rejectUnknown, color, stack, finished, node);
      color := color[node := Gray];
      stack := stack + [node];
      v := Scan(node);
      if v.Accepted? {
        Leave(graph, rejectUnknown, color, old(stack), finished, node);
        stack := stack[..|stack| - 1];
        color := color[node := Black];
        finished := finished + [node];
      }
    }

    /** The loop over the dependencies of the node on top of the stack. */
    method Scan(node: Id) returns (v: Verdict)
      requires Valid() && stack != [] && stack[|stack| - 1] == node
      modifies this
      ensures Reported(v)
      ensures v.Accepted? ==> Valid() && stack == old(stack) && old(finished) <= finished
      ensures v.Accepted? ==> DepsIn(graph, node, finished) && (rejectUnknown ==> DepsKnown(graph, node))
      ensures v.Accepted? ==> WhiteNodes() <= old(WhiteNodes())
      decreases WhiteNodes(), 1
    {
      var deps := graph[node];
      for i := 0 to |deps|
        invariant Valid() && stack == old(stack) && old(finished) <= finished
        invariant WhiteNodes() <= old(WhiteNodes())
        invariant Explored(graph, rejectUnknown, deps, i, finished)
      {
        var dep := deps[i];
        if dep !in graph {
          if rejectUnknown {
            return UnknownDependency(node, dep);
          }
        } else if color[dep] == Gray {
          assert dep in KeysOf(color, Gray);
          StackClosesCycle(graph, stack, dep);
          return CycleFound(stack + [dep]);
        } else if color[dep] == White {
          ghost var before := finished;
          v := Dfs(dep);
          if !v.Accepted? {
            return;
          }
          ExploredGrows(graph, rejectUnknown, deps, i, before, finished);
        } else {
          assert dep in KeysOf(color, Black);
        }
        ExploredStep(graph, rejectUnknown, deps, i, finished);
      }
      ExploredAll(graph, rejectUnknown, node, finished);
      return Accepted;
    }

    /** The whole check: it accepts exactly the acyclic graphs (and, for the orchestrator,
        only those without unknown dependencies), with `finished` a topological order. */
    method Check() returns (v: Verdict)
      requires Valid() && stack == [] && finished == []
      modifies this
      ensures v.Accepted? <==> Acyclic(graph) && (rejectUnknown ==> Closed(graph))
      ensures v.Accepted? ==> TopologicalOrder(graph, finished)
      ensures Reported(v)
    {
      for i := 0 to |keys|
        invariant Valid() && stack == []
        invariant forall k | 0 <= k < i :: keys[k] in finished
      {
        assert keys[i] in Elements(keys);
        assert color[keys[i]] == Black <==> keys[i] in KeysOf(color, Black);
        assert color[keys[i]] == Gray <==> keys[i] in KeysOf(color, Gray);
        if color[keys[i]] == White {
          v := Dfs(keys[i]);
          if !v.Accepted? {
            return;
          }
        }
      }
      assert forall x | x in graph :: x in Elements(keys);
      OrderExcludesCycles(graph, finished);
      return Accepted;
    }
  }

  lemma PushKeepsWalk(g: Graph, stack: seq<Id>, node: Id)
    requires node in g
    requires stack == [] || (Walk(g, stack) && Edge(g, stack[|stack| - 1], node))
    ensures Walk(g, stack + [node])
  {
  }

  lemma ElementsPush(s: seq<Id>, x: Id)
    ensures Elements(s + [x]) == Elements(s) + {x}
    ensures (s + [x])[..|s|] == s
  {
  }

  lemma Recolor(color: map<Id, Color>, node: Id, from: Color, to: Color)
    requires node in color && color[node] == from && from != to
    ensures KeysOf(color[node := to], from) == KeysOf(color, from) - {node}
    ensures KeysOf(color[node := to], to) == KeysOf(color, to) + {node}
    ensures forall c | c != from && c != to :: KeysOf(color[node := to], c) == KeysOf(color, c)
  {
  }

  lemma Enter(g: Graph, rejectUnknown: bool, color: map<Id, Color>, stack: seq<Id>, finished: seq<Id>, node: Id)
    requires Consistent(g, rejectUnknown, color, stack, finished)
    requires node in g && color[node] == White
    requires stack == [] || Edge(g, stack[|stack| - 1], node)
    ensures Consistent(g, rejectUnknown, color[node := Gray], stack + [node], finished)
    ensures KeysOf(color[node := Gray], White) < KeysOf(color, White)
  {
    ElementsPush(stack, node);
    Recolor(color, node, White, Gray);
    assert node in KeysOf(color, White);
    assert node !in Elements(stack);
  }

  lemma Leave(g: Graph, rejectUnknown: bool, color: map<Id, Color>, stack: seq<Id>, finished: seq<Id>, node: Id)
    requires node in g && Consistent(g, rejectUnknown, color, stack + [node], finished)
    requires DepsIn(g, node, finished) && (rejectUnknown ==> DepsKnown(g, node))
    ensures Consistent(g, rejectUnknown, color[node := Black], stack, finished + [node])
    ensures KeysOf(color[node := Black], White) == KeysOf(color, White)
  {
    ElementsPush(stack, node);
    ElementsPush(finished, node);
    assert node in KeysOf(color, Gray);
    Recolor(color, node, Gray, Black);
    assert node !in Elements(stack) && node !in Elements(finished);
    if rejectUnknown {
      forall x | x in finished + [node] ensures DepsKnown(g, x) {
      }
    }
  }

  lemma StackClosesCycle(g: Graph, stack: seq<Id>, dep: Id)
    requires SimpleWalk(g, stack) && dep in stack && Edge(g, stack[|stack| - 1], dep)
    ensures ReportsCycle(g, stack + [dep])
  {
    SimpleWalkIsWalk(g, stack);
    var path := stack + [dep];
    PushKeepsWalk(g, stack, dep);
    var i :| 0 <= i < |stack| && stack[i] == dep;
    WalkSlice(g, path, i, |path|);
    assert Cycle(g, path[i..]);
  }
}
