/** `_sanitize_dependency_graph` of `scripts/ci/dag.py`: the depth-first search that
    decides which graphs the scheduler accepts. */
module CycleSearch {
  import opened Graphs

  datatype Verdict =
    | Fine
    | NothingToUnite                  // set.union() of no arguments raises TypeError
    | Missing(nodes: set<Node>)       // the assertion on missing dependencies
    | Cycle(walk: seq<Node>)          // the ValueError

  ghost predicate Consistent(g: Graph, visited: set<Node>, recStack: set<Node>, path: seq<Node>, done: seq<Node>) {
    && Traversed(g, visited, path, done)
    && DependenciesFirst(g, done)
    && forall n :: n in recStack <==> n in path
  }

  lemma EnterKeepsConsistent(
    g: Graph, visited: set<Node>, recStack: set<Node>, path: seq<Node>, done: seq<Node>, node: Node)
    requires Consistent(g, visited, recStack, path, done)
    requires node in g && node !in visited
    requires path != [] ==> Edge(g, path[|path| - 1], node)
    ensures Consistent(g, visited + {node}, recStack + {node}, path + [node], done)
  {
    EnterNode(g, visited, path, done, node);
  }

  lemma LeaveKeepsConsistent(
    g: Graph, visited: set<Node>, recStack: set<Node>, path: seq<Node>, done: seq<Node>, node: Node)
    requires Consistent(g, visited, recStack, path + [node], done)
    requires forall d :: Edge(g, node, d) ==> d in done
    ensures Consistent(g, visited, recStack - {node}, path, done + [node])
  {
    LeaveNode(g, visited, path, done, node);
    DoneGains(g, done, node);
    assert (path + [node])[|path|] == node;
  }

  /** The three collections `find_cycle` mutates, in the graph it searches. */
  class Search {
    const graph: Graph
    var visited: set<Node>
    var recStack: set<Node>
    var path: seq<Node>
    ghost var done: seq<Node>  // nodes whose call has returned, in that order

    constructor (graph: Graph)
      ensures Valid() && this.graph == graph && path == [] && visited == {}
    {
      this.graph := graph;
      visited, recStack, path, done := {}, {}, [], [];
    }

    ghost predicate Valid()
      reads this
    {
      Consistent(graph, visited, recStack, path, done)
    }

    method CycleBackTo(neighbor: Node) returns (cycle: seq<Node>)
      requires Valid() && neighbor in recStack && Edge(graph, path[|path| - 1], neighbor)
      ensures ClosedWalk(graph, cycle) && NoDuplicates(cycle[1..])
    {
      var start := IndexOf(path, neighbor);
      cycle := path[start..] + [neighbor];
      BackEdgeClosesWalk(graph, visited, path, done, start);
    }

    /** Returns the reported cycle, or None when the search below `node` finds none. */
    method FindCycle(node: Node) returns (found: Option<seq<Node>>)
      requires Valid() && Complete(graph)
      requires node in graph && node !in visited
      requires path != [] ==> Edge(graph, path[|path| - 1], node)
      modifies this
      decreases graph.Keys - visited
      ensures found.Some? ==> ClosedWalk(graph, found.value) && NoDuplicates(found.value[1..])
      ensures found.None? ==> Valid() && path == old(path) && recStack == old(recStack)
      ensures found.None? ==> node in done && old(done) <= done && old(visited) < visited
    {
      EnterKeepsConsistent(graph, visited, recStack, path, done, node);
      visited := visited + {node};
      recStack := recStack + {node};
      path := path + [node];
      ghost var onStack := recStack;
      for i := 0 to |graph[node]|
        invariant Valid() && path == old(path) + [node] && recStack == onStack
        invariant old(visited) + {node} <= visited && old(done) <= done
        invariant forall k :: 0 <= k < i ==> graph[node][k] in done
      {
        var neighbor := graph[node][i];
        assert Edge(graph, node, neighbor);
        if neighbor !in visited {
          found := FindCycle(neighbor);
          if found.Some? {
            return;
          }
        } else if neighbor in recStack {
          var cycle := CycleBackTo(neighbor);
          return Some(cycle);
        }
      }
      LeaveKeepsConsistent(graph, visited, recStack, old(path), done, node);
      path := path[..|path| - 1];
      assert path == old(path);
      recStack := recStack - {node};
      done := done + [node];
      found := None;
    }
  }

  lemma MissingExactly(g: Graph, missing: set<Node>)
    requires missing == set n, d | n in g && d in g[n] && d !in g :: d
    ensures forall d :: d in missing <==> d !in g && exists n :: Edge(g, n, d)
    ensures missing == {} <==> Complete(g)
  {
    forall d | d in missing ensures d !in g && exists n :: Edge(g, n, d) {
      var n :| n in g && d in g[n] && d !in g;
      assert Edge(g, n, d);
    }
    forall n, d | Edge(g, n, d) && d !in g ensures d in missing {}
    if missing != {} {
      var d :| d in missing;
      var n :| Edge(g, n, d);
    }
  }

  /** The validator decides acceptance exactly, and each refusal names its reason. */
  method Sanitize(g: Graph) returns (verdict: Verdict)
    ensures verdict == Fine <==> Accepted(g)
    ensures verdict == NothingToUnite <==> g == map[]
    ensures verdict.Missing? <==> g != map[] && !Complete(g)
    ensures verdict.Missing? ==>
      forall d :: d in verdict.nodes <==> d !in g && exists n :: Edge(g, n, d)
    ensures verdict.Cycle? <==> g != map[] && Complete(g) && !Acyclic(g)
    ensures verdict.Cycle? ==> ClosedWalk(g, verdict.walk) && NoDuplicates(verdict.walk[1..])
  {
    if g == map[] {
      return NothingToUnite;
    }
    var missing := set n, d | n in g && d in g[n] && d !in g :: d;
    MissingExactly(g, missing);
    if missing != {} {
      return Missing(missing);
    }
    var search := new Search(g);
    var todo := g.Keys;
    while todo != {}
      invariant search.graph == g && search.Valid() && search.path == [] && fresh(search)
      invariant forall n :: n in g && n !in todo ==> n in search.done
      decreases todo
    {
      var node :| node in todo;
      todo := todo - {node};
      if node !in search.visited {
        var found := search.FindCycle(node);
        if found.Some? {
          return Cycle(found.value);
        }
      }
    }
    OrderingRefutesCycles(g, search.done);
    verdict := Fine;
  }
}
