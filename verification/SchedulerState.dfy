/** `_State` of `scripts/ci/dag.py`. The dictionary of `_NodeState` records is a field the
    methods update; a `dependents` list names its records by their key. */
module SchedulerState {
  import opened Graphs
  import opened ReadySets

  datatype NodeState = NodeState(started: bool, pendingDependencies: int, dependents: seq<Node>)

  type NodeStates = map<Node, NodeState>

  const NEW_NODE := NodeState(false, 0, [])

  function Entry(states: NodeStates, n: Node): NodeState {
    if n in states then states[n] else NEW_NODE
  }

  /** How often `m` is a dependent of `n`. */
  function Listed(states: NodeStates, n: Node, m: Node): nat {
    Count(Entry(states, n).dependents, m)
  }

  /** `m` is listed under `n` once for every time it lists `n`; nodes in `todo` are not
      listed yet. */
  ghost predicate Links(g: Graph, todo: set<Node>, states: NodeStates) {
    forall n, m :: Listed(states, n, m) == if m in g && m !in todo then Count(g[m], n) else 0
  }

  /** Each counter is the number of occurrences of unfinished dependencies. */
  ghost predicate Counters(g: Graph, finished: set<Node>, states: NodeStates) {
    forall n :: n in states && n in g ==> states[n].pendingDependencies == Unfinished(g[n], finished)
  }

  /** `states` is `before` with every counter lowered once per occurrence in `ds`. */
  ghost predicate Lowered(g: Graph, finished: set<Node>, before: NodeStates, ds: seq<Node>, states: NodeStates) {
    && states.Keys == before.Keys == g.Keys
    && forall n :: n in g ==>
         states[n] == before[n].(pendingDependencies := Unfinished(g[n], finished) - Count(ds, n))
  }

  ghost predicate Flags(started: set<Node>, states: NodeStates) {
    forall n :: n in states ==> (states[n].started <==> n in started)
  }

  /** `appended` lists, once each, the nodes whose counter has just come down to 0. */
  ghost predicate ReachedZero(g: Graph, finished: set<Node>, states: NodeStates, appended: seq<Node>) {
    && NoDuplicates(appended)
    && forall m :: m in appended <==>
         m in g && m in states && states[m].pendingDependencies == 0 && Unfinished(g[m], finished) > 0
  }

  /** The assertion in `_finish`: the counter still covers dependent number `i`. */
  lemma CoversDependent(g: Graph, finished: set<Node>, before: NodeStates, node: Node, i: nat)
    requires node in before && node !in finished && i < |before[node].dependents|
    requires Links(g, {}, before)
    ensures
      var ds := before[node].dependents;
      ds[i] in g && Unfinished(g[ds[i]], finished) > Count(ds[..i], ds[i])
  {
    var ds := before[node].dependents;
    CountPrefix(ds, i, ds[i]);
    CountBelow(ds, i + 1, ds[i]);
    assert Listed(before, node, ds[i]) > 0;
    UnfinishedDrops(g[ds[i]], finished, node);
  }

  function Decremented(states: NodeStates, n: Node): NodeStates
    requires n in states
  {
    states[n := states[n].(pendingDependencies := states[n].pendingDependencies - 1)]
  }

  /** The loop of `_finish` after `i` dependents. */
  ghost predicate Settling(
    g: Graph, finished: set<Node>, start: NodeStates, ds: seq<Node>, i: nat,
    states: NodeStates, oldQueue: seq<Node>, queue: seq<Node>)
  {
    && i <= |ds| && Lowered(g, finished, start, ds[..i], states)
    && oldQueue <= queue && ReachedZero(g, finished, states, queue[|oldQueue|..])
  }

  lemma LowerOne(
    g: Graph, finished: set<Node>, start: NodeStates, ds: seq<Node>, i: nat,
    states: NodeStates, oldQueue: seq<Node>, queue: seq<Node>)
    requires Settling(g, finished, start, ds, i, states, oldQueue, queue)
    requires i < |ds| && ds[i] in g && states[ds[i]].pendingDependencies > 0
    ensures
      var after := Decremented(states, ds[i]);
      Settling(g, finished, start, ds, i + 1, after, oldQueue,
        if after[ds[i]].pendingDependencies == 0 then queue + [ds[i]] else queue)
  {
    var appended := queue[|oldQueue|..];
    assert (queue + [ds[i]])[|oldQueue|..] == appended + [ds[i]];
    forall x ensures Count(ds[..i + 1], x) == Count(ds[..i], x) + if ds[i] == x then 1 else 0 {
      CountPrefix(ds, i, x);
    }
  }

  lemma AllLowered(
    g: Graph, finished: set<Node>, started: set<Node>, before: NodeStates, node: Node,
    after: NodeStates, oldQueue: seq<Node>, queue: seq<Node>)
    requires node in before && node !in finished && Links(g, {}, before) && Flags(started, before)
    requires Settling(g, finished, before, before[node].dependents, |before[node].dependents|, after, oldQueue, queue)
    ensures after.Keys == g.Keys && Links(g, {}, after) && Flags(started, after)
    ensures Counters(g, finished + {node}, after)
    ensures oldQueue <= queue && Unblocks(g, finished, node, queue[|oldQueue|..])
  {
    var ds := before[node].dependents;
    assert ds[..|ds|] == ds;
    forall n | n in g
      ensures after[n].pendingDependencies == Unfinished(g[n], finished + {node})
      ensures n in queue[|oldQueue|..] <==> Released(g, finished + {node}, n) && !Released(g, finished, n)
    {
      assert Listed(before, node, n) == Count(g[n], node);
      UnfinishedDrops(g[n], finished, node);
      UnfinishedZero(g, n, finished);
      UnfinishedZero(g, n, finished + {node});
    }
    assert forall n, m :: Listed(after, n, m) == Listed(before, n, m);
  }

  /** `__init__` has been through all keys but those in `todo`. */
  ghost predicate Filled(g: Graph, todo: set<Node>, states: NodeStates) {
    && Links(g, todo, states) && Flags({}, states)
    && forall n :: n in g ==> Entry(states, n).pendingDependencies == if n in todo then 0 else |g[n]|
  }

  lemma FilledNext(g: Graph, todo: set<Node>, node: Node, before: NodeStates, counted: NodeStates, after: NodeStates)
    requires node in g && node !in todo && Filled(g, todo + {node}, before)
    requires counted == before[node := Entry(before, node).(
      pendingDependencies := Entry(before, node).pendingDependencies + |g[node]|)]
    requires forall n, m :: Listed(counted, n, m) == Listed(before, n, m)
    requires forall n :: n in after ==> after[n] == Entry(counted, n).(dependents := after[n].dependents)
    requires counted.Keys <= after.Keys
    requires forall n, x :: Listed(after, n, x) == Listed(counted, n, x) + if x == node then Count(g[node], n) else 0
    ensures Filled(g, todo, after)
  {
  }

  lemma AllFilled(g: Graph, states: NodeStates)
    requires Filled(g, {}, states) && states.Keys == g.Keys
    ensures Links(g, {}, states) && Counters(g, {}, states) && Flags({}, states)
  {
    forall n | n in g ensures states[n].pendingDependencies == Unfinished(g[n], {}) {
      CountsTheUnfinished(g[n], {});
    }
  }

  class State {
    const dag: Graph
    var nodeStates: NodeStates
    var queue: seq<Node>
    var numFinished: nat
    ghost var finished: set<Node>
    ghost var started: set<Node>

    ghost predicate Valid()
      reads this
    {
      && Complete(dag) && nodeStates.Keys == dag.Keys
      && finished <= dag.Keys && numFinished == |finished|
      && Links(dag, {}, nodeStates) && Counters(dag, finished, nodeStates)
      && started <= dag.Keys && Flags(started, nodeStates)
    }

    ghost function View(): ReadySet
      reads this
    {
      ReadySet(finished, queue, started)
    }

    constructor (dag: Graph)
      requires Complete(dag)
      ensures this.dag == dag && Valid() && Initial(dag, View())
    {
      this.dag := dag;
      nodeStates, queue, numFinished, finished, started := map[], [], 0, {}, {};
      new;
      var todo := dag.Keys;
      while todo != {}
        invariant todo <= dag.Keys && dag.Keys - todo <= nodeStates.Keys <= dag.Keys
        invariant Filled(dag, todo, nodeStates)
        invariant queue == [] && numFinished == 0 && finished == {} && started == {}
        decreases todo
      {
        var node :| node in todo;
        todo := todo - {node};
        AddKey(todo, node);
        forall d | d in dag[node] ensures d in dag { assert Edge(dag, node, d); }
      }
      AllFilled(dag, nodeStates);
      CollectSources();
    }

    /** One round of the loop in `__init__`. */
    method AddKey(ghost todo: set<Node>, node: Node)
      requires Complete(dag) && node in dag && node !in todo && Filled(dag, todo + {node}, nodeStates)
      modifies `nodeStates
      ensures Filled(dag, todo, nodeStates)
      ensures nodeStates.Keys == old(nodeStates).Keys + {node} + (set d | d in dag[node])
    {
      var newNodeState := GetOrInsert(node);
      nodeStates := nodeStates[node := newNodeState.(
        pendingDependencies := newNodeState.pendingDependencies + |dag[node]|)];
      ghost var counted := nodeStates;
      assert forall n, m :: Listed(nodeStates, n, m) == Listed(old(nodeStates), n, m);
      AppendToAll(dag[node], node);
      FilledNext(dag, todo, node, old(nodeStates), counted, nodeStates);
    }

    method GetOrInsert(node: Node) returns (s: NodeState)
      modifies `nodeStates
      ensures node in nodeStates && s == nodeStates[node]
      ensures nodeStates == old(nodeStates)[node := Entry(old(nodeStates), node)]
    {
      if node !in nodeStates {
        nodeStates := nodeStates[node := NEW_NODE];
      }
      s := nodeStates[node];
    }

    /** `self._get_or_insert(dep).dependents.append(m)` for every `dep` in `deps`. */
    method AppendToAll(deps: seq<Node>, m: Node)
      modifies `nodeStates
      ensures nodeStates.Keys == old(nodeStates).Keys + (set d | d in deps)
      ensures forall n :: n in nodeStates ==>
        nodeStates[n] == Entry(old(nodeStates), n).(dependents := nodeStates[n].dependents)
      ensures forall n, x ::
        Listed(nodeStates, n, x) == Listed(old(nodeStates), n, x) + if x == m then Count(deps, n) else 0
    {
      assert deps[..0] == [];
      assert forall n :: Count(deps[..0], n) == 0;
      for j := 0 to |deps|
        invariant nodeStates.Keys == old(nodeStates).Keys + (set d | d in deps[..j])
        invariant forall n :: n in nodeStates ==>
          nodeStates[n] == Entry(old(nodeStates), n).(dependents := nodeStates[n].dependents)
        invariant forall n, x ::
          Listed(nodeStates, n, x) == Listed(old(nodeStates), n, x) + if x == m then Count(deps[..j], n) else 0
      {
        AppendTo(deps[j], m);
        forall n ensures Count(deps[..j + 1], n) == Count(deps[..j], n) + if deps[j] == n then 1 else 0 {
          CountPrefix(deps, j, n);
        }
      }
      assert deps[..|deps|] == deps;
    }

    method AppendTo(d: Node, m: Node)
      modifies `nodeStates
      ensures nodeStates.Keys == old(nodeStates).Keys + {d}
      ensures forall n :: n in nodeStates && n != d ==> nodeStates[n] == old(nodeStates)[n]
      ensures nodeStates[d] == Entry(old(nodeStates), d).(dependents := nodeStates[d].dependents)
      ensures forall n, x ::
        Listed(nodeStates, n, x) == Listed(old(nodeStates), n, x) + if n == d && x == m then 1 else 0
    {
      var dep := GetOrInsert(d);
      var longer := dep.dependents + [m];
      assert longer[..|dep.dependents|] == dep.dependents;
      nodeStates := nodeStates[d := dep.(dependents := longer)];
    }

    method CollectSources()
      requires Valid() && queue == [] && finished == {}
      modifies `queue
      ensures NoDuplicates(queue) && forall n :: n in queue <==> Released(dag, {}, n)
    {
      var todo := nodeStates.Keys;
      while todo != {}
        invariant todo <= dag.Keys && NoDuplicates(queue)
        invariant forall n :: n in queue <==> n in dag && n !in todo && Released(dag, {}, n)
        decreases todo
      {
        var n :| n in todo;
        todo := todo - {n};
        UnfinishedZero(dag, n, {});
        if nodeStates[n].pendingDependencies == 0 {
          queue := queue + [n];
        }
      }
    }

    method Start(node: Node)
      requires Valid() && node in nodeStates
      modifies `nodeStates, `started
      ensures Valid() && View() == old(View()).(started := old(started) + {node})
    {
      started := started + {node};
      nodeStates := nodeStates[node := nodeStates[node].(started := true)];
      assert forall n, m :: Listed(nodeStates, n, m) == Listed(old(nodeStates), n, m);
    }

    /** The body of the loop in `_finish`, with its assertion. */
    method Lower(dependent: Node)
      requires dependent in nodeStates && nodeStates[dependent].pendingDependencies > 0
      modifies `queue, `nodeStates
      ensures nodeStates == Decremented(old(nodeStates), dependent)
      ensures queue == if nodeStates[dependent].pendingDependencies == 0 then old(queue) + [dependent] else old(queue)
    {
      var s := nodeStates[dependent];
      nodeStates := nodeStates[dependent := s.(pendingDependencies := s.pendingDependencies - 1)];
      if nodeStates[dependent].pendingDependencies == 0 {
        queue := queue + [dependent];
      }
    }

    /** The loop of `_finish`. */
    method Settle(node: Node)
      requires Valid() && node in nodeStates && node !in finished
      modifies `queue, `nodeStates
      ensures nodeStates.Keys == dag.Keys && Links(dag, {}, nodeStates) && Flags(started, nodeStates)
      ensures Counters(dag, finished + {node}, nodeStates)
      ensures old(queue) <= queue && Unblocks(dag, finished, node, queue[|old(queue)|..])
    {
      var dependents := nodeStates[node].dependents;
      for i := 0 to |dependents|
        invariant Settling(dag, finished, old(nodeStates), dependents, i, nodeStates, old(queue), queue)
      {
        CoversDependent(dag, finished, old(nodeStates), node, i);
        LowerOne(dag, finished, old(nodeStates), dependents, i, nodeStates, old(queue), queue);
        Lower(dependents[i]);
      }
      AllLowered(dag, finished, started, old(nodeStates), node, nodeStates, old(queue), queue);
    }

    method Finish(node: Node)
      requires Valid() && node in nodeStates && node !in finished
      modifies this
      ensures Valid() && Finishes(dag, old(View()), node, View())
    {
      Settle(node);
      numFinished := numFinished + 1;
      finished := finished + {node};
    }

    method HasFinishedAll() returns (done: bool)
      requires Valid()
      ensures done <==> IsDone(dag, View())
    {
      done := numFinished == |nodeStates|;
      assert |nodeStates| == |nodeStates.Keys|;
      SubsetOfSameSize(finished, dag.Keys);
    }

    /** `sane` is false when one of the two assertions fails. */
    method SanityCheck() returns (sane: bool)
      requires Valid()
      ensures sane <==> Sane(dag, View())
    {
      var todo := nodeStates.Keys;
      while todo != {}
        invariant forall n :: n in dag && n !in todo ==> Unfinished(dag[n], finished) == 0 && n in started
        decreases todo
      {
        var n :| n in todo;
        todo := todo - {n};
        if nodeStates[n].pendingDependencies != 0 || !nodeStates[n].started {
          return false;
        }
      }
      sane := true;
    }
  }

  lemma SubsetOfSameSize(a: set<Node>, b: set<Node>)
    requires a <= b
    ensures |a| == |b| <==> a == b
  {
    assert b == a + (b - a);
  }
}
