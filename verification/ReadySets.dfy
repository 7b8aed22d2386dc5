/** What the scheduling state of `scripts/ci/dag.py` stands for: which nodes are finished,
    which wait in the ready queue, and which a worker has started. */
module ReadySets {
  import opened Graphs

  datatype ReadySet = ReadySet(finished: set<Node>, queue: seq<Node>, started: set<Node>)

  /** Occurrences, with multiplicity, of nodes outside `finished`. */
  function Unfinished(ds: seq<Node>, finished: set<Node>): nat {
    if ds == [] then 0
    else Unfinished(ds[..|ds| - 1], finished) + (if ds[|ds| - 1] in finished then 0 else 1)
  }

  /** Nothing `n` depends on is left to wait for. */
  ghost predicate Released(g: Graph, finished: set<Node>, n: Node) {
    n in g && forall d :: Edge(g, n, d) ==> d in finished
  }

  /** `appended` lists, once each, the nodes that finishing `n` releases. */
  ghost predicate Unblocks(g: Graph, finished: set<Node>, n: Node, appended: seq<Node>) {
    && NoDuplicates(appended)
    && forall m :: m in appended <==> Released(g, finished + {n}, m) && !Released(g, finished, m)
  }

  /** The states `_State.__init__` may build. */
  ghost predicate Initial(g: Graph, s: ReadySet) {
    && s.finished == {} && s.started == {}
    && NoDuplicates(s.queue) && forall n :: n in s.queue <==> Released(g, {}, n)
  }

  /** The effect of `_finish(n)`. */
  ghost predicate Finishes(g: Graph, s: ReadySet, n: Node, s': ReadySet) {
    && s'.finished == s.finished + {n} && s'.started == s.started
    && s.queue <= s'.queue
    && Unblocks(g, s.finished, n, s'.queue[|s.queue|..])
  }

  ghost predicate IsDone(g: Graph, s: ReadySet) {
    s.finished == g.Keys
  }

  /** The two assertions of `_sanity_check`, for every node. */
  ghost predicate Sane(g: Graph, s: ReadySet) {
    forall n :: n in g ==> Unfinished(g[n], s.finished) == 0 && n in s.started
  }

  lemma UnfinishedZero(g: Graph, n: Node, finished: set<Node>)
    requires n in g
    ensures Unfinished(g[n], finished) == 0 <==> Released(g, finished, n)
  {
    CountsTheUnfinished(g[n], finished);
    assert forall d :: Edge(g, n, d) <==> d in g[n];
  }

  lemma {:induction false} CountsTheUnfinished(ds: seq<Node>, finished: set<Node>)
    ensures Unfinished(ds, finished) == 0 <==> forall d :: d in ds ==> d in finished
    ensures Unfinished(ds, {}) == |ds|
    decreases |ds|
  {
    if ds != [] {
      CountsTheUnfinished(ds[..|ds| - 1], finished);
      assert ds == ds[..|ds| - 1] + [ds[|ds| - 1]];
    }
  }

  /** Finishing `n` lowers the count by the multiplicity of `n`, which it covers. */
  lemma {:induction false} UnfinishedDrops(ds: seq<Node>, finished: set<Node>, n: Node)
    requires n !in finished
    ensures Unfinished(ds, finished + {n}) == Unfinished(ds, finished) - Count(ds, n)
    decreases |ds|
  {
    if ds != [] {
      UnfinishedDrops(ds[..|ds| - 1], finished, n);
      assert ds == ds[..|ds| - 1] + [ds[|ds| - 1]];
    }
  }

  /** "No sources in DAG" cannot be raised for an accepted graph. */
  lemma SourcesExist(g: Graph, s: ReadySet)
    requires Accepted(g) && Initial(g, s)
    ensures s.queue != []
  {
    SourceExists(g, g.Keys);
    var n :| n in g && !HasEdgeInto(g, n, g.Keys);
    assert Released(g, {}, n) by {
      assert forall d :: Edge(g, n, d) ==> d in g.Keys;
    }
  }
}
