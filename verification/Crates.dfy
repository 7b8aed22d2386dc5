/** `crate_deps`, `get_sorted_publishable_crates`, `check_dependency_tree` and
    `check_publish_flags` of `scripts/ci/crates.py`. */
module Crates {
  import opened Graphs
  import opened CycleSearch

  /** The dependency tables of a manifest, or of one of its targets. */
  datatype DepTables = DepTables(direct: seq<Node>, dev: seq<Node>, build: seq<Node>)

  /** `publish` is None when the manifest does not set it. */
  datatype Manifest = Manifest(publish: Option<bool>, tables: DepTables, targets: seq<DepTables>)

  /** Crate names with their manifests; iteration order is left open. */
  type Workspace = map<Node, Manifest>

  function DepsIn(t: DepTables): seq<Node> {
    t.direct + t.dev + t.build
  }

  function TargetDeps(targets: seq<DepTables>): seq<Node> {
    if targets == [] then [] else TargetDeps(targets[..|targets| - 1]) + DepsIn(targets[|targets| - 1])
  }

  /** The names `crate_deps` yields; a crate may occur several times. */
  function CrateDeps(m: Manifest): seq<Node> {
    DepsIn(m.tables) + TargetDeps(m.targets)
  }

  // ----- what the tables say -----

  predicate Lists(t: DepTables, x: Node) {
    x in t.direct || x in t.dev || x in t.build
  }

  /** A dependency, dev-dependency or build-dependency table of the manifest, or of one of its
      targets, lists `x`. */
  predicate Mentions(m: Manifest, x: Node) {
    Lists(m.tables, x) || exists i :: 0 <= i < |m.targets| && Lists(m.targets[i], x)
  }

  function TimesIn(t: DepTables, x: Node): nat {
    Count(t.direct, x) + Count(t.dev, x) + Count(t.build, x)
  }

  function TimesInTargets(targets: seq<DepTables>, x: Node): nat {
    if targets == [] then 0 else TimesIn(targets[0], x) + TimesInTargets(targets[1..], x)
  }

  /** How often the tables of the manifest list `x`. */
  function Times(m: Manifest, x: Node): nat {
    TimesIn(m.tables, x) + TimesInTargets(m.targets, x)
  }

  /** The crate `a` needs the crate `b` of the same workspace directly. */
  predicate Needs(ws: Workspace, a: Node, b: Node) {
    a in ws && b in ws && Mentions(ws[a], b)
  }

  /** Each crate of `p` is in `keep` and needs the next one. */
  ghost predicate NeedChain(ws: Workspace, keep: set<Node>, p: seq<Node>) {
    && |p| >= 2 && (forall n :: n in p ==> n in keep)
    && forall i, j :: 0 <= i < |p| && j == i + 1 < |p| ==> Needs(ws, p[i], p[j])
  }

  /** `a` needs `b`, directly or through other crates in `keep`. */
  ghost predicate NeedsBelow(ws: Workspace, keep: set<Node>, a: Node, b: Node) {
    exists p :: NeedChain(ws, keep, p) && p[0] == a && p[|p| - 1] == b
  }

  /** No crate in `keep` needs itself, also through others in `keep`. */
  ghost predicate CycleFree(ws: Workspace, keep: set<Node>) {
    forall n :: !NeedsBelow(ws, keep, n, n)
  }

  lemma {:induction false} CountConcat(a: seq<Node>, b: seq<Node>, x: Node)
    ensures Count(a + b, x) == Count(a, x) + Count(b, x)
    decreases |b|
  {
    if b == [] {
      assert a + b == a;
    } else {
      CountConcat(a, b[..|b| - 1], x);
      assert (a + b)[..|a + b| - 1] == a + b[..|b| - 1];
    }
  }

  lemma DepsInAre(t: DepTables, x: Node)
    ensures x in DepsIn(t) <==> Lists(t, x)
    ensures Count(DepsIn(t), x) == TimesIn(t, x)
  {
    CountConcat(t.direct, t.dev, x);
    CountConcat(t.direct + t.dev, t.build, x);
  }

  lemma {:induction false} TimesInLast(targets: seq<DepTables>, x: Node)
    requires targets != []
    ensures TimesInTargets(targets, x) ==
      TimesInTargets(targets[..|targets| - 1], x) + TimesIn(targets[|targets| - 1], x)
    decreases |targets|
  {
    if |targets| > 1 {
      TimesInLast(targets[1..], x);
      assert targets[1..][..|targets| - 2] == targets[..|targets| - 1][1..];
    }
  }

  lemma {:induction false} TargetDepsAre(targets: seq<DepTables>, x: Node)
    ensures x in TargetDeps(targets) <==> exists i :: 0 <= i < |targets| && Lists(targets[i], x)
    ensures Count(TargetDeps(targets), x) == TimesInTargets(targets, x)
    decreases |targets|
  {
    if targets != [] {
      var front, last := targets[..|targets| - 1], targets[|targets| - 1];
      TargetDepsAre(front, x);
      DepsInAre(last, x);
      CountConcat(TargetDeps(front), DepsIn(last), x);
      TimesInLast(targets, x);
      assert forall i :: 0 <= i < |front| ==> front[i] == targets[i];
    }
  }

  /** `crate_deps` yields exactly the names in the tables, each as often as they list it. */
  lemma CrateDepsAre(m: Manifest, x: Node)
    ensures x in CrateDeps(m) <==> Mentions(m, x)
    ensures Count(CrateDeps(m), x) == Times(m, x)
  {
    DepsInAre(m.tables, x);
    TargetDepsAre(m.targets, x);
    CountConcat(DepsIn(m.tables), TargetDeps(m.targets), x);
  }

  lemma AllCrateDepsAre(m: Manifest)
    ensures forall x :: x in CrateDeps(m) <==> Mentions(m, x)
  {
    forall x ensures x in CrateDeps(m) <==> Mentions(m, x) { CrateDepsAre(m, x); }
  }

  // ----- the graph -----

  function Within(ns: seq<Node>, keep: set<Node>): seq<Node> {
    if ns == [] then []
    else Within(ns[..|ns| - 1], keep) + (if ns[|ns| - 1] in keep then [ns[|ns| - 1]] else [])
  }

  /** The dependency graph among the crates in `keep`. */
  ghost function GraphOf(ws: Workspace, keep: set<Node>): Graph
    requires keep <= ws.Keys
  {
    map n | n in keep :: Within(CrateDeps(ws[n]), keep)
  }

  ghost function WorkspaceGraph(ws: Workspace): Graph {
    GraphOf(ws, ws.Keys)
  }

  lemma {:induction false} WithinKeeps(ns: seq<Node>, keep: set<Node>)
    ensures forall x :: x in Within(ns, keep) <==> x in ns && x in keep
    ensures forall x :: x in keep ==> Count(Within(ns, keep), x) == Count(ns, x)
    decreases |ns|
  {
    if ns != [] {
      var front, last := ns[..|ns| - 1], ns[|ns| - 1];
      WithinKeeps(front, keep);
      assert ns == front + [last];
      var before := Within(front, keep);
      assert (before + [last])[..|before|] == before;
      assert before + [] == before;
    }
  }

  /** `g` has an edge for every dependency among the crates in `keep`. */
  ghost predicate Represents(g: Graph, ws: Workspace, keep: set<Node>) {
    && g.Keys == keep
    && forall a, b :: Edge(g, a, b) <==> a in keep && b in keep && Needs(ws, a, b)
  }

  lemma GraphOfEdges(ws: Workspace, keep: set<Node>)
    requires keep <= ws.Keys
    ensures Represents(GraphOf(ws, keep), ws, keep) && Complete(GraphOf(ws, keep))
  {
    forall a | a in keep
      ensures forall b :: b in GraphOf(ws, keep)[a] <==> b in keep && Mentions(ws[a], b)
    {
      WithinKeeps(CrateDeps(ws[a]), keep);
      AllCrateDepsAre(ws[a]);
    }
  }

  lemma ChainsArePaths(g: Graph, ws: Workspace, keep: set<Node>, p: seq<Node>)
    requires Represents(g, ws, keep)
    ensures NeedChain(ws, keep, p) <==> |p| >= 2 && Path(g, p)
  {
    if |p| >= 2 && Path(g, p) {
      forall k | 0 <= k < |p| ensures p[k] in keep {
        if k > 0 { assert Edge(g, p[k - 1], p[k]); } else { assert Edge(g, p[0], p[1]); }
      }
      forall i, j | 0 <= i < |p| && j == i + 1 < |p| ensures Needs(ws, p[i], p[j]) {
        assert Edge(g, p[i], p[j]);
      }
    }
    if NeedChain(ws, keep, p) {
      forall i, j | 0 <= i < |p| && j == i + 1 < |p| ensures Edge(g, p[i], p[j]) {
        assert Needs(ws, p[i], p[j]);
      }
    }
  }

  /** What the graph says about reachability and cycles is what the tables say. */
  lemma RepresentsChains(g: Graph, ws: Workspace, keep: set<Node>)
    requires Represents(g, ws, keep)
    ensures forall a, b :: DependsOn(g, a, b) <==> NeedsBelow(ws, keep, a, b)
    ensures Acyclic(g) <==> CycleFree(ws, keep)
  {
    forall a, b ensures DependsOn(g, a, b) <==> NeedsBelow(ws, keep, a, b) {
      if DependsOn(g, a, b) {
        var p :| PathBetween(g, p, a, b);
        ChainsArePaths(g, ws, keep, p);
      }
      if NeedsBelow(ws, keep, a, b) {
        var p :| NeedChain(ws, keep, p) && p[0] == a && p[|p| - 1] == b;
        ChainsArePaths(g, ws, keep, p);
        assert PathBetween(g, p, a, b);
      }
    }
    if !CycleFree(ws, keep) {
      var n :| NeedsBelow(ws, keep, n, n);
      assert DependsOn(g, n, n);
      var p :| PathBetween(g, p, n, n);
      assert ClosedWalk(g, p);
    }
    if p :| ClosedWalk(g, p) {
      assert PathBetween(g, p, p[0], p[0]);
      assert NeedsBelow(ws, keep, p[0], p[0]);
    }
  }

  /** `DAG` accepts the graph of some crates exactly if there are any and none needs itself. */
  lemma AcceptedExactlyWhen(ws: Workspace, keep: set<Node>)
    requires keep <= ws.Keys
    ensures Accepted(GraphOf(ws, keep)) <==> keep != {} && CycleFree(ws, keep)
  {
    GraphOfEdges(ws, keep);
    RepresentsChains(GraphOf(ws, keep), ws, keep);
    assert GraphOf(ws, keep).Keys == keep;
  }

  lemma BelowInMore(ws: Workspace, fewer: set<Node>, keep: set<Node>, a: Node, b: Node)
    requires fewer <= keep && NeedsBelow(ws, fewer, a, b)
    ensures NeedsBelow(ws, keep, a, b)
  {
    var p :| NeedChain(ws, fewer, p) && p[0] == a && p[|p| - 1] == b;
    assert NeedChain(ws, keep, p);
  }

  lemma GraphIsComplete(ws: Workspace, keep: set<Node>)
    requires keep <= ws.Keys
    ensures Complete(GraphOf(ws, keep)) && GraphOf(ws, keep).Keys == keep
  {
    GraphOfEdges(ws, keep);
  }

  /** A cycle of the graph is one of crates that need each other. */
  lemma CycleOfCrates(ws: Workspace, keep: set<Node>, walk: seq<Node>)
    requires keep <= ws.Keys && ClosedWalk(GraphOf(ws, keep), walk)
    ensures NeedChain(ws, keep, walk) && walk[0] == walk[|walk| - 1]
  {
    GraphOfEdges(ws, keep);
    ChainsArePaths(GraphOf(ws, keep), ws, keep, walk);
  }

  /** What the validator's verdict on the graph of some crates says about them. */
  lemma VerdictMeans(ws: Workspace, keep: set<Node>, v: Verdict)
    requires keep <= ws.Keys
    requires v == Fine <==> Accepted(GraphOf(ws, keep))
    requires v == NothingToUnite <==> GraphOf(ws, keep) == map[]
    requires v.Missing? ==> !Complete(GraphOf(ws, keep))
    requires v.Cycle? ==> ClosedWalk(GraphOf(ws, keep), v.walk)
    ensures v == Fine <==> keep != {} && CycleFree(ws, keep)
    ensures v == NothingToUnite <==> keep == {}
    ensures !v.Missing?
    ensures v.Cycle? ==> NeedChain(ws, keep, v.walk) && v.walk[0] == v.walk[|v.walk| - 1]
  {
    GraphIsComplete(ws, keep);
    AcceptedExactlyWhen(ws, keep);
    if v.Cycle? { CycleOfCrates(ws, keep, v.walk); }
  }

  /** Leaving crates out cannot create a cycle: a restricted graph is accepted too. */
  lemma RestrictionStaysAccepted(ws: Workspace, keep: set<Node>, fewer: set<Node>)
    requires fewer <= keep <= ws.Keys && fewer != {}
    requires CycleFree(ws, keep)
    ensures CycleFree(ws, fewer) && Accepted(GraphOf(ws, fewer))
  {
    forall n ensures !NeedsBelow(ws, fewer, n, n) {
      if NeedsBelow(ws, fewer, n, n) { BelowInMore(ws, fewer, keep, n, n); }
    }
    AcceptedExactlyWhen(ws, fewer);
  }

  /** `g` lists, for every crate in `keep`, exactly its dependencies in `keep`, each as often as the
      manifest's tables do. */
  ghost predicate Collects(ws: Workspace, keep: set<Node>, g: Graph)
    requires keep <= ws.Keys
  {
    && g.Keys == keep
    && (forall a, x :: a in keep && x in keep ==> Count(g[a], x) == Times(ws[a], x))
    && (forall a, x :: a in keep && x in g[a] ==> x in keep)
  }

  lemma GraphOfCollects(ws: Workspace, keep: set<Node>)
    requires keep <= ws.Keys
    ensures Collects(ws, keep, GraphOf(ws, keep))
  {
    var g := GraphOf(ws, keep);
    forall a, x | a in keep ensures (x in keep ==> Count(g[a], x) == Times(ws[a], x)) && (x in g[a] ==> x in keep) {
      WithinKeeps(CrateDeps(ws[a]), keep);
      CrateDepsAre(ws[a], x);
    }
  }

  /** The loops that collect `dependency_graph`. */
  method CollectGraph(ws: Workspace, keep: set<Node>) returns (g: Graph)
    requires keep <= ws.Keys
    ensures g == GraphOf(ws, keep) && Collects(ws, keep, g)
  {
    g := map[];
    var todo := keep;
    while todo != {}
      invariant todo <= keep && g.Keys == keep - todo
      invariant forall n :: n in g ==> g[n] == Within(CrateDeps(ws[n]), keep)
      decreases todo
    {
      var name :| name in todo;
      todo := todo - {name};
      var deps := CrateDeps(ws[name]);
      var dependencies: seq<Node> := [];
      for i := 0 to |deps|
        invariant dependencies == Within(deps[..i], keep)
      {
        assert deps[..i + 1][..i] == deps[..i];
        if deps[i] in keep {
          dependencies := dependencies + [deps[i]];
        }
      }
      assert deps[..|deps|] == deps;
      g := g[name := dependencies];
    }
    GraphOfCollects(ws, keep);
  }

  // ----- get_sorted_publishable_crates -----

  ghost predicate DependsOnItself(ws: Workspace, n: Node) {
    Needs(ws, n, n)
  }

  /** The crates of `ns` whose `publish` has the given value, in the same order. */
  function WithPublish(ws: Workspace, ns: seq<Node>, publish: Option<bool>): seq<Node>
    requires forall n :: n in ns ==> n in ws
  {
    if ns == [] then []
    else
      var last := ns[|ns| - 1];
      WithPublish(ws, ns[..|ns| - 1], publish) + (if ws[last].publish == publish then [last] else [])
  }

  /** What the finished crates have contributed. */
  ghost predicate Collected(ws: Workspace, g: Graph, done: seq<Node>, output: seq<Node>, errors: seq<Node>) {
    && (forall n :: n in done ==> n in ws && !DependsOnItself(ws, n))
    && (Acyclic(g) ==> DependenciesFirst(g, done))
    && output == WithPublish(ws, done, Some(true)) && errors == WithPublish(ws, done, None)
  }

  lemma CollectsNext(ws: Workspace, g: Graph, done: seq<Node>, output: seq<Node>, errors: seq<Node>, n: Node)
    requires Collected(ws, g, done, output, errors)
    requires n in ws && !DependsOnItself(ws, n)
    requires Acyclic(g) ==> forall d :: Edge(g, n, d) ==> d in done
    ensures Collected(ws, g, done + [n],
      if ws[n].publish == Some(true) then output + [n] else output,
      if ws[n].publish == None then errors + [n] else errors)
  {
    assert (done + [n])[..|done|] == done;
    if Acyclic(g) {
      DoneGains(g, done, n);
    }
  }

  /** In an acyclic graph a visited dependency has been finished. */
  lemma VisitedIsDone(g: Graph, visited: set<Node>, stack: seq<Node>, done: seq<Node>, n: Node)
    requires Traversed(g, visited, stack, done) && n in visited
    requires stack != [] && Edge(g, stack[|stack| - 1], n)
    requires Acyclic(g)
    ensures n in done
  {
    if n in stack {
      var k :| 0 <= k < |stack| && stack[k] == n;
      BackEdgeClosesWalk(g, visited, stack, done, k);
    }
  }

  /** The first `i` dependencies have been dealt with. */
  ghost predicate Handled(ws: Workspace, g: Graph, name: Node, deps: seq<Node>, i: nat, done: seq<Node>) {
    && i <= |deps|
    && forall k :: 0 <= k < i ==> deps[k] != name && (Acyclic(g) && deps[k] in ws ==> deps[k] in done)
  }

  lemma HandledStays(ws: Workspace, g: Graph, name: Node, deps: seq<Node>, i: nat, done: seq<Node>, more: seq<Node>)
    requires Handled(ws, g, name, deps, i, done) && done <= more
    ensures Handled(ws, g, name, deps, i, more)
  {
  }

  lemma HandledNext(ws: Workspace, g: Graph, name: Node, deps: seq<Node>, i: nat, done: seq<Node>)
    requires Handled(ws, g, name, deps, i, done) && i < |deps| && deps[i] != name
    requires Acyclic(g) && deps[i] in ws ==> deps[i] in done
    ensures Handled(ws, g, name, deps, i + 1, done)
  {
  }

  class Sorter {
    const crates: Workspace
    var visited: set<Node>
    var output: seq<Node>      // the keys of `output`, in insertion order
    var errors: seq<Node>      // the crates reported to `ctx.error`
    ghost const graph: Graph
    ghost var done: seq<Node>
    ghost var stack: seq<Node>

    ghost predicate Valid()
      reads this
    {
      && Represents(graph, crates, crates.Keys)
      && Traversed(graph, visited, stack, done)
      && Collected(crates, graph, done, output, errors)
    }

    constructor (crates: Workspace)
      ensures this.crates == crates && graph == WorkspaceGraph(crates)
      ensures Valid() && stack == [] && done == []
    {
      this.crates := crates;
      graph := WorkspaceGraph(crates);
      visited, output, errors, done, stack := {}, [], [], [], [];
      GraphOfEdges(crates, crates.Keys);
    }

    /** `ok` is false when the assertion on self-dependencies fails. */
    method Helper(name: Node) returns (ok: bool)
      requires Valid() && name in crates
      requires stack != [] ==> Edge(graph, stack[|stack| - 1], name)
      modifies this
      decreases crates.Keys - visited, 0
      ensures ok ==> Valid() && stack == old(stack) && name in visited
      ensures ok ==> old(visited) <= visited && old(done) <= done
      ensures ok && stack != [] && Acyclic(graph) ==> name in done
      ensures !ok ==> exists n :: DependsOnItself(crates, n)
    {
      if name in visited {
        if stack != [] && Acyclic(graph) {
          VisitedIsDone(graph, visited, stack, done, name);
        }
        return true;
      }
      EnterNode(graph, visited, stack, done, name);
      visited := visited + {name};
      stack := stack + [name];
      ok := Dependencies(name);
      if ok {
        Finish(name, old(stack));
      }
    }

    /** The loop over the dependencies of the crate just entered. */
    method Dependencies(name: Node) returns (ok: bool)
      requires Valid() && name in crates && stack != [] && stack[|stack| - 1] == name && name in visited
      modifies this
      decreases crates.Keys - visited, 1
      ensures ok ==> Valid() && stack == old(stack)
      ensures ok ==> old(visited) <= visited && old(done) <= done
      ensures ok ==> !DependsOnItself(crates, name)
      ensures ok && Acyclic(graph) ==> forall d :: Edge(graph, name, d) ==> d in done
      ensures !ok ==> exists n :: DependsOnItself(crates, n)
    {
      var deps := CrateDeps(crates[name]);
      AllCrateDepsAre(crates[name]);
      for i := 0 to |deps|
        invariant Valid() && stack == old(stack)
        invariant old(visited) <= visited && old(done) <= done
        invariant Handled(crates, graph, name, deps, i, done)
      {
        if deps[i] == name {
          assert DependsOnItself(crates, name);
          return false;
        }
        if deps[i] in crates {
          assert Edge(graph, name, deps[i]);
          ghost var before := done;
          ok := Helper(deps[i]);
          if !ok {
            return;
          }
          HandledStays(crates, graph, name, deps, i, before, done);
        }
        HandledNext(crates, graph, name, deps, i, done);
      }
      ok := true;
    }

    /** The end of `helper`: insertion after all dependencies. */
    method Finish(name: Node, ghost outer: seq<Node>)
      requires Valid() && name in crates && stack == outer + [name]
      requires !DependsOnItself(crates, name)
      requires Acyclic(graph) ==> forall d :: Edge(graph, name, d) ==> d in done
      modifies `output, `errors, `done, `stack
      ensures Valid() && stack == outer && done == old(done) + [name]
    {
      LeaveNode(graph, visited, outer, done, name);
      CollectsNext(crates, graph, done, output, errors, name);
      assert Traversed(graph, visited, outer, done + [name]);
      stack := outer;
      done := done + [name];
      match crates[name].publish
      case None => errors := errors + [name];
      case Some(publish) =>
        if publish {
          output := output + [name];
        }
    }
  }

  /** Whatever is in `output` and transitively needed by `output[i]` stands before it. */
  ghost predicate NeededFirst(ws: Workspace, output: seq<Node>) {
    forall i, b :: 0 <= i < |output| && b in output && NeedsBelow(ws, ws.Keys, output[i], b) ==> b in output[..i]
  }

  ghost predicate BelowFirst(g: Graph, output: seq<Node>) {
    forall i, b :: 0 <= i < |output| && b in output && DependsOn(g, output[i], b) ==> b in output[..i]
  }

  lemma {:induction false} WithPublishMeaning(ws: Workspace, ns: seq<Node>, publish: Option<bool>)
    requires NoDuplicates(ns) && forall n :: n in ns ==> n in ws
    ensures NoDuplicates(WithPublish(ws, ns, publish))
    ensures forall n :: n in WithPublish(ws, ns, publish) <==> n in ns && ws[n].publish == publish
    decreases |ns|
  {
    if ns != [] {
      WithPublishMeaning(ws, ns[..|ns| - 1], publish);
      assert ns == ns[..|ns| - 1] + [ns[|ns| - 1]];
    }
  }

  /** Filtering a dependencies-first list keeps reachable crates first, also those reached
      through crates that the filter drops. */
  lemma {:induction false} FilterKeepsOrder(ws: Workspace, g: Graph, done: seq<Node>, publish: Option<bool>)
    requires NoDuplicates(done) && DependenciesFirst(g, done)
    requires forall n :: n in done ==> n in ws
    ensures BelowFirst(g, WithPublish(ws, done, publish))
    decreases |done|
  {
    if done != [] {
      var k := |done| - 1;
      var front, output := WithPublish(ws, done[..k], publish), WithPublish(ws, done, publish);
      assert forall i :: 0 <= i <= k ==> done[..k][..i] == done[..i];
      FilterKeepsOrder(ws, g, done[..k], publish);
      WithPublishMeaning(ws, done[..k], publish);
      forall i, b | 0 <= i < |output| && b in output && DependsOn(g, output[i], b) ensures b in output[..i] {
        var p :| PathBetween(g, p, output[i], b);
        FilteredBefore(ws, g, done, publish, i, p);
      }
    }
  }

  lemma FilteredBefore(ws: Workspace, g: Graph, done: seq<Node>, publish: Option<bool>, i: nat, p: seq<Node>)
    requires done != [] && NoDuplicates(done) && DependenciesFirst(g, done)
    requires forall n :: n in done ==> n in ws
    requires BelowFirst(g, WithPublish(ws, done[..|done| - 1], publish))
    requires i < |WithPublish(ws, done, publish)| && p != [] && p[|p| - 1] in WithPublish(ws, done, publish)
    requires PathBetween(g, p, WithPublish(ws, done, publish)[i], p[|p| - 1])
    ensures p[|p| - 1] in WithPublish(ws, done, publish)[..i]
  {
    var k := |done| - 1;
    var front, output := WithPublish(ws, done[..k], publish), WithPublish(ws, done, publish);
    WithPublishMeaning(ws, done[..k], publish);
    WithPublishMeaning(ws, done, publish);
    if i < |front| {
      assert front[i] in front;
      var j :| 0 <= j < k && done[..k][j] == front[i];
      PathMovesLeft(g, done, p, j);
      assert done[..j] <= done[..k];
      assert p[|p| - 1] in front;
      assert DependsOn(g, front[i], p[|p| - 1]);
      assert output[..i] == front[..i];
    } else {
      PathMovesLeft(g, done, p, k);
      assert output[..i] == front;
    }
  }

  /** The sorted output holds each publishable crate once, for cyclic workspaces too; in an
      acyclic one whatever a crate transitively needs comes before it. */
  method SortedPublishable(crates: Workspace) returns (ok: bool, output: seq<Node>, errors: seq<Node>)
    ensures ok <==> forall n :: !DependsOnItself(crates, n)
    ensures ok ==> NoDuplicates(output) && forall n :: n in output <==> n in crates && crates[n].publish == Some(true)
    ensures ok ==> NoDuplicates(errors) && forall n :: n in errors <==> n in crates && crates[n].publish == None
    ensures ok && CycleFree(crates, crates.Keys) ==> NeededFirst(crates, output)
  {
    var sorter := new Sorter(crates);
    var todo := crates.Keys;
    while todo != {}
      invariant sorter.crates == crates && sorter.graph == WorkspaceGraph(crates) && sorter.Valid()
      invariant sorter.stack == [] && fresh(sorter)
      invariant forall n :: n in crates && n !in todo ==> n in sorter.visited
      decreases todo
    {
      var name :| name in todo;
      todo := todo - {name};
      ok := sorter.Helper(name);
      if !ok {
        return false, [], [];
      }
    }
    ok, output, errors := true, sorter.output, sorter.errors;
    WithPublishMeaning(crates, sorter.done, Some(true));
    WithPublishMeaning(crates, sorter.done, None);
    RepresentsChains(sorter.graph, crates, crates.Keys);
    if Acyclic(sorter.graph) {
      FilterKeepsOrder(crates, sorter.graph, sorter.done, Some(true));
    }
  }

  ghost function PublishableCrates(ws: Workspace): set<Node> {
    set n | n in ws && ws[n].publish == Some(true)
  }

  /** `check_dependency_tree` accepts exactly the workspaces whose publishable crates depend on
      each other without a cycle (None when sorting already failed); a cycle that it reports is one
      of publishable crates. */
  method CheckDependencyTree(ws: Workspace) returns (verdict: Option<Verdict>)
    ensures verdict == None <==> exists n :: DependsOnItself(ws, n)
    ensures verdict == Some(Fine) <==>
      && (forall n :: !DependsOnItself(ws, n))
      && PublishableCrates(ws) != {} && CycleFree(ws, PublishableCrates(ws))
    ensures verdict == Some(NothingToUnite) <==>
      (forall n :: !DependsOnItself(ws, n)) && PublishableCrates(ws) == {}
    ensures verdict.Some? && verdict.value.Cycle? ==>
      var walk := verdict.value.walk;
      NeedChain(ws, PublishableCrates(ws), walk) && walk[0] == walk[|walk| - 1] && NoDuplicates(walk[1..])
    ensures verdict.Some? ==> !verdict.value.Missing?
  {
    var ok, output, errors := SortedPublishable(ws);
    if !ok {
      return None;
    }
    var keep := set n | n in output;
    assert keep == PublishableCrates(ws);
    var g := CollectGraph(ws, keep);
    var v := Sanitize(g);
    VerdictMeans(ws, keep, v);
    verdict := Some(v);
  }

  // ----- check_publish_flags -----

  datatype FlagVerdict =
    | FlagsFine
    | KeyMissing                      // some crate does not set `publish`: KeyError
    | WrongFlags(crates: set<Node>)

  ghost predicate Publishes(ws: Workspace, n: Node) {
    n in ws && ws[n].publish == Some(true)
  }

  ghost predicate Withheld(ws: Workspace, n: Node) {
    n in ws && ws[n].publish == Some(false)
  }

  /** `d` is a publish=false direct dependency of the crate `n`. */
  ghost predicate WithheldDependency(ws: Workspace, n: Node, d: Node) {
    Needs(ws, n, d) && Withheld(ws, d)
  }

  /** `d` is among the crates that a rejection names. */
  ghost predicate Reported(ws: Workspace, d: Node) {
    exists n :: Publishes(ws, n) && WithheldDependency(ws, n, d)
  }

  class FlagChecker {
    const crates: Workspace
    var wrong: set<Node>

    constructor (crates: Workspace)
      ensures this.crates == crates && wrong == {}
    {
      this.crates := crates;
      wrong := {};
    }

    /** `traverse`; `ok` is false when it raises KeyError. The recursive call finds its crate
        already in the set and returns at once. */
    method Traverse(name: Node) returns (ok: bool)
      requires name in crates
      modifies this
      decreases if name in wrong then 0 else 1
      ensures name in old(wrong) ==> ok && wrong == old(wrong)
      ensures name !in old(wrong) && ok && !Withheld(crates, name) ==>
        forall d :: d in wrong <==> d in old(wrong) || WithheldDependency(crates, name, d)
      ensures !ok ==> exists n :: n in crates && crates[n].publish == None
    {
      if name in wrong {
        return true;
      }
      var deps := CrateDeps(crates[name]);
      AllCrateDepsAre(crates[name]);
      for i := 0 to |deps|
        invariant forall d :: d in wrong <==> d in old(wrong) || (d in deps[..i] && Withheld(crates, d))
        invariant !Withheld(crates, name) ==> name !in wrong
      {
        assert deps[..i + 1] == deps[..i] + [deps[i]];
        if deps[i] in crates {
          match crates[deps[i]].publish
          case None => return false;
          case Some(shouldPublish) =>
            if !shouldPublish {
              wrong := wrong + {deps[i]};
              ok := Traverse(deps[i]);
            }
        }
      }
      assert deps[..|deps|] == deps;
      ok := true;
    }
  }

  /** Rejection names exactly the publish=false crates that a publish=true crate depends on
      directly. */
  method CheckPublishFlags(ws: Workspace) returns (verdict: FlagVerdict)
    ensures verdict == KeyMissing <==> exists n :: n in ws && ws[n].publish == None
    ensures verdict == FlagsFine <==>
      (forall n :: n in ws ==> ws[n].publish != None) &&
      (forall n, d :: Publishes(ws, n) ==> !WithheldDependency(ws, n, d))
    ensures verdict.WrongFlags? ==>
      forall d :: d in verdict.crates <==> Reported(ws, d)
  {
    var checker := new FlagChecker(ws);
    var todo := ws.Keys;
    while todo != {}
      invariant todo <= ws.Keys && checker.crates == ws && fresh(checker)
      invariant forall d :: d in checker.wrong <==>
        exists n :: Publishes(ws, n) && n !in todo && WithheldDependency(ws, n, d)
      invariant forall n :: n in ws && n !in todo ==> ws[n].publish != None
      decreases todo
    {
      var name :| name in todo;
      ghost var before := todo;
      todo := todo - {name};
      match ws[name].publish
      case None => return KeyMissing;
      case Some(shouldPublish) =>
        if shouldPublish {
          assert !Withheld(ws, name) && name !in checker.wrong;
          var ok := checker.Traverse(name);
          if !ok {
            return KeyMissing;
          }
          assert Publishes(ws, name);
        }
    }
    forall n, d | Publishes(ws, n) && WithheldDependency(ws, n, d) ensures d in checker.wrong {}
    if checker.wrong == {} {
      verdict := FlagsFine;
    } else {
      ghost var d :| d in checker.wrong;
      verdict := WrongFlags(checker.wrong);
    }
  }

  /** Looking at direct dependencies is enough: none is withheld from a published crate exactly
      when every transitive workspace dependency of a published crate is published. */
  lemma DirectCheckCoversAll(ws: Workspace)
    requires forall n :: n in ws ==> ws[n].publish != None
    ensures
      (forall n, d :: Publishes(ws, n) ==> !WithheldDependency(ws, n, d)) <==>
      (forall n, d :: Publishes(ws, n) && NeedsBelow(ws, ws.Keys, n, d) ==> Publishes(ws, d))
  {
    if forall n, d :: Publishes(ws, n) ==> !WithheldDependency(ws, n, d) {
      forall n, d | Publishes(ws, n) && NeedsBelow(ws, ws.Keys, n, d) ensures Publishes(ws, d) {
        var p :| NeedChain(ws, ws.Keys, p) && p[0] == n && p[|p| - 1] == d;
        PublishedAlong(ws, p);
      }
    }
    if n, d :| Publishes(ws, n) && WithheldDependency(ws, n, d) {
      assert NeedChain(ws, ws.Keys, [n, d]);
      assert [n, d][0] == n && [n, d][1] == d;
      assert NeedsBelow(ws, ws.Keys, n, d);
    }
  }

  lemma {:induction false} PublishedAlong(ws: Workspace, p: seq<Node>)
    requires forall n :: n in ws ==> ws[n].publish != None
    requires forall n, d :: Publishes(ws, n) ==> !WithheldDependency(ws, n, d)
    requires NeedChain(ws, ws.Keys, p) && Publishes(ws, p[0])
    ensures Publishes(ws, p[|p| - 1])
    decreases |p|
  {
    assert Needs(ws, p[0], p[1]);
    assert !WithheldDependency(ws, p[0], p[1]);
    assert !Withheld(ws, p[1]) && ws[p[1]].publish.Some?;
    var publish := ws[p[1]].publish.value;
    assert ws[p[1]].publish == Some(publish) && publish == true;
    if |p| > 2 {
      assert NeedChain(ws, ws.Keys, p[1..]);
      PublishedAlong(ws, p[1..]);
    }
  }

  /** The comment in `traverse` says that it recurses into publish=false dependencies. It does
      not: with `a` published and `a` -> `b` -> `c` withheld below it, `c` is not reported. */
  lemma WithheldBelowWithheldIsMissed(ws: Workspace, a: Node, b: Node, c: Node, wrong: set<Node>)
    requires a != b && b != c && c != a
    requires ws == map[
      a := Manifest(Some(true), DepTables([b], [], []), []),
      b := Manifest(Some(false), DepTables([c], [], []), []),
      c := Manifest(Some(false), DepTables([], [], []), [])]
    requires forall d :: d in wrong <==> Reported(ws, d)
    ensures WithheldDependency(ws, b, c) && b in wrong && c !in wrong
  {
    assert Lists(ws[a].tables, b) && Lists(ws[b].tables, c);
    assert WithheldDependency(ws, a, b);
  }

  /** A publish=false crate reached from a published one through publish=false crates only. */
  ghost predicate WithheldChain(ws: Workspace, p: seq<Node>) {
    && |p| >= 2 && Publishes(ws, p[0])
    && forall i, j :: 0 <= i < |p| && j == i + 1 < |p| ==> WithheldDependency(ws, p[i], p[j])
  }

  /** Every publish=false dependency of a directly withheld crate is itself a direct dependency of
      some publish=true crate. */
  ghost predicate WithheldAreDirect(ws: Workspace) {
    forall n, b, c :: Publishes(ws, n) && WithheldDependency(ws, n, b) && WithheldDependency(ws, b, c) ==>
      exists m :: Publishes(ws, m) && WithheldDependency(ws, m, c)
  }

  /** What the comment promises, that a chain of publish=false crates is reported to its end, holds
      exactly for these workspaces. */
  lemma RecursionHoldsExactlyWhen(ws: Workspace)
    ensures (forall p :: WithheldChain(ws, p) ==> Reported(ws, p[|p| - 1])) <==> WithheldAreDirect(ws)
  {
    if WithheldAreDirect(ws) {
      forall p | WithheldChain(ws, p) ensures Reported(ws, p[|p| - 1]) {
        ChainIsReported(ws, p);
      }
    }
    if forall p :: WithheldChain(ws, p) ==> Reported(ws, p[|p| - 1]) {
      forall n, b, c | Publishes(ws, n) && WithheldDependency(ws, n, b) && WithheldDependency(ws, b, c)
        ensures Reported(ws, c)
      {
        ShortChain(ws, n, b, c);
      }
    }
  }

  lemma ShortChain(ws: Workspace, n: Node, b: Node, c: Node)
    requires Publishes(ws, n) && WithheldDependency(ws, n, b) && WithheldDependency(ws, b, c)
    ensures WithheldChain(ws, [n, b, c]) && [n, b, c][|[n, b, c]| - 1] == c
  {
  }

  lemma {:induction false} ChainIsReported(ws: Workspace, p: seq<Node>)
    requires WithheldAreDirect(ws) && WithheldChain(ws, p)
    ensures Reported(ws, p[|p| - 1])
    decreases |p|
  {
    var k := |p| - 1;
    assert WithheldDependency(ws, p[k - 1], p[k]);
    if k > 1 {
      assert WithheldChain(ws, p[..k]);
      ChainIsReported(ws, p[..k]);
      var n :| Publishes(ws, n) && WithheldDependency(ws, n, p[k - 1]);
    }
  }
}
