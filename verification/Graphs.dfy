/** Dependency graphs as `scripts/ci/dag.py` receives them: from a node to the list of its
    dependencies, in which a dependency may occur more than once. */
module Graphs {

  /** Any hashable type of keys; for `scripts/ci/crates.py` a crate name. */
  type Node(==, !new)

  /** A Python dict. Its iteration order is left open: what is proved holds for every order. */
  type Graph = map<Node, seq<Node>>

  datatype Option<+T> = None | Some(value: T)

  ghost predicate NoDuplicates<T>(s: seq<T>) {
    forall i, j :: 0 <= i < j < |s| ==> s[i] != s[j]
  }

  /** How often `x` occurs in `s`. */
  function Count<T(==)>(s: seq<T>, x: T): nat {
    if s == [] then 0 else Count(s[..|s| - 1], x) + (if s[|s| - 1] == x then 1 else 0)
  }

  /** Python's `list.index`. */
  method IndexOf<T(==)>(s: seq<T>, x: T) returns (i: nat)
    requires x in s
    ensures i < |s| && s[i] == x && forall k :: 0 <= k < i ==> s[k] != x
  {
    i := 0;
    while s[i] != x
      invariant i < |s| && forall k :: 0 <= k < i ==> s[k] != x
      decreases |s| - i
    {
      i := i + 1;
    }
  }

  lemma CountPrefix<T>(s: seq<T>, i: nat, x: T)
    requires i < |s|
    ensures Count(s[..i + 1], x) == Count(s[..i], x) + if s[i] == x then 1 else 0
  {
    assert s[..i + 1][..i] == s[..i];
  }

  lemma {:induction false} CountBelow<T>(s: seq<T>, i: nat, x: T)
    requires i <= |s|
    ensures Count(s[..i], x) <= Count(s, x)
    decreases |s|
  {
    if i == |s| {
      assert s[..i] == s;
    } else {
      assert s[..|s| - 1][..i] == s[..i];
      CountBelow(s[..|s| - 1], i, x);
    }
  }

  ghost predicate Edge(g: Graph, a: Node, b: Node) {
    a in g && b in g[a]
  }

  ghost predicate Linked(g: Graph, p: seq<Node>) {
    forall i, j :: 0 <= i < |p| && j == i + 1 < |p| ==> Edge(g, p[i], p[j])
  }

  /** `p` follows dependency edges, from a node towards what it depends on. */
  ghost predicate Path(g: Graph, p: seq<Node>) {
    p != [] && Linked(g, p)
  }

  ghost predicate ClosedWalk(g: Graph, p: seq<Node>) {
    |p| >= 2 && Path(g, p) && p[0] == p[|p| - 1]
  }

  ghost predicate Acyclic(g: Graph) {
    forall p :: !ClosedWalk(g, p)
  }

  /** Every listed dependency is itself a key. */
  ghost predicate Complete(g: Graph) {
    forall a, b :: Edge(g, a, b) ==> b in g
  }

  /** What `DAG.__init__` lets through. */
  ghost predicate Accepted(g: Graph) {
    g != map[] && Complete(g) && Acyclic(g)
  }

  ghost predicate PathBetween(g: Graph, p: seq<Node>, a: Node, b: Node) {
    |p| >= 2 && Path(g, p) && p[0] == a && p[|p| - 1] == b
  }

  /** `b` is a transitive dependency of `a`. */
  ghost predicate DependsOn(g: Graph, a: Node, b: Node) {
    exists p :: PathBetween(g, p, a, b)
  }

  /** Every dependency of an element of `s` stands earlier in `s`. */
  ghost predicate DependenciesFirst(g: Graph, s: seq<Node>) {
    forall i, d :: 0 <= i < |s| && Edge(g, s[i], d) ==> d in s[..i]
  }

  /** Following edges from an element of a dependencies-first list only moves left. */
  lemma {:induction false} PathMovesLeft(g: Graph, s: seq<Node>, p: seq<Node>, i: nat)
    requires DependenciesFirst(g, s)
    requires Path(g, p) && |p| >= 2 && i < |s| && p[0] == s[i]
    ensures p[|p| - 1] in s[..i]
    decreases |p|
  {
    assert Edge(g, p[0], p[1]);
    if |p| > 2 {
      var j :| 0 <= j < i && s[j] == p[1];
      PathTail(g, p);
      PathMovesLeft(g, s, p[1..], j);
      assert s[..j] <= s[..i];
    }
  }

  lemma PathTail(g: Graph, p: seq<Node>)
    requires Path(g, p) && |p| >= 2
    ensures Path(g, p[1..])
  {
  }

  /** No closed walk starts inside a dependencies-first list. */
  lemma NoCycleThrough(g: Graph, s: seq<Node>, p: seq<Node>)
    requires NoDuplicates(s) && DependenciesFirst(g, s)
    requires p != [] && p[0] in s
    ensures !ClosedWalk(g, p)
  {
    if ClosedWalk(g, p) {
      var i :| 0 <= i < |s| && s[i] == p[0];
      PathMovesLeft(g, s, p, i);
    }
  }

  lemma OrderingRefutesCycles(g: Graph, s: seq<Node>)
    requires NoDuplicates(s) && DependenciesFirst(g, s)
    requires forall n :: n in g ==> n in s
    ensures Acyclic(g)
  {
    forall p ensures !ClosedWalk(g, p) {
      if ClosedWalk(g, p) {
        assert Edge(g, p[0], p[1]);
        NoCycleThrough(g, s, p);
      }
    }
  }

  lemma {:induction false} Pigeonhole<T(!new)>(s: seq<T>, bag: set<T>)
    requires forall x :: x in s ==> x in bag
    requires |s| > |bag|
    ensures exists i, j :: 0 <= i < j < |s| && s[i] == s[j]
    decreases |s|
  {
    var last := s[|s| - 1];
    var front := s[..|s| - 1];
    if last in front {
      var i :| 0 <= i < |front| && front[i] == last;
      assert s[i] == s[|s| - 1];
    } else {
      assert last in bag;
      Pigeonhole(front, bag - {last});
      var i, j :| 0 <= i < j < |front| && front[i] == front[j];
      assert s[i] == s[j];
    }
  }

  ghost predicate HasEdgeInto(g: Graph, n: Node, within: set<Node>) {
    exists d :: d in within && Edge(g, n, d)
  }

  lemma {:induction false} GrowPathInside(g: Graph, within: set<Node>, length: nat) returns (p: seq<Node>)
    requires within != {} && length >= 1
    requires forall n :: n in within ==> HasEdgeInto(g, n, within)
    ensures Path(g, p) && |p| == length && forall n :: n in p ==> n in within
    decreases length
  {
    if length == 1 {
      var n :| n in within;
      p := [n];
    } else {
      var q := GrowPathInside(g, within, length - 1);
      var last := q[|q| - 1];
      assert HasEdgeInto(g, last, within);
      var d :| d in within && Edge(g, last, d);
      ExtendPath(g, q, d);
      p := q + [d];
    }
  }

  lemma ExtendPath(g: Graph, p: seq<Node>, d: Node)
    requires Path(g, p) && Edge(g, p[|p| - 1], d)
    ensures Path(g, p + [d])
  {
  }

  /** In an acyclic graph every non-empty set of nodes has a member none of whose
      dependencies is in the set: the fact the scheduler's progress rests on. */
  lemma SourceExists(g: Graph, within: set<Node>)
    requires Acyclic(g) && within != {}
    ensures exists n :: n in within && !HasEdgeInto(g, n, within)
  {
    if forall n :: n in within ==> HasEdgeInto(g, n, within) {
      var p := GrowPathInside(g, within, |within| + 1);
      Pigeonhole(p, within);
      var i, j :| 0 <= i < j < |p| && p[i] == p[j];
      RepeatClosesWalk(g, p, i, j);
    }
  }

  lemma RepeatClosesWalk(g: Graph, p: seq<Node>, i: nat, j: nat)
    requires Path(g, p) && i < j < |p| && p[i] == p[j]
    ensures ClosedWalk(g, p[i..j + 1])
  {
    var loop := p[i..j + 1];
    forall k, m | 0 <= k < |loop| && m == k + 1 < |loop| ensures Edge(g, loop[k], loop[m]) {
      assert Edge(g, p[i + k], p[i + m]);
    }
  }

  // ----- depth-first traversals -----

  /** Visited nodes are those of the open calls, which form a path, and those finished. */
  ghost predicate Traversed(g: Graph, visited: set<Node>, stack: seq<Node>, done: seq<Node>) {
    && NoDuplicates(stack) && Linked(g, stack) && NoDuplicates(done)
    && (forall n :: n in visited <==> n in stack || n in done)
    && (forall n :: n in stack ==> n !in done)
    && visited <= g.Keys
  }

  lemma EnterNode(g: Graph, visited: set<Node>, stack: seq<Node>, done: seq<Node>, n: Node)
    requires Traversed(g, visited, stack, done) && n in g && n !in visited
    requires stack != [] ==> Edge(g, stack[|stack| - 1], n)
    ensures Traversed(g, visited + {n}, stack + [n], done)
  {
  }

  lemma LeaveNode(g: Graph, visited: set<Node>, stack: seq<Node>, done: seq<Node>, n: Node)
    requires Traversed(g, visited, stack + [n], done)
    ensures Traversed(g, visited, stack, done + [n])
  {
    assert (stack + [n])[|stack|] == n;
    assert n in stack + [n] && n !in done;
    assert forall x :: x in stack + [n] <==> x in stack || x == n;
    assert forall i :: 0 <= i < |stack| ==> stack[i] == (stack + [n])[i];
  }

  lemma DoneGains(g: Graph, done: seq<Node>, n: Node)
    requires DependenciesFirst(g, done) && forall d :: Edge(g, n, d) ==> d in done
    ensures DependenciesFirst(g, done + [n])
  {
    var longer := done + [n];
    forall i, d | 0 <= i < |longer| && Edge(g, longer[i], d) ensures d in longer[..i] {
      assert longer[..i] == done[..i];
    }
  }

  /** An edge from the innermost open call back into the stack closes a walk. */
  lemma BackEdgeClosesWalk(g: Graph, visited: set<Node>, stack: seq<Node>, done: seq<Node>, start: nat)
    requires Traversed(g, visited, stack, done)
    requires start < |stack| && Edge(g, stack[|stack| - 1], stack[start])
    ensures ClosedWalk(g, stack[start..] + [stack[start]])
    ensures NoDuplicates((stack[start..] + [stack[start]])[1..])
  {
    var walk := stack[start..] + [stack[start]];
    assert Linked(g, walk);
    assert walk[1..] == stack[start + 1..] + [stack[start]];
  }
}
