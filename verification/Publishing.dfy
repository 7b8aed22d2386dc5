/** `publish_unpublished_crates_in_parallel` of `scripts/ci/crates.py`, over any series of
    attempts, each of which may be cut short by a failing crate. */
module Publishing {
  import opened Graphs
  import opened RateLimiters
  import opened CycleSearch
  import opened Crates
  import opened Walks
  import opened WalkHistory
  import opened WalkControl
  import opened WalkOutcome
  import opened WalkResults
  import opened WalkFairness

  /** No published crate lacks a publishable dependency. */
  ghost predicate Closed(ws: Workspace, published: set<Node>) {
    forall c, d :: c in published && Needs(ws, c, d) ==> d in published
  }

  datatype Plan =
    | AllPublished
    | Refused(verdict: Verdict)
    | Publish(graph: Graph)

  /** The crates still to publish, in their dependency graph. */
  ghost function Remainder(ws: Workspace, published: set<Node>): Graph {
    GraphOf(ws, ws.Keys - published)
  }

  /** The part before the walk. A re-run plans exactly what is left, and when the publishable
      crates have no dependency cycle `DAG` accepts it. */
  method PlanPublishing(ws: Workspace, isPublished: Node -> bool) returns (plan: Plan)
    ensures
      var published := set n | n in ws && isPublished(n);
      && (plan == AllPublished <==> published == ws.Keys)
      && (plan.Publish? <==> published != ws.Keys && CycleFree(ws, ws.Keys - published))
      && (plan.Publish? ==> plan.graph == Remainder(ws, published) && Collects(ws, ws.Keys - published, plan.graph))
      && (CycleFree(ws, ws.Keys) ==> !plan.Refused?)
      && (plan.Refused? ==> plan.verdict.Cycle? && var walk := plan.verdict.walk;
            NeedChain(ws, ws.Keys - published, walk) && walk[0] == walk[|walk| - 1])
  {
    ghost var published := set n | n in ws && isPublished(n);
    var unpublished: set<Node> := {};
    var todo := ws.Keys;
    while todo != {}
      invariant todo <= ws.Keys
      invariant forall n :: n in unpublished <==> n in ws && n !in todo && !isPublished(n)
      decreases todo
    {
      var name :| name in todo;
      todo := todo - {name};
      if !isPublished(name) {
        unpublished := unpublished + {name};
      }
    }
    assert unpublished == ws.Keys - published;
    if unpublished == {} {
      return AllPublished;
    }
    var graph := CollectGraph(ws, unpublished);
    if CycleFree(ws, ws.Keys) {
      RestrictionStaysAccepted(ws, ws.Keys, unpublished);
    }
    var verdict := Sanitize(graph);
    VerdictMeans(ws, unpublished, verdict);
    plan := if verdict == Fine then Publish(graph) else Refused(verdict);
  }

  /** What may be published when a walk has come as far as `s`: at least the crates on which
      `publish_crate` has returned, at most those on which it was called. */
  ghost predicate PublishedBy(before: set<Node>, s: Walk, after: set<Node>) {
    && before <= after
    && (forall n :: Ended(n) in s.log ==> n in after)
    && (forall n :: n in after ==> n in before || BegunIn(s.log, n))
  }

  /** One attempt: the walk stops anywhere. */
  datatype Attempt = Attempt(walk: Walk, after: set<Node>)

  ghost predicate IsAttempt(ws: Workspace, before: set<Node>, a: Attempt) {
    if ws.Keys <= before then a.after == before
    else Reachable(Remainder(ws, before), a.walk) && PublishedBy(before, a.walk, a.after)
  }

  ghost predicate IsSeries(ws: Workspace, before: set<Node>, attempts: seq<Attempt>)
    decreases |attempts|
  {
    attempts != [] ==> IsAttempt(ws, before, attempts[0]) && IsSeries(ws, attempts[0].after, attempts[1..])
  }

  function AfterSeries(before: set<Node>, attempts: seq<Attempt>): set<Node> {
    if attempts == [] then before else attempts[|attempts| - 1].after
  }

  lemma RemainderEdges(ws: Workspace, published: set<Node>)
    ensures Complete(Remainder(ws, published)) && Remainder(ws, published).Keys == ws.Keys - published
    ensures forall a, b :: Edge(Remainder(ws, published), a, b) <==>
      a !in published && b !in published && Needs(ws, a, b)
  {
    GraphOfEdges(ws, ws.Keys - published);
  }

  /** A crate whose publication has begun has all its publishable dependencies published. */
  lemma BegunHasDependencies(ws: Workspace, before: set<Node>, s: Walk, after: set<Node>, c: Node, d: Node)
    requires Reachable(Remainder(ws, before), s) && PublishedBy(before, s, after)
    requires BegunIn(s.log, c) && Needs(ws, c, d)
    ensures c !in before && d in after
  {
    var g := Remainder(ws, before);
    RemainderEdges(ws, before);
    ReachableInv(g, s);
    assert c in g;
    if d !in before {
      var i :| 0 <= i < |s.log| && s.log[i].Began? && s.log[i].node == c;
      assert Edge(g, c, d);
      assert Ended(d) in s.log[..i];
    }
  }

  /** Publishing keeps the published set closed, wherever the attempt stops. */
  lemma AttemptKeepsClosed(ws: Workspace, before: set<Node>, a: Attempt)
    requires Closed(ws, before) && IsAttempt(ws, before, a)
    ensures Closed(ws, a.after) && before <= a.after
  {
    if !(ws.Keys <= before) {
      forall c, d | c in a.after && Needs(ws, c, d) ensures d in a.after {
        if c !in before {
          BegunHasDependencies(ws, before, a.walk, a.after, c, d);
        }
      }
    }
  }

  /** ... and so over every series of attempts. */
  lemma {:induction false} SeriesKeepsClosed(ws: Workspace, before: set<Node>, attempts: seq<Attempt>)
    requires Closed(ws, before) && IsSeries(ws, before, attempts)
    ensures Closed(ws, AfterSeries(before, attempts)) && before <= AfterSeries(before, attempts)
    decreases |attempts|
  {
    if attempts != [] {
      AttemptKeepsClosed(ws, before, attempts[0]);
      SeriesKeepsClosed(ws, attempts[0].after, attempts[1..]);
    }
  }

  /** An attempt that returns normally has published everything. */
  lemma CompletedAttemptPublishesAll(ws: Workspace, before: set<Node>, a: Attempt)
    requires IsAttempt(ws, before, a)
    requires ws.Keys <= before || a.walk.main.Completed?
    ensures ws.Keys <= a.after
  {
    if !(ws.Keys <= before) {
      RemainderEdges(ws, before);
      ReachableInv(Remainder(ws, before), a.walk);
      CompletedMeans(Remainder(ws, before), a.walk);
    }
  }

  /** Nothing that was published before an attempt is touched by it. */
  lemma OnlyTheRemainderIsTouched(ws: Workspace, before: set<Node>, a: Attempt, n: Node)
    requires IsAttempt(ws, before, a) && !(ws.Keys <= before)
    requires n in before
    ensures !BegunIn(a.walk.log, n)
  {
    RemainderEdges(ws, before);
    ReachableInv(Remainder(ws, before), a.walk);
  }

  lemma AttemptOnlyAdds(ws: Workspace, before: set<Node>, a: Attempt)
    requires IsAttempt(ws, before, a)
    ensures before <= a.after
  {
  }

  /** A crate that one attempt has published is not attempted again by any later one. */
  lemma {:induction false} NeverPublishedTwice(
    ws: Workspace, before: set<Node>, attempts: seq<Attempt>, i: nat, j: nat, n: Node)
    requires IsSeries(ws, before, attempts)
    requires i < j < |attempts| && n in attempts[i].after
    requires !(ws.Keys <= attempts[j - 1].after)
    ensures !BegunIn(attempts[j].walk.log, n)
    decreases |attempts|
  {
    AttemptOnlyAdds(ws, before, attempts[0]);
    if i > 0 {
      NeverPublishedTwice(ws, attempts[0].after, attempts[1..], i - 1, j - 1, n);
    } else {
      PublishedStays(ws, attempts[0].after, attempts[1..], j - 1, n);
    }
  }

  lemma {:induction false} PublishedStays(
    ws: Workspace, before: set<Node>, attempts: seq<Attempt>, j: nat, n: Node)
    requires IsSeries(ws, before, attempts)
    requires j < |attempts| && n in before
    requires !(ws.Keys <= if j == 0 then before else attempts[j - 1].after)
    ensures !BegunIn(attempts[j].walk.log, n)
    decreases |attempts|
  {
    if j == 0 {
      OnlyTheRemainderIsTouched(ws, before, attempts[0], n);
    } else {
      AttemptOnlyAdds(ws, before, attempts[0]);
      PublishedStays(ws, attempts[0].after, attempts[1..], j - 1, n);
    }
  }

  lemma SomeWalkCompletes(g: Graph, limiter: Limiter, from: real) returns (start: Walk, steps: seq<Step>, end: Walk)
    requires Accepted(g) && limiter.usedTokens == 0 && limiter.tokensPerSecond > 0.0
    ensures Init(g, start) && start.limiter == limiter
    ensures Leads(g, start, steps, end) && ClockRuns(steps, from) && Over(end) && end.main.Completed?
  {
    start := SomeStart(g, limiter);
    assert Leads(g, start, [], start);
    steps, end := NeverDeadlocks(g, start, from);
  }

  /** From every published set whose remainder `DAG` accepts some attempt publishes the rest, with a
      clock that runs on from any time. */
  lemma {:induction false} RerunCanFinish(ws: Workspace, before: set<Node>, limiter: Limiter, from: real)
    returns (start: Walk, steps: seq<Step>, a: Attempt)
    requires Accepted(Remainder(ws, before))
    requires limiter.usedTokens == 0 && limiter.tokensPerSecond > 0.0
    ensures Init(Remainder(ws, before), start) && start.limiter == limiter
    ensures Leads(Remainder(ws, before), start, steps, a.walk) && ClockRuns(steps, from) && Over(a.walk)
    ensures IsAttempt(ws, before, a) && a.walk.main.Completed? && ws.Keys <= a.after
  {
    var g := Remainder(ws, before);
    RemainderEdges(ws, before);
    var end;
    start, steps, end := SomeWalkCompletes(g, limiter, from);
    a := Attempt(end, before + set n | n in g && Ended(n) in end.log);
    ReachableInv(g, end);
    EndedWereBegun(g, end);
    CompletedAttemptPublishesAll(ws, before, a);
  }

  /** Every attempt on an accepted remainder publishes all of it, if no crate fails, no thread is
      kept waiting for ever and the clock passes every time. */
  lemma {:induction false} FairAttemptPublishesAll(
    ws: Workspace, before: set<Node>, states: nat -> Walk, steps: nat -> Option<Step>)
    returns (k: nat, a: Attempt)
    requires Accepted(Remainder(ws, before)) && Init(Remainder(ws, before), states(0))
    requires IsCourse(Remainder(ws, before), states, steps) && Fair(Remainder(ws, before), states, steps)
    requires ClockDiverges(steps) && forall j: nat :: !Fails(steps(j))
    ensures Over(states(k)) && a.walk == states(k) && a.walk.main.Completed?
    ensures IsAttempt(ws, before, a) && ws.Keys <= a.after
  {
    var g := Remainder(ws, before);
    RemainderEdges(ws, before);
    k := EveryFairScheduleEnds(g, states, steps);
    var run := CourseIsARun(g, states, steps, k);
    NothingFailed(g, states, steps, k);
    OutcomeTellsWhatHappened(g, states(k));
    a := Attempt(states(k), before + set n | n in g && Ended(n) in states(k).log);
    ReachableInv(g, states(k));
    EndedWereBegun(g, states(k));
    CompletedAttemptPublishesAll(ws, before, a);
  }

  lemma EndedWereBegun(g: Graph, s: Walk)
    requires Placed(g, s) && Recorded(s)
    ensures forall n :: Ended(n) in s.log ==> n in g && BegunIn(s.log, n)
  {
  }
}
