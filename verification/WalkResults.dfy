/** The main results about `walk_parallel`, for every run from an initial state. */
module WalkResults {
  import opened Graphs
  import opened ReadySets
  import opened RateLimiters
  import Runs
  import opened Walks
  import opened WalkHistory
  import opened WalkControl
  import opened WalkProgress
  import opened WalkOutcome

  /** In every interleaving each node is in exactly one place, waits exactly while one of its
      dependencies is unfinished, and has been started only if `f` was called on it. */
  lemma EveryNodeHasOnePlace(g: Graph, s: Walk)
    requires Accepted(g) && Reachable(g, s)
    ensures Located(g, s) && WaitsForDependencies(g, s) && StartedAreBegun(s)
  {
    ReachableInv(g, s);
  }

  /** `f` is called at most once per node, in an order that extends the dependency graph. */
  lemma StartsFollowTheGraph(g: Graph, s: Walk)
    requires Accepted(g) && Reachable(g, s)
    ensures NoDuplicates(StartOrder(s.log)) && DependenciesFirst(g, StartOrder(s.log))
  {
    ReachableInv(g, s);
    StartOrderExtendsGraph(g, s.log);
  }

  /** When `f` is called on a node it has returned on all its transitive dependencies. */
  lemma StartsWaitForAllBelow(g: Graph, s: Walk, i: nat, below: Node)
    requires Accepted(g) && Reachable(g, s)
    requires i < |s.log| && s.log[i].Began? && DependsOn(g, s.log[i].node, below)
    ensures Ended(below) in s.log[..i]
  {
    ReachableInv(g, s);
    var p :| PathBetween(g, p, s.log[i].node, below);
    StartsAfterAllBelow(g, s.log, i, p);
  }

  /** When `f` raises on a node, nothing that depends on it is ever started in that run, and
      each worker starts at most one more node once `shutdown` is set. */
  lemma FailureIsContained(g: Graph, s: Walk, failed: Node)
    requires Accepted(g) && Reachable(g, s) && Failed(failed) in s.log
    ensures forall above :: DependsOn(g, above, failed) ==> !BegunIn(s.log, above)
    ensures forall i :: 0 <= i < |s.workers| ==> LateStarts(s.log, i) <= 1
  {
    ReachableInv(g, s);
    forall above | DependsOn(g, above, failed) ensures !BegunIn(s.log, above) {
      NothingAboveAFailureStarts(g, s, failed, above);
    }
  }

  /** `walk_parallel` returns exactly when nothing failed, with `f` called on every node and
      one token spent on each; otherwise it raises what the first worker raised that has not exited
      normally. No assertion fails. */
  lemma OutcomeTellsWhatHappened(g: Graph, s: Walk)
    requires Accepted(g) && Reachable(g, s)
    ensures s.main != AssertionFailed
    ensures s.main.Completed? ==>
      && (forall n :: n in g ==> Ended(n) in s.log) && (forall n :: Failed(n) !in s.log)
      && s.limiter.usedTokens == |g|
    ensures s.main.Reraised? ==>
      && s.main.from < |s.workers| && s.workers[s.main.from].Raised?
      && Failed(s.workers[s.main.from].node) in s.log
      && forall i :: 0 <= i < s.main.from ==> s.workers[i].Exited?
  {
    ReachableInv(g, s);
    if s.main.Completed? {
      CompletedMeans(g, s);
    } else if s.main.Reraised? {
      RaisedIsLogged(s, s.main.from);
    }
  }

  lemma CompletedMeans(g: Graph, s: Walk)
    requires Located(g, s) && Recorded(s) && Controlled(g, s) && TokensSpent(s) && s.main.Completed?
    ensures (forall n :: n in g ==> Ended(n) in s.log) && (forall n :: Failed(n) !in s.log)
    ensures s.limiter.usedTokens == |g|
  {
    assert !SomeoneRaised(s.workers);
    forall n | n in g ensures s.place[n] == Finished && Ended(n) in s.log && Failed(n) !in s.log {
      assert n in s.ready.finished;
    }
    assert Pushed(s.place) == g.Keys;
    assert |g.Keys| == |g|;
  }

  lemma RaisedIsLogged(s: Walk, i: nat)
    requires HeldByWorkers(s.place, s.workers) && Recorded(s) && i < |s.workers| && s.workers[i].Raised?
    ensures Failed(s.workers[i].node) in s.log
  {
    assert FailedAt(Held(i), s.workers);
  }

  lemma ReachesOn(g: Graph, s: Walk, steps: seq<Step>, t: Walk)
    requires Reachable(g, s) && Leads(g, s, steps, t)
    ensures Reachable(g, t)
  {
    var start, before :| Init(g, start) && Leads(g, start, before, s);
    Runs.LeadsOn(Moves(g), start, before, s, steps, t);
    assert Leads(g, start, before + steps, t);
  }

  /** No deadlock: from every reachable state, whatever the clock shows, some schedule ends the walk
      with all workers gone, and it ends by returning exactly if nothing has failed so far. */
  lemma NeverDeadlocks(g: Graph, s: Walk, notBefore: real) returns (steps: seq<Step>, t: Walk)
    requires Accepted(g) && Reachable(g, s)
    ensures Leads(g, s, steps, t) && Over(t) && ClockRuns(steps, notBefore)
    ensures t.main.Completed? <==> forall n :: Failed(n) !in s.log
  {
    ReachableInv(g, s);
    steps, t := CanAlwaysEnd(g, s, notBefore);
    ReachesOn(g, s, steps, t);
    OutcomeTellsWhatHappened(g, t);
  }

  /** Every schedule is bounded too: a run moves nodes at most seven times per node, and only
      polls otherwise. */
  lemma MovesPerRun(g: Graph, s: Walk, steps: seq<Step>, t: Walk)
    requires Accepted(g) && Init(g, s) && Leads(g, s, steps, t)
    ensures MovesIn(g, s, steps, t) <= 7 * |g|
  {
    InitInv(g, s);
    MovesAreBounded(g, s, steps, t);
  }

  /** What the pull loop hands to `_finish` is a node of the graph that it has not been given
      before, and the step is the effect of `_finish`. */
  lemma PullFinishesANewNode(g: Graph, s: Walk, released: seq<Node>)
    requires Accepted(g) && Reachable(g, s) && Enabled(g, s, Pull(released)) && s.done != []
    ensures s.done[0] in g && s.done[0] !in s.ready.finished
    ensures Finishes(g, s.ready, s.done[0], AfterPull(s, released).ready)
  {
    ReachableInv(g, s);
    assert s.done[0] in s.done;
    var q := s.ready.queue;
    assert (q + released)[|q|..] == released;
  }

  // ----- tokens over time -----

  function LastReading(steps: seq<Step>, from: real): real
    decreases |steps|
  {
    if steps == [] then from
    else LastReading(steps[1..], if steps[0].Push? then steps[0].now else from)
  }

  ghost predicate LimiterWithin(s: Walk, maxTokens: int, interval: real, start: real, now: real)
    requires interval > 0.0
  {
    && s.limiter == Fresh(maxTokens, interval, start).(usedTokens := s.limiter.usedTokens)
    && s.limiter.usedTokens <= Budget(maxTokens, interval, now - start)
  }

  lemma StepStaysWithin(g: Graph, s: Walk, step: Step, maxTokens: int, interval: real, start: real, last: real)
    requires interval > 0.0 && Enabled(g, s, step)
    requires LimiterWithin(s, maxTokens, interval, start, last)
    requires step.Push? ==> last <= step.now
    ensures LimiterWithin(Apply(g, s, step), maxTokens, interval, start, if step.Push? then step.now else last)
  {
    if step.Push? {
      BudgetMonotone(maxTokens, interval, last - start, step.now - start);
      GrantsBelowBudget(maxTokens, interval, start, s.limiter, step.now);
    }
  }

  lemma {:induction false} RunStaysWithin(
    g: Graph, s: Walk, steps: seq<Step>, t: Walk, maxTokens: int, interval: real, start: real, last: real)
    requires interval > 0.0 && Leads(g, s, steps, t) && ClockRuns(steps, last)
    requires LimiterWithin(s, maxTokens, interval, start, last)
    ensures LimiterWithin(t, maxTokens, interval, start, LastReading(steps, last))
    decreases |steps|
  {
    if steps != [] {
      StepStaysWithin(g, s, steps[0], maxTokens, interval, start, last);
      RunStaysWithin(g, Apply(g, s, steps[0]), steps[1..], t, maxTokens, interval, start,
        if steps[0].Push? then steps[0].now else last);
    }
  }

  lemma FreshStaysWithin(
    g: Graph, s: Walk, steps: seq<Step>, t: Walk, maxTokens: int, interval: real, start: real)
    requires Leads(g, s, steps, t) && ClockRuns(steps, start)
    requires interval > 0.0 && s.limiter == Fresh(maxTokens, interval, start)
    ensures t.limiter.usedTokens <= Budget(maxTokens, interval, LastReading(steps, start) - start)
  {
    RunStaysWithin(g, s, steps, t, maxTokens, interval, start, start);
  }

  lemma TokensCountPushed(g: Graph, s: Walk, steps: seq<Step>, t: Walk)
    requires Complete(g) && Init(g, s) && Leads(g, s, steps, t)
    ensures t.limiter.usedTokens == |Pushed(t.place)|
  {
    InitInv(g, s);
    RunKeepsInv(g, s, steps, t);
  }

  /** In every run the number of nodes handed to the workers stays within the budget at the
      clock's last reading. */
  lemma HandedOutWithinBudget(
    g: Graph, s: Walk, steps: seq<Step>, t: Walk, maxTokens: int, interval: real, start: real)
    requires Accepted(g) && Init(g, s) && Leads(g, s, steps, t)
    requires interval > 0.0 && s.limiter == Fresh(maxTokens, interval, start) && ClockRuns(steps, start)
    ensures |Pushed(t.place)| <= Budget(maxTokens, interval, LastReading(steps, start) - start)
  {
    TokensCountPushed(g, s, steps, t);
    FreshStaysWithin(g, s, steps, t, maxTokens, interval, start);
  }

  /** The nodes handed out and not finished yet. */
  ghost function InProgress(s: Walk): set<Node> {
    Pushed(s.place) - s.ready.finished
  }

  /** The doc comment of `walk_parallel` on a state: at most max_tokens - num_in_progress tokens are
      in the bucket. */
  ghost predicate BucketClaim(s: Walk, now: real) {
    s.limiter.Total(now) - s.limiter.usedTokens <= s.limiter.startTokens - |InProgress(s)|
  }

  /** `s` can be reached by time `now` when the walk begins with a fresh limiter at time `start`. */
  ghost predicate ReachedBy(g: Graph, maxTokens: int, interval: real, start: real, now: real, s: Walk)
    requires interval > 0.0
  {
    exists init, steps ::
      && Init(g, init) && init.limiter == Fresh(maxTokens, interval, start)
      && Leads(g, init, steps, s) && ClockRuns(steps, start) && LastReading(steps, start) <= now
  }

  lemma SomeStart(g: Graph, limiter: Limiter) returns (start: Walk)
    requires limiter.usedTokens == 0 && limiter.tokensPerSecond > 0.0
    ensures Init(g, start) && start.limiter == limiter
  {
    var sources := InSomeOrder(set n | n in g && Released(g, {}, n));
    start := Walk(ReadySet({}, sources, {}), [], [], [Idle], false, LoopHead, limiter,
      map n | n in g :: if n in sources then Ready else Waiting, []);
  }

  lemma {:induction false} ReachedByRun(g: Graph, maxTokens: int, interval: real, start: real, now: real, s: Walk)
    requires Accepted(g) && interval > 0.0 && ReachedBy(g, maxTokens, interval, start, now, s)
    ensures s.limiter == Fresh(maxTokens, interval, start).(usedTokens := s.limiter.usedTokens)
    ensures s.limiter.usedTokens == |InProgress(s)| + |s.ready.finished|
  {
    var init, steps :|
      && Init(g, init) && init.limiter == Fresh(maxTokens, interval, start)
      && Leads(g, init, steps, s) && ClockRuns(steps, start) && LastReading(steps, start) <= now;
    RunStaysWithin(g, init, steps, s, maxTokens, interval, start, start);
    InitInv(g, init);
    RunKeepsInv(g, init, steps, s);
    TokensOfInProgress(g, s);
  }

  lemma TokensOfInProgress(g: Graph, s: Walk)
    requires Inv(g, s)
    ensures s.limiter.usedTokens == |InProgress(s)| + |s.ready.finished|
  {
    assert s.ready.finished <= Pushed(s.place);
    assert Pushed(s.place) == InProgress(s) + s.ready.finished;
  }

  lemma UntilTheFirstRefill(g: Graph, maxTokens: int, interval: real, start: real, now: real, s: Walk)
    requires Accepted(g) && interval > 0.0 && start <= now < start + interval
    requires ReachedBy(g, maxTokens, interval, start, now, s)
    ensures BucketClaim(s, now)
  {
    ReachedByRun(g, maxTokens, interval, start, now, s);
    NothingRefilled(s, maxTokens, interval, start, now);
  }

  lemma NothingRefilled(s: Walk, maxTokens: int, interval: real, start: real, now: real)
    requires interval > 0.0 && start <= now && now - start < interval
    requires s.limiter == Fresh(maxTokens, interval, start).(usedTokens := s.limiter.usedTokens)
    requires s.limiter.usedTokens == |InProgress(s)| + |s.ready.finished|
    ensures BucketClaim(s, now)
  {
    RefilledBy(maxTokens, interval, start, now);
    assert s.limiter.Total(now) == Fresh(maxTokens, interval, start).Total(now);
  }

  lemma RefilledBy(maxTokens: int, interval: real, start: real, now: real)
    requires interval > 0.0 && start <= now
    ensures now - start < interval ==> Fresh(maxTokens, interval, start).Total(now) == maxTokens
    ensures now - start >= interval ==> Fresh(maxTokens, interval, start).Total(now) > maxTokens
  {
    ProductIsQuotient(interval, now - start);
    var q := (now - start) / interval;
    assert q * interval == now - start;
    assert now - start < interval ==> 0.0 <= q < 1.0;
    assert now - start >= interval ==> q >= 1.0;
  }

  /** The first state breaks the claim once a token has been refilled: the bucket is not capped. */
  lemma FirstStateBreaksBucketClaim(g: Graph, maxTokens: int, interval: real, start: real, now: real) returns (s: Walk)
    requires Accepted(g) && interval > 0.0 && now >= start + interval
    ensures ReachedBy(g, maxTokens, interval, start, now, s) && !BucketClaim(s, now)
  {
    s := SomeStart(g, Fresh(maxTokens, interval, start));
    assert Leads(g, s, [], s) && ClockRuns([], start) && LastReading([], start) <= now;
    assert Pushed(s.place) == {};
    RefilledBy(maxTokens, interval, start, now);
  }

  /** The claim holds at time `now`, wherever the walk may be by then, exactly if less than one refill
      interval has passed since the limiter was made. */
  lemma BucketClaimHoldsExactlyWhen(g: Graph, maxTokens: int, interval: real, start: real, now: real)
    requires Accepted(g) && interval > 0.0 && start <= now
    ensures
      (forall s :: ReachedBy(g, maxTokens, interval, start, now, s) ==> BucketClaim(s, now))
      <==> now - start < interval
  {
    if now - start < interval {
      forall s | ReachedBy(g, maxTokens, interval, start, now, s) ensures BucketClaim(s, now) {
        UntilTheFirstRefill(g, maxTokens, interval, start, now, s);
      }
    } else {
      var s := FirstStateBreaksBucketClaim(g, maxTokens, interval, start, now);
    }
  }
}
